/** The stages of a file upload and what each reply does to them
    (Source/Synchronization/Strategies/FileUploadRequestStrategy.swift, driven by
    Source/Synchronization/ZMUpstreamModifiedObjectSync.m and ZMLocallyModifiedObjectSet.m).

    `dirty` is whether the upload state key is locally modified, which assigning the upload state makes it.
    The request's own completion handler runs before the one the sync adds. Whether a response reports
    missing clients and whether there is a preview are inputs of each reply.
 */
module FileUpload {
  import opened Options

  datatype UploadState = UploadingPlaceholder | UploadingThumbnail | UploadingFullAsset | UploadingFailed | Done

  datatype TransferState = Uploading | Downloaded | FailedUpload | CancelledUpload

  datatype Result = Success | TemporaryError | TryAgainLater | PermanentError | Expired

  datatype Reply = Reply(result: Result, missingClients: bool, hasPreview: bool)

  datatype Request = Placeholder | Thumbnail | FullAsset | NotUploaded

  datatype Upload = Upload(stage: UploadState, transfer: TransferState, delivered: bool, expired: bool, dirty: bool)

  const START := Upload(UploadingPlaceholder, Uploading, false, false, true)

  predicate IsUploading(stage: UploadState) {
    stage == UploadingPlaceholder || stage == UploadingThumbnail || stage == UploadingFullAsset
  }

  predicate GivesUp(result: Result) {
    result == Expired || result == TemporaryError || result == TryAgainLater
  }

  /** The predicate and the filter for files to upload, once preprocessed, with the key locally modified. */
  predicate RequestDue(u: Upload) {
    u.dirty && u.stage != Done && u.transfer in {Uploading, FailedUpload, CancelledUpload}
  }

  // ----- What the strategy does

  function Failed(u: Upload, keys: bool): Upload {
    var u' := if u.transfer == CancelledUpload then u else u.(transfer := FailedUpload, expired := true);
    if keys && u.stage != UploadingFailed then u'.(stage := UploadingFailed, dirty := true) else u'
  }

  function Accepted(u: Upload, hasPreview: bool): Upload {
    match u.stage
    case UploadingPlaceholder => u.(stage := if hasPreview then UploadingThumbnail else UploadingFullAsset,
        dirty := true)
    case UploadingThumbnail => u.(stage := UploadingFullAsset, dirty := true)
    case UploadingFullAsset => u.(transfer := Downloaded, stage := Done, delivered := true, dirty := false)
    case _ => u.(dirty := false)
  }

  /** The message after a reply to the request its stage called for. */
  function Replied(u: Upload, reply: Reply): Upload {
    match reply.result
    case Success => Accepted(u, reply.hasPreview)
    case PermanentError =>
      if reply.missingClients then u.(dirty := true)
      else Failed(u, true).(dirty := u.stage == UploadingFullAsset || u.stage == UploadingThumbnail)
    case Expired =>
      (if IsUploading(u.stage) then Failed(u, true) else u).(dirty := false)
    case _ =>
      if !IsUploading(u.stage) then u
      else Failed(u, true).(dirty := u.stage != UploadingPlaceholder)
  }

  // ----- The strategy and the sync, on the message's fields

  class FileUploadRequestStrategy {
    var uploadState: UploadState
    var transferState: TransferState
    var delivered: bool
    var isExpired: bool
    var modified: bool

    ghost function State(): Upload
      reads this
    {
      Upload(uploadState, transferState, delivered, isExpired, modified)
    }

    constructor ()
      ensures State() == START
    {
      uploadState, transferState, delivered, isExpired, modified := UploadingPlaceholder, Uploading, false, false, true;
    }

    method SetUploadState(state: UploadState)
      modifies this
      ensures State() == old(State()).(stage := state, dirty := true)
    {
      uploadState := state;
      modified := true;
    }

    method RequestForUpdatingObject() returns (request: Option<Request>)
      ensures request.None? <==> uploadState == Done
      ensures request == Some(NotUploaded) <==> uploadState == UploadingFailed
      ensures request == Some(Placeholder) <==> uploadState == UploadingPlaceholder
      ensures request == Some(Thumbnail) <==> uploadState == UploadingThumbnail
    {
      if uploadState == UploadingFailed {
        return Some(NotUploaded);
      }
      if uploadState == UploadingThumbnail {
        return Some(Thumbnail);
      }
      if uploadState == UploadingFullAsset {
        return Some(FullAsset);
      }
      if uploadState == UploadingPlaceholder {
        return Some(Placeholder);
      }
      return None;
    }

    method FailMessageUpload(keys: bool)
      modifies this
      ensures State() == Failed(old(State()), keys)
      ensures transferState == if old(transferState) == CancelledUpload then CancelledUpload else FailedUpload
      ensures isExpired <==> old(isExpired) || old(transferState) != CancelledUpload
      ensures uploadState == if keys then UploadingFailed else old(uploadState)
      ensures modified <==> old(modified) || (keys && old(uploadState) != UploadingFailed)
      ensures delivered == old(delivered)
    {
      if transferState != CancelledUpload {
        transferState := FailedUpload;
        isExpired := true;
      }
      if keys {
        if uploadState == UploadingFailed {
          return;
        }
        SetUploadState(UploadingFailed);
      }
    }

    /** The handlers the three upload requests carry; the not-uploaded request carries none. */
    method CompletionHandler(request: Request, result: Result)
      modifies this
      ensures request == NotUploaded || result in {Success, PermanentError} ==> State() == old(State())
      ensures request == Placeholder && result in {Expired, TemporaryError, TryAgainLater} ==>
                State() == Failed(old(State()), true).(dirty := false)
      ensures request in {Thumbnail, FullAsset} && result in {Expired, TemporaryError, TryAgainLater} ==>
                State() == Failed(old(State()), true)
    {
      if request != NotUploaded && GivesUp(result) {
        FailMessageUpload(true);
        if request == Placeholder {
          modified := false;
        }
      }
    }

    method UpdateUpdatedObject(keys: bool, hasPreview: bool) returns (more: bool)
      modifies this
      ensures !keys ==> !more && State() == old(State())
      ensures keys ==> State().(dirty := false) == Accepted(old(State()), hasPreview).(dirty := false)
      ensures keys ==> more == (old(uploadState) == UploadingPlaceholder || old(uploadState) == UploadingThumbnail)
      ensures more ==> modified
      ensures keys && old(uploadState) == UploadingPlaceholder ==>
                uploadState == if hasPreview then UploadingThumbnail else UploadingFullAsset
      ensures keys && old(uploadState) == UploadingThumbnail ==> uploadState == UploadingFullAsset
      ensures keys && old(uploadState) == UploadingFullAsset ==>
                uploadState == Done && transferState == Downloaded && delivered
    {
      if !keys {
        return false;
      }
      match uploadState {
        case UploadingPlaceholder =>
          if hasPreview {
            SetUploadState(UploadingThumbnail);
          } else {
            SetUploadState(UploadingFullAsset);
          }
          return true;
        case UploadingThumbnail =>
          SetUploadState(UploadingFullAsset);
          return true;
        case UploadingFullAsset =>
          transferState := Downloaded;
          SetUploadState(Done);
          delivered := true;
        case _ =>
      }
      more := false;
    }

    method ShouldRetryToSyncAfterFailedToUpdateObject(failedBecauseOfMissingClients: bool, keys: bool)
      returns (retry: bool)
      modifies this
      ensures failedBecauseOfMissingClients ==> retry && State() == old(State())
      ensures !failedBecauseOfMissingClients ==>
                && State() == Failed(old(State()), keys)
                && retry == (old(uploadState) == UploadingFullAsset || old(uploadState) == UploadingThumbnail)
    {
      if !failedBecauseOfMissingClients {
        var shouldUploadFailed := uploadState in [UploadingFullAsset, UploadingThumbnail];
        FailMessageUpload(keys);
        return shouldUploadFailed;
      }
      return true;
    }

    /** One request and its reply, as the upstream sync runs them: the request's handler first, then the
        sync's, which parses the key only if its value is still the one that was sent. */
    method Perform(reply: Reply)
      requires RequestDue(State())
      modifies this
      ensures State() == Replied(old(State()), reply)
    {
      var sent := uploadState;
      var request := RequestForUpdatingObject();
      CompletionHandler(request.value, reply.result);
      var keys := uploadState == sent;
      if reply.result == Success {
        var more := UpdateUpdatedObject(keys, reply.hasPreview);
        if !(keys && more) {
          modified := false;
        }
      } else if reply.result == Expired {
        modified := false;
      } else if reply.result == PermanentError {
        var retry := ShouldRetryToSyncAfterFailedToUpdateObject(reply.missingClients, keys);
        modified := false;
        if retry {
          modified := true;
        }
      }
    }
  }

  // ----- Whole runs

  /** A reply comes only to a request that was due. */
  function After(replies: seq<Reply>): Upload {
    if replies == [] then START
    else
      var u := After(replies[..|replies| - 1]);
      if RequestDue(u) then Replied(u, replies[|replies| - 1]) else u
  }

  function Rank(stage: UploadState): nat {
    match stage
    case UploadingPlaceholder => 0
    case UploadingThumbnail => 1
    case UploadingFullAsset => 2
    case _ => 3
  }

  /** In a run an upload is under way and due, has failed, or is delivered for good. */
  ghost predicate Inv(u: Upload) {
    && (IsUploading(u.stage) ==> u.dirty && u.transfer == Uploading && !u.delivered && !u.expired)
    && (u.stage == UploadingFailed ==> u.transfer == FailedUpload && !u.delivered && u.expired)
    && (u.stage == Done ==> !u.dirty && u.transfer == Downloaded && u.delivered && !u.expired)
  }

  lemma {:induction false} RunKeepsInv(replies: seq<Reply>)
    ensures Inv(After(replies))
  {
    if replies != [] { RunKeepsInv(replies[..|replies| - 1]); }
  }

  lemma StageStep(u: Upload, reply: Reply)
    requires Inv(u) && RequestDue(u)
    ensures Rank(Replied(u, reply).stage) >= Rank(u.stage)
    ensures Rank(u.stage) == 3 ==> Replied(u, reply).stage == u.stage
    ensures Rank(Replied(u, reply).stage) == Rank(u.stage) ==> Replied(u, reply).stage == u.stage
  {
  }

  /** The stage never goes back, and a failed or finished upload keeps its stage. */
  lemma {:induction false} StagesOnlyAdvance(replies: seq<Reply>, k: nat)
    requires k <= |replies|
    ensures Rank(After(replies[..k]).stage) <= Rank(After(replies).stage)
    ensures Rank(After(replies[..k]).stage) == 3 ==> After(replies).stage == After(replies[..k]).stage
    decreases |replies|
  {
    var n := |replies| - 1;
    if k == |replies| {
      assert replies[..k] == replies;
    } else {
      assert replies[..n][..k] == replies[..k];
      StagesOnlyAdvance(replies[..n], k);
      RunKeepsInv(replies[..n]);
      if RequestDue(After(replies[..n])) { StageStep(After(replies[..n]), replies[n]); }
    }
  }

  predicate AcceptedAt(replies: seq<Reply>, k: nat, stage: UploadState)
    requires k < |replies|
  {
    After(replies[..k]).stage == stage && RequestDue(After(replies[..k])) && replies[k].result == Success
  }

  /** Which stage comes next: a success advances, with a thumbnail exactly if there is a preview; missing clients change
      nothing; any other reply fails the upload; and a failed upload stays failed. */
  lemma {:induction false} NextStage(replies: seq<Reply>, reply: Reply)
    ensures var before, after := After(replies), After(replies + [reply]);
            var failed := if reply.result == PermanentError && reply.missingClients then before.stage
                          else UploadingFailed;
            if !before.dirty then after == before
            else match before.stage
                 case UploadingPlaceholder =>
                   after.stage == if reply.result != Success then failed
                                  else if reply.hasPreview then UploadingThumbnail else UploadingFullAsset
                 case UploadingThumbnail =>
                   after.stage == if reply.result != Success then failed else UploadingFullAsset
                 case UploadingFullAsset =>
                   after.stage == if reply.result != Success then failed else Done
                 case _ => after.stage == before.stage
  {
    RunKeepsInv(replies);
    assert (replies + [reply])[..|replies|] == replies;
  }

  /** In a run a request is due exactly as long as the key is modified. */
  lemma {:induction false} DueIffModified(replies: seq<Reply>)
    ensures RequestDue(After(replies)) <==> After(replies).dirty
  {
    RunKeepsInv(replies);
  }

  /** An upload that the user cancelled has its failure announced too, once, and stays cancelled. */
  lemma CancelledIsAnnounced(u: Upload, reply: Reply)
    requires u.stage == UploadingFailed && u.transfer == CancelledUpload && u.dirty
    ensures RequestDue(u) && Replied(u, reply).stage == UploadingFailed && Replied(u, reply).transfer == CancelledUpload
    ensures reply.result == Success ==> !RequestDue(Replied(u, reply))
    ensures Replied(u, reply).expired == u.expired && Replied(u, reply).delivered == u.delivered
  {
  }

  ghost predicate PassesThumbnail(replies: seq<Reply>) {
    exists k :: 0 <= k <= |replies| && ThumbnailAt(replies, k)
  }

  predicate ThumbnailAt(replies: seq<Reply>, k: nat)
    requires k <= |replies|
  {
    After(replies[..k]).stage == UploadingThumbnail
  }

  predicate PreviewAccepted(replies: seq<Reply>, k: nat)
    requires k < |replies|
  {
    AcceptedAt(replies, k, UploadingPlaceholder) && replies[k].hasPreview
  }

  lemma PassesInit(replies: seq<Reply>)
    requires replies != []
    ensures PassesThumbnail(replies) <==>
              PassesThumbnail(replies[..|replies| - 1]) || After(replies).stage == UploadingThumbnail
  {
    var n := |replies| - 1;
    var init := replies[..n];
    assert replies[..|replies|] == replies;
    forall k | 0 <= k <= n ensures ThumbnailAt(init, k) == ThumbnailAt(replies, k) {
      assert init[..k] == replies[..k];
    }
    if After(replies).stage == UploadingThumbnail { assert ThumbnailAt(replies, |replies|); }
    if PassesThumbnail(init) {
      var k :| 0 <= k <= n && ThumbnailAt(init, k);
      assert ThumbnailAt(replies, k);
    }
  }

  lemma PreviewInit(replies: seq<Reply>)
    requires replies != []
    ensures (exists k :: 0 <= k < |replies| && PreviewAccepted(replies, k)) <==>
              var n := |replies| - 1;
              (exists k :: 0 <= k < n && PreviewAccepted(replies[..n], k)) || PreviewAccepted(replies, n)
  {
    var n := |replies| - 1;
    forall k | 0 <= k < n ensures PreviewAccepted(replies[..n], k) == PreviewAccepted(replies, k) {
      assert replies[..n][..k] == replies[..k];
    }
  }

  /** A run passes through the thumbnail stage exactly when its accepted placeholder had a preview. */
  lemma {:induction false} ThumbnailIff(replies: seq<Reply>)
    ensures PassesThumbnail(replies) <==> exists k :: 0 <= k < |replies| && PreviewAccepted(replies, k)
  {
    if replies == [] {
      assert !ThumbnailAt(replies, 0);
    } else {
      var n := |replies| - 1;
      ThumbnailIff(replies[..n]);
      PassesInit(replies);
      PreviewInit(replies);
      NextStage(replies[..n], replies[n]);
      DueIffModified(replies[..n]);
      assert replies == replies[..n] + [replies[n]];
      assert replies[..n][..n] == replies[..n];
      if After(replies[..n]).stage == UploadingThumbnail { assert ThumbnailAt(replies[..n], n); }
    }
  }

  /** The upload is done, delivered and available exactly when a full-asset request was accepted. */
  lemma {:induction false} DoneIffFullAssetAccepted(replies: seq<Reply>)
    ensures After(replies).stage == Done <==>
              exists k :: 0 <= k < |replies| && AcceptedAt(replies, k, UploadingFullAsset)
    ensures After(replies).stage == Done <==> After(replies).delivered
    ensures After(replies).stage == Done <==> After(replies).transfer == Downloaded
  {
    RunKeepsInv(replies);
    if replies != [] {
      var n := |replies| - 1;
      RunKeepsInv(replies[..n]);
      DoneIffFullAssetAccepted(replies[..n]);
      AcceptedInit(replies, UploadingFullAsset);
    }
  }

  /** What was accepted in a longer run was accepted earlier, or by its last reply. */
  lemma AcceptedInit(replies: seq<Reply>, stage: UploadState)
    requires replies != []
    ensures (exists k :: 0 <= k < |replies| && AcceptedAt(replies, k, stage)) <==>
              var n := |replies| - 1;
              (exists k :: 0 <= k < n && AcceptedAt(replies[..n], k, stage)) || AcceptedAt(replies, n, stage)
  {
    var n := |replies| - 1;
    forall k | 0 <= k < n ensures AcceptedAt(replies[..n], k, stage) == AcceptedAt(replies, k, stage) {
      assert replies[..n][..k] == replies[..k];
    }
  }

  /** A stage past the placeholder was reached only by an accepted placeholder. */
  lemma {:induction false} PlaceholderAcceptedFirst(replies: seq<Reply>)
    requires var u := After(replies);
             u.stage in {UploadingThumbnail, UploadingFullAsset, Done} || (u.stage == UploadingFailed && u.dirty)
    ensures exists k :: 0 <= k < |replies| && AcceptedAt(replies, k, UploadingPlaceholder)
  {
    var n := |replies| - 1;
    RunKeepsInv(replies[..n]);
    AcceptedInit(replies, UploadingPlaceholder);
    var before := After(replies[..n]);
    if before.stage == UploadingPlaceholder {
      assert AcceptedAt(replies, n, UploadingPlaceholder);
    } else {
      PlaceholderAcceptedFirst(replies[..n]);
    }
  }

  /** A failure the recipients have to hear of: past the placeholder, and not by expiry. */
  predicate FailsOpenly(replies: seq<Reply>, k: nat)
    requires k < |replies|
  {
    && After(replies[..k]).stage in {UploadingThumbnail, UploadingFullAsset}
    && (|| replies[k].result in {TemporaryError, TryAgainLater}
        || (replies[k].result == PermanentError && !replies[k].missingClients))
  }

  /** A reply that leaves the not-uploaded request to be repeated. */
  predicate LeavesPending(reply: Reply) {
    reply.result in {TemporaryError, TryAgainLater} || (reply.result == PermanentError && reply.missingClients)
  }

  ghost predicate NotUploadedPendingSince(replies: seq<Reply>, k: nat)
    requires k < |replies|
  {
    FailsOpenly(replies, k) && forall j :: k < j < |replies| ==> LeavesPending(replies[j])
  }

  /** A not-uploaded request is pending exactly when the thumbnail or the full asset failed other than by
      expiry and every later reply left the request to be repeated. */
  lemma {:induction false} NotUploadedPendingIff(replies: seq<Reply>)
    ensures After(replies).stage == UploadingFailed && After(replies).dirty <==>
              exists k :: 0 <= k < |replies| && NotUploadedPendingSince(replies, k)
  {
    if replies != [] {
      var n := |replies| - 1;
      RunKeepsInv(replies[..n]);
      NotUploadedPendingIff(replies[..n]);
      PendingInit(replies);
    }
  }

  lemma PendingInit(replies: seq<Reply>)
    requires replies != []
    ensures (exists k :: 0 <= k < |replies| && NotUploadedPendingSince(replies, k)) <==>
              var n := |replies| - 1;
              || ((exists k :: 0 <= k < n && NotUploadedPendingSince(replies[..n], k)) && LeavesPending(replies[n]))
              || FailsOpenly(replies, n)
  {
    var n := |replies| - 1;
    forall k | 0 <= k < n
      ensures NotUploadedPendingSince(replies, k) <==>
                NotUploadedPendingSince(replies[..n], k) && LeavesPending(replies[n])
    {
      assert replies[..n][..k] == replies[..k];
      assert forall j :: 0 <= j < n ==> replies[..n][j] == replies[j];
    }
    if FailsOpenly(replies, n) { assert NotUploadedPendingSince(replies, n); }
  }

  /** A retry for missing clients changes nothing and leaves the request due. */
  lemma {:induction false} MissingClientsRetry(replies: seq<Reply>, reply: Reply)
    requires RequestDue(After(replies)) && reply.result == PermanentError && reply.missingClients
    ensures After(replies + [reply]) == After(replies)
  {
  }
}
