/** Folding call events into one notification
    (Source/Notifications/Push notifications/ZMLocalNotificationForCallEvent.swift).

    A note is copied for every event it accepts; a refused event leaves the note as it was, so the chain
    of notes is the fold of its events. Whether the base class permits a notification is part of the event.
 */
module CallNotification {
  import opened Options

  type Uuid = string
  type Session = string

  datatype CallType = IncomingCall | IncomingVideoCall | CallEnded | SelfUserJoined | OtherCall

  datatype CallEvent = CallEvent(kind: CallType, session: Session, sender: Option<Uuid>, permitted: bool)

  /** The last session with the sender who started it: a dictionary with at most one entry in the source. */
  datatype Current = Current(session: Session, sender: Uuid)

  datatype Fold = Fold(callType: Option<CallType>, started: map<Uuid, nat>, current: Option<Current>,
                       joined: Option<Session>)

  const UNKNOWN_UUID: Uuid := "cc6515c4-6d3e-48c2-b09d-43a6130c9333"

  const FRESH := Fold(None, map[], None, None)

  predicate IsStart(kind: CallType) {
    kind == IncomingCall || kind == IncomingVideoCall
  }

  function SenderId(e: CallEvent): Uuid {
    if e.sender.Some? then e.sender.value else UNKNOWN_UUID
  }

  predicate ShouldAccept(f: Fold, e: CallEvent) {
    !(&& f.current.Some? && f.current.value.session == e.session
      && f.callType.Some? && (f.callType.value == e.kind || IsStart(e.kind)))
  }

  function Count(started: map<Uuid, nat>, u: Uuid): nat {
    if u in started then started[u] else 0
  }

  /** The note configured for an event, or nothing if the event is refused. */
  function Configured(f: Fold, e: CallEvent): Option<Fold> {
    match e.kind
    case IncomingCall | IncomingVideoCall =>
      var id := SenderId(e);
      Some(f.(callType := Some(e.kind), current := Some(Current(e.session, id)),
              started := f.started[id := Count(f.started, id) + 1]))
    case CallEnded =>
      if f.joined == Some(e.session) || f.current.None? then None
      else Some(f.(callType := Some(CallEnded),
          current := if f.current.value.session == e.session then f.current else None))
    case SelfUserJoined =>
      Some(f.(callType := Some(SelfUserJoined), started := map[], joined := Some(e.session)))
    case OtherCall => None
  }

  function Added(f: Fold, e: CallEvent): Option<Fold> {
    if e.permitted && ShouldAccept(f, e) then Configured(f, e) else None
  }

  /** Building the text of a missed call unwraps the first caller of an empty table. */
  predicate TextTraps(f: Fold) {
    f.callType == Some(CallEnded) && KnownCaller(f) && f.started.Keys == {}
  }

  /** The current session was started by a known user. */
  predicate KnownCaller(f: Fold) {
    f.current.Some? && f.current.value.sender != UNKNOWN_UUID
  }

  // ----- The note

  /** The text of a notification: the caller it names, if any, and the number of missed calls. */
  datatype Alert =
    | Trap
    | Starts(video: bool, caller: Option<Uuid>)
    | Missed(count: nat, caller: Option<Uuid>)
    | NoText

  class ZMLocalNotificationForCallEvent {
    var currentCallType: Option<CallType>
    var callStartedEventsByUser: map<Uuid, nat>
    var lastSessionIDToSenderID: Option<Current>
    var lastJoinedSessionID: Option<Session>

    ghost function State(): Fold
      reads this
    {
      Fold(currentCallType, callStartedEventsByUser, lastSessionIDToSenderID, lastJoinedSessionID)
    }

    constructor ()
      ensures State() == FRESH
    {
      currentCallType, callStartedEventsByUser, lastSessionIDToSenderID, lastJoinedSessionID := None, map[], None, None;
    }

    method PrepareForCopy(note: ZMLocalNotificationForCallEvent)
      modifies this
      ensures State() == old(note.State())
    {
      lastSessionIDToSenderID := note.lastSessionIDToSenderID;
      lastJoinedSessionID := note.lastJoinedSessionID;
      callStartedEventsByUser := note.callStartedEventsByUser;
      currentCallType := note.currentCallType;
    }

    method CanCreateNotification(e: CallEvent) returns (accepted: bool)
      modifies this
      ensures accepted == Added(old(State()), e).Some?
      ensures State() == if accepted then Added(old(State()), e).value else old(State())
    {
      if !e.permitted || e.kind == OtherCall {
        return false;
      }
      var isSameSession := lastSessionIDToSenderID.Some? && lastSessionIDToSenderID.value.session == e.session;
      if isSameSession && currentCallType.Some? && (currentCallType.value == e.kind || IsStart(e.kind)) {
        return false;
      }
      accepted := Configure(e.kind, e.session, SenderId(e));
    }

    method Configure(callType: CallType, session: Session, senderID: Uuid) returns (accepted: bool)
      modifies this
      ensures var r := Configured(old(State()), CallEvent(callType, session, Some(senderID), true));
              accepted == r.Some? && State() == if accepted then r.value else old(State())
    {
      match callType {
        case IncomingCall | IncomingVideoCall =>
          currentCallType := Some(callType);
          lastSessionIDToSenderID := Some(Current(session, senderID));
          callStartedEventsByUser := callStartedEventsByUser[senderID := Count(callStartedEventsByUser, senderID) + 1];
          return true;
        case CallEnded =>
          if lastJoinedSessionID == Some(session) {
            return false;
          }
          if lastSessionIDToSenderID.None? {
            return false;
          }
          if lastSessionIDToSenderID.value.session != session {
            lastSessionIDToSenderID := None;
          }
          currentCallType := Some(callType);
          return true;
        case SelfUserJoined =>
          lastJoinedSessionID := Some(session);
          callStartedEventsByUser := map[];
          currentCallType := Some(callType);
          return true;
        case OtherCall =>
          return false;
      }
    }

    /** `configureAlertBody`, up to the wording: which call from whom, or how many were missed. */
    method ConfigureAlertBody(isGroup: bool, sender: Option<Uuid>) returns (alert: Alert)
      requires currentCallType.Some?
      ensures alert == Trap <==> TextTraps(State())
      ensures alert.NoText? <==> currentCallType.value != CallEnded && !IsStart(currentCallType.value)
      ensures IsStart(currentCallType.value) ==> alert == Starts(currentCallType.value == IncomingVideoCall, sender)
      ensures alert.Missed? ==>
                (alert.caller.Some? <==> KnownCaller(State()) && (isGroup ==> |callStartedEventsByUser| == 1))
      ensures alert.Missed? && alert.caller.Some? ==>
                && alert.caller.value in callStartedEventsByUser
                && alert.count == callStartedEventsByUser[alert.caller.value]
      ensures alert.Missed? && isGroup ==> alert.count == GroupCount(callStartedEventsByUser)
      ensures alert.Missed? && !isGroup ==>
                if callStartedEventsByUser.Keys == {} then alert.count == 1
                else alert.count in callStartedEventsByUser.Values
    {
      match currentCallType.value {
        case IncomingCall => return Starts(false, sender);
        case IncomingVideoCall => return Starts(true, sender);
        case CallEnded =>
          var known := lastSessionIDToSenderID.Some? && lastSessionIDToSenderID.value.sender != UNKNOWN_UUID;
          if callStartedEventsByUser.Keys == {} {
            return if known then Trap else Missed(1, None);
          }
          var first :| first in callStartedEventsByUser.Keys;
          var caller := if known then Some(first) else None;
          if isGroup {
            if |callStartedEventsByUser| == 1 {
              TotalOfOne(callStartedEventsByUser, first);
              return Missed(callStartedEventsByUser[first], caller);
            }
            var count := Sum(callStartedEventsByUser);
            return Missed(if count > 0 then count else 1, None);
          }
          return Missed(callStartedEventsByUser[first], caller);
        case _ => return NoText;
      }
    }
  }

  // ----- The sum of a table

  ghost function Pick(m: map<Uuid, nat>): (u: Uuid)
    requires m.Keys != {}
    ensures u in m
  {
    var u :| u in m.Keys; u
  }

  ghost function Total(m: map<Uuid, nat>): nat
    decreases |m|
  {
    if m.Keys == {} then 0 else m[Pick(m)] + Total(m - {Pick(m)})
  }

  lemma {:induction false} TotalWithout(m: map<Uuid, nat>, u: Uuid)
    requires u in m
    ensures Total(m) == m[u] + Total(m - {u})
    decreases |m|
  {
    var v := Pick(m);
    if u != v {
      TotalWithout(m - {v}, u);
      TotalWithout(m - {u}, v);
      assert m - {v} - {u} == m - {u} - {v};
    }
  }

  lemma TotalUpdate(m: map<Uuid, nat>, u: Uuid, n: nat)
    ensures Total(m[u := n]) + Count(m, u) == Total(m) + n
  {
    TotalWithout(m[u := n], u);
    if u in m {
      TotalWithout(m, u);
      assert m[u := n] - {u} == m - {u};
    } else {
      assert m[u := n] - {u} == m;
    }
  }

  lemma TotalOfOne(m: map<Uuid, nat>, u: Uuid)
    requires |m| == 1 && u in m
    ensures Total(m) == m[u]
  {
    TotalWithout(m, u);
    assert |m.Keys - {u}| == 0;
    assert (m - {u}).Keys == {};
  }

  /** The number a group's missed call text names. */
  ghost function GroupCount(started: map<Uuid, nat>): nat {
    if |started| == 1 || Total(started) > 0 then Total(started) else 1
  }

  method Sum(m: map<Uuid, nat>) returns (total: nat)
    ensures total == Total(m)
  {
    total := 0;
    var rest := m;
    while rest.Keys != {}
      invariant total + Total(rest) == Total(m)
      decreases |rest|
    {
      var u :| u in rest.Keys;
      TotalWithout(rest, u);
      total := total + rest[u];
      rest := rest - {u};
    }
  }

  // ----- Whole event sequences

  function After(events: seq<CallEvent>): Fold {
    if events == [] then FRESH
    else
      var f := After(events[..|events| - 1]);
      var r := Added(f, events[|events| - 1]);
      if r.Some? then r.value else f
  }

  predicate AcceptedAt(events: seq<CallEvent>, k: nat)
    requires k < |events|
  {
    Added(After(events[..k]), events[k]).Some?
  }

  /** Which events are accepted: not one that repeats the current session's state or starts it again, and the end of a
      call only if there is a current session and the user has not joined the one that ended. */
  lemma AcceptedIff(f: Fold, e: CallEvent)
    ensures Added(f, e).Some? <==>
              && e.permitted && e.kind != OtherCall
              && !(&& f.current.Some? && f.current.value.session == e.session && f.callType.Some?
                   && (f.callType == Some(e.kind) || e.kind in {IncomingCall, IncomingVideoCall}))
              && (e.kind == CallEnded ==> f.current.Some? && f.joined != Some(e.session))
  {
  }

  /** What an accepted event leaves behind. */
  lemma AcceptedEffect(f: Fold, e: CallEvent)
    requires Added(f, e).Some?
    ensures var f', sender := Added(f, e).value, if e.sender.Some? then e.sender.value else UNKNOWN_UUID;
            && f'.callType == Some(e.kind)
            && f'.joined == (if e.kind == SelfUserJoined then Some(e.session) else f.joined)
            && (e.kind in {IncomingCall, IncomingVideoCall} ==>
                  && f'.current == Some(Current(e.session, sender)) && f'.started.Keys == f.started.Keys + {sender}
                  && f'.started[sender] == (if sender in f.started then f.started[sender] else 0) + 1
                  && forall u :: u in f.started && u != sender ==> f'.started[u] == f.started[u])
            && (e.kind == CallEnded ==>
                  && f'.started == f.started
                  && f'.current == if f.current.value.session == e.session then f.current else None)
            && (e.kind == SelfUserJoined ==> f'.started == map[] && f'.current == f.current)
  {
  }

  // ----- Where the state of a sequence comes from

  /** The last accepted event, of a kind if one is given. */
  function LastAccepted(events: seq<CallEvent>, kind: Option<CallType>): Option<CallEvent> {
    if events == [] then None
    else
      var n := |events| - 1;
      if AcceptedAt(events, n) && (kind.None? || kind == Some(events[n].kind)) then Some(events[n])
      else LastAccepted(events[..n], kind)
  }

  /** The call type is that of the last accepted event, and the joined session that of the last accepted join. */
  lemma {:induction false} StateIsLatest(events: seq<CallEvent>)
    ensures var last := LastAccepted(events, None);
            After(events).callType == if last.Some? then Some(last.value.kind) else None
    ensures var join := LastAccepted(events, Some(SelfUserJoined));
            After(events).joined == if join.Some? then Some(join.value.session) else None
  {
    if events != [] {
      var n := |events| - 1;
      StateIsLatest(events[..n]);
      if AcceptedAt(events, n) { AcceptedEffect(After(events[..n]), events[n]); }
    }
  }

  /** The accepted call starts since the last accepted join; of one user if a user is given. */
  function StartsSinceJoin(events: seq<CallEvent>, user: Option<Uuid>): nat {
    if events == [] then 0
    else
      var n := |events| - 1;
      var before := StartsSinceJoin(events[..n], user);
      if !AcceptedAt(events, n) then before
      else if events[n].kind == SelfUserJoined then 0
      else if IsStart(events[n].kind) && (user.None? || user == Some(SenderId(events[n]))) then before + 1
      else before
  }

  /** The table counts for each user the starts accepted since the last accepted join, and sums up to all of them. */
  lemma {:induction false} TableCountsStarts(events: seq<CallEvent>, u: Uuid)
    ensures Count(After(events).started, u) == StartsSinceJoin(events, Some(u))
    ensures u in After(events).started ==> After(events).started[u] > 0
    ensures Total(After(events).started) == StartsSinceJoin(events, None)
  {
    if events != [] {
      var n := |events| - 1;
      TableCountsStarts(events[..n], u);
      var f, e := After(events[..n]), events[n];
      if AcceptedAt(events, n) && IsStart(e.kind) {
        TotalUpdate(f.started, SenderId(e), Count(f.started, SenderId(e)) + 1);
      }
    }
  }

  /** A group is told of every call accepted since the last accepted join, and of one if there was none. */
  lemma {:induction false} GroupTextCountsStarts(events: seq<CallEvent>)
    ensures GroupCount(After(events).started)
              == if StartsSinceJoin(events, None) == 0 then 1 else StartsSinceJoin(events, None)
  {
    var started := After(events).started;
    TableCountsStarts(events, UNKNOWN_UUID);
    if |started| == 1 {
      assert started.Keys != {};
      var u :| u in started.Keys;
      TotalOfOne(started, u);
      TableCountsStarts(events, u);
    }
  }

  /** A start is counted exactly when it does not belong to the current session: redelivery changes nothing. */
  lemma {:induction false} StartAcceptedIff(events: seq<CallEvent>, e: CallEvent)
    requires IsStart(e.kind)
    ensures Added(After(events), e).Some? <==>
              e.permitted && (After(events).current.None? || After(events).current.value.session != e.session)
  {
    CurrentHasType(events);
  }

  lemma {:induction false} CurrentHasType(events: seq<CallEvent>)
    ensures After(events).current.Some? ==> After(events).callType.Some?
  {
    if events != [] { CurrentHasType(events[..|events| - 1]); }
  }

  /** No text built along the way traps. */
  predicate NeverTraps(events: seq<CallEvent>) {
    events == [] || (NeverTraps(events[..|events| - 1])
        && !TrapsNext(After(events[..|events| - 1]), events[|events| - 1]))
  }

  predicate TrapsNext(f: Fold, e: CallEvent) {
    Added(f, e).Some? && TextTraps(Added(f, e).value)
  }

  /** Every accepted join names the current session, if there is one. */
  predicate JoinsNameCurrentSession(events: seq<CallEvent>) {
    events == [] ||
    (var n := |events| - 1;
     && JoinsNameCurrentSession(events[..n])
     && (AcceptedAt(events, n) && events[n].kind == SelfUserJoined ==> NamesCurrent(After(events[..n]), events[n])))
  }

  predicate NamesCurrent(f: Fold, e: CallEvent) {
    f.current.None? || f.current.value.session == e.session
  }

  /** An empty table belongs to a session the user has joined. */
  predicate Safe(f: Fold) {
    f.started.Keys == {} ==> f.current.None? || f.joined == Some(f.current.value.session)
  }

  lemma SafeStep(f: Fold, e: CallEvent)
    requires Safe(f) && Added(f, e).Some? && (e.kind == SelfUserJoined ==> NamesCurrent(f, e))
    ensures Safe(Added(f, e).value) && !TextTraps(Added(f, e).value)
  {
    if IsStart(e.kind) {
      assert SenderId(e) in Added(f, e).value.started.Keys;
    }
  }

  /** As long as joins name the current session, the forced unwrap never meets an empty table. */
  lemma {:induction false} MatchingJoinsNeverTrap(events: seq<CallEvent>)
    requires JoinsNameCurrentSession(events)
    ensures Safe(After(events)) && NeverTraps(events)
  {
    if events != [] {
      var n := |events| - 1;
      MatchingJoinsNeverTrap(events[..n]);
      if AcceptedAt(events, n) { SafeStep(After(events[..n]), events[n]); }
    }
  }

  /** An accepted join is safe against every end of a call that may follow exactly when it names the current
      session or the caller of that session is not known. */
  lemma {:induction false} JoinSafeIff(events: seq<CallEvent>, join: CallEvent)
    requires join.kind == SelfUserJoined && Added(After(events), join).Some?
    ensures (forall end: CallEvent :: end.kind == CallEnded ==> !TrapsNext(Added(After(events), join).value, end))
            <==> NamesCurrent(After(events), join) || !KnownCaller(After(events))
  {
    var f, f' := After(events), Added(After(events), join).value;
    if !NamesCurrent(f, join) && KnownCaller(f) {
      var end := CallEvent(CallEnded, f.current.value.session, None, true);
      assert TrapsNext(f', end);
    }
  }

  /** The end of the current session of a known caller, which the user has not joined, after a join of another one
      has emptied the table. */
  predicate EndsUncountedCall(events: seq<CallEvent>, e: CallEvent) {
    var f := After(events);
    && e.kind == CallEnded && e.permitted && KnownCaller(f) && f.current.value.session == e.session
    && f.callType != Some(CallEnded) && f.joined != Some(e.session) && StartsSinceJoin(events, None) == 0
  }

  lemma TotalIsZero(m: map<Uuid, nat>)
    requires forall u :: u in m ==> m[u] > 0
    ensures Total(m) == 0 <==> m.Keys == {}
  {
  }

  lemma {:induction false} TableEmptyIff(events: seq<CallEvent>)
    ensures After(events).started.Keys == {} <==> StartsSinceJoin(events, None) == 0
  {
    forall u | u in After(events).started ensures After(events).started[u] > 0 {
      TableCountsStarts(events, u);
    }
    TotalIsZero(After(events).started);
    TableCountsStarts(events, UNKNOWN_UUID);
  }

  /** After every sequence of events, the text for a further event traps exactly in this case. */
  lemma {:induction false} TrapsNextIff(events: seq<CallEvent>, e: CallEvent)
    ensures TrapsNext(After(events), e) <==> EndsUncountedCall(events, e)
  {
    TableEmptyIff(events);
    CurrentHasType(events);
  }

  /** No text along a sequence of events traps exactly when none of them is such an end of a call. */
  lemma {:induction false} NeverTrapsIff(events: seq<CallEvent>)
    ensures NeverTraps(events) <==> forall k :: 0 <= k < |events| ==> !EndsUncountedCall(events[..k], events[k])
  {
    if events != [] {
      var n := |events| - 1;
      NeverTrapsIff(events[..n]);
      TrapsNextIff(events[..n], events[n]);
      forall k | 0 <= k < n
        ensures EndsUncountedCall(events[..n][..k], events[..n][k]) <==> EndsUncountedCall(events[..k], events[k])
      {
        assert events[..n][..k] == events[..k];
      }
    }
  }
}
