/** Which earlier message a message has to wait for, and the order messages go out in
    (Source/Synchronization/ZMMessage+Dependency.swift).

    Times are seconds. A conversation is its ordered messages.
 */
module MessageOrder {
  import opened Options

  /** An asset blocks only until its placeholder is uploaded. */
  datatype Kind = Plain | Asset(uploadingPlaceholder: bool)

  datatype Message = Message(objectId: int, nonce: Option<int>, serverTimestamp: Option<real>,
                             pending: bool, expired: bool,
                             kind: Kind)

  const MAX_DELAY := 180.0

  predicate ShouldBlockFurtherMessages(m: Message) {
    m.pending && !m.expired && (m.kind.Asset? ==> m.kind.uploadingPlaceholder)
  }

  predicate IsSame(self: Message, m: Message) {
    m.objectId == self.objectId || m.nonce == self.nonce
  }

  predicate TooOld(self: Message, m: Message) {
    self.serverTimestamp.Some? && m.serverTimestamp.Some?
        && self.serverTimestamp.value - m.serverTimestamp.value > MAX_DELAY
  }

  // ----- The backward scan

  /** The sender, or a message with its nonce, stands at `i` or later. */
  ghost predicate FoundFrom(messages: seq<Message>, self: Message, i: int) {
    exists k :: && 0 <= k < |messages| && i <= k
                && (messages[k].objectId == self.objectId || messages[k].nonce == self.nonce)
  }

  /** No message at `i` or later is known to be more than three minutes older than the sender. */
  ghost predicate NoneTooOldFrom(messages: seq<Message>, self: Message, i: int) {
    forall k :: 0 <= k < |messages| && i <= k && self.serverTimestamp.Some? && messages[k].serverTimestamp.Some? ==>
                  self.serverTimestamp.value - messages[k].serverTimestamp.value <= 180.0
  }

  /** A message that is to be sent and has not expired, and for an asset only as long as its placeholder is. */
  ghost predicate Blocks(m: Message) {
    m.pending && !m.expired && m.kind != Asset(false)
  }

  /** A blocking message before the sender, with it and everything after it at most three minutes older. */
  ghost predicate Holds(messages: seq<Message>, self: Message, j: int) {
    && 0 <= j < |messages| && Blocks(messages[j])
    && messages[j].objectId != self.objectId && messages[j].nonce != self.nonce
    && FoundFrom(messages, self, j + 1) && NoneTooOldFrom(messages, self, j)
  }

  /** The scan returns the last message that holds the sender back. */
  method BlockingMessage(messages: seq<Message>, self: Message) returns (blocking: Option<nat>)
    ensures blocking.Some? ==> Holds(messages, self, blocking.value)
    ensures forall j :: Holds(messages, self, j) ==> blocking.Some? && j <= blocking.value
  {
    blocking := None;
    var selfMessageFound := false;
    var i := |messages|;
    while i > 0
      invariant 0 <= i <= |messages|
      invariant selfMessageFound <==> FoundFrom(messages, self, i)
      invariant NoneTooOldFrom(messages, self, i)
      invariant forall j :: j >= i ==> !Holds(messages, self, j)
    {
      i := i - 1;
      var previousMessage := messages[i];
      if TooOld(self, previousMessage) {
        assert forall j :: j <= i ==> !NoneTooOldFrom(messages, self, j);
        return None;
      }
      var sameMessage := IsSame(self, previousMessage);
      if sameMessage {
        selfMessageFound := true;
      }
      if selfMessageFound && !sameMessage && ShouldBlockFurtherMessages(previousMessage) {
        assert Holds(messages, self, i);
        return Some(i);
      }
    }
  }

  datatype Dependency = Nothing | Conversation | Blocking(index: nat)

  /** A conversation unknown to the backend comes first, then the blocking message. */
  method DependendObject(conversation: Option<seq<Message>>, hasRemoteIdentifier: bool, self: Message)
    returns (r: Dependency)
    ensures r == Nothing <==>
              conversation.None? || (hasRemoteIdentifier && forall j :: !Holds(conversation.value, self, j))
    ensures r == Conversation <==> conversation.Some? && !hasRemoteIdentifier
    ensures r.Blocking? ==> Holds(conversation.value, self, r.index)
    ensures r.Blocking? ==> forall j :: Holds(conversation.value, self, j) ==> j <= r.index
  {
    if conversation.None? {
      return Nothing;
    }
    if !hasRemoteIdentifier {
      return Conversation;
    }
    var blocking := BlockingMessage(conversation.value, self);
    r := if blocking.Some? then Blocking(blocking.value) else Nothing;
  }

  // ----- The simple form, in a sorted conversation

  ghost predicate Distinct(messages: seq<Message>) {
    forall i, j :: 0 <= i < j < |messages| ==>
                     messages[i].objectId != messages[j].objectId && messages[i].nonce != messages[j].nonce
  }

  ghost predicate Sorted(messages: seq<Message>) {
    && (forall i :: 0 <= i < |messages| ==> messages[i].serverTimestamp.Some?)
    && (forall i, j :: 0 <= i < j < |messages| ==>
        messages[i].serverTimestamp.value <= messages[j].serverTimestamp.value)
  }

  ghost predicate Within(messages: seq<Message>, j: int, i: int)
    requires 0 <= j < |messages| && 0 <= i < |messages| && Sorted(messages)
  {
    messages[i].serverTimestamp.value - messages[j].serverTimestamp.value <= 180.0
  }

  /** Exactly the blocking messages before the sender within three minutes hold it back. */
  lemma HoldsWhenSorted(messages: seq<Message>, i: nat, j: int)
    requires Distinct(messages) && Sorted(messages) && i < |messages|
    ensures Holds(messages, messages[i], j) <==>
              && 0 <= j < i && Within(messages, j, i) && messages[j].pending && !messages[j].expired
              && (messages[j].kind == Plain || messages[j].kind == Asset(true))
  {
  }

  /** The same for a sender that is found in the conversation only by its nonce, as another object. */
  lemma HoldsForCopy(messages: seq<Message>, self: Message, i: nat, j: int)
    requires Distinct(messages) && Sorted(messages) && i < |messages|
    requires self.nonce == messages[i].nonce && self.serverTimestamp == messages[i].serverTimestamp
    requires forall k :: 0 <= k < |messages| ==> messages[k].objectId != self.objectId
    ensures Holds(messages, self, j) <==>
              && 0 <= j < i && Within(messages, j, i) && messages[j].pending && !messages[j].expired
              && (messages[j].kind == Plain || messages[j].kind == Asset(true))
  {
  }

  /** No deadlock: the first message that is pending and not expired is held back by nothing. */
  lemma FirstPendingIsFree(messages: seq<Message>, i: nat)
    requires Distinct(messages) && i < |messages|
    requires forall k :: 0 <= k < i ==> !(messages[k].pending && !messages[k].expired)
    ensures forall j :: !Holds(messages, messages[i], j)
  {
  }

  // ----- Whole runs

  /** `started` are the messages whose upload has begun, `sent` the delivered ones in order of delivery. */
  datatype State = State(messages: seq<Message>, started: set<nat>, sent: seq<nat>)

  datatype Step =
    | Append(message: Message)
    | Begin(i: nat)
    | Deliver(i: nat)
    | Expire(i: nat)
    | PlaceholderUploaded(i: nat)

  predicate Waits(s: State, i: nat) {
    i < |s.messages| && s.messages[i].pending && !s.messages[i].expired
  }

  /** New messages go to the end with a later time; an upload begins only without a blocking message;
      only a message under way and not expired is delivered. */
  ghost predicate Enabled(s: State, step: Step) {
    match step
    case Append(m) =>
      && m.serverTimestamp.Some?
      && Sorted(s.messages + [m]) && Distinct(s.messages + [m])
    case Begin(i) => Waits(s, i) && i !in s.started && forall j :: !Holds(s.messages, s.messages[i], j)
    case Deliver(i) => Waits(s, i) && i in s.started
    case Expire(i) => Waits(s, i)
    case PlaceholderUploaded(i) => Waits(s, i) && s.messages[i].kind.Asset?
  }

  function Next(s: State, step: Step): State
    requires step.Append? || step.i < |s.messages|
  {
    match step
    case Append(m) => s.(messages := s.messages + [m])
    case Begin(i) => s.(started := s.started + {i})
    case Deliver(i) => s.(messages := s.messages[i := s.messages[i].(pending := false)], sent := s.sent + [i])
    case Expire(i) => s.(messages := s.messages[i := s.messages[i].(expired := true)])
    case PlaceholderUploaded(i) => s.(messages := s.messages[i := s.messages[i].(kind := Asset(false))])
  }

  const EMPTY := State([], {}, [])

  ghost predicate Reachable(trace: seq<State>, steps: seq<Step>) {
    && |trace| == |steps| + 1 && trace[0] == EMPTY
    && forall n :: 0 <= n < |steps| ==> Follows(trace[n], steps[n], trace[n + 1])
  }

  ghost predicate Follows(s: State, step: Step, s': State) {
    Enabled(s, step) && s' == Next(s, step)
  }

  /** `a` comes before `b` in the conversation, within three minutes. */
  ghost predicate Precedes(messages: seq<Message>, a: nat, b: nat)
    requires Sorted(messages)
  {
    a < b < |messages| && Within(messages, a, b)
  }

  /** A plain message blocks until it is delivered or expires, so it has to go out first. */
  ghost predicate MustPrecede(messages: seq<Message>, a: nat, b: nat)
    requires Sorted(messages)
  {
    Precedes(messages, a, b) && messages[a].kind.Plain?
  }

  ghost predicate Inv(s: State) {
    && Sorted(s.messages) && Distinct(s.messages)
    && (forall i :: i in s.started ==> i < |s.messages|)
    && (forall p :: 0 <= p < |s.sent| ==> s.sent[p] in s.started && !s.messages[s.sent[p]].pending)
    && (forall a: nat, b: nat :: b in s.started && Precedes(s.messages, a, b) ==>
        !Blocks(s.messages[a]))
    && (forall p, q :: 0 <= p < q < |s.sent| ==> !MustPrecede(s.messages, s.sent[q], s.sent[p]))
  }

  lemma AppendKeepsInv(s: State, m: Message)
    requires Inv(s) && Enabled(s, Append(m))
    ensures Inv(Next(s, Append(m)))
  {
  }

  lemma BeginKeepsInv(s: State, i: nat)
    requires Inv(s) && Enabled(s, Begin(i))
    ensures Inv(Next(s, Begin(i)))
  {
    var s' := Next(s, Begin(i));
    forall a: nat, b: nat | b in s'.started && Precedes(s'.messages, a, b)
        ensures !Blocks(s'.messages[a]) {
      if b == i {
        HoldsWhenSorted(s.messages, i, a);
      } else {
        assert Precedes(s.messages, a, b);
      }
    }
  }

  /** A step that changes one message in place, keeping its time, identity and plainness, and never
      makes it block again. */
  ghost predicate Settles(s: State, s': State, i: nat) {
    && i < |s.messages| && |s'.messages| == |s.messages|
    && (forall k :: 0 <= k < |s.messages| && k != i ==> s'.messages[k] == s.messages[k])
    && s'.messages[i].serverTimestamp == s.messages[i].serverTimestamp
    && s'.messages[i].objectId == s.messages[i].objectId && s'.messages[i].nonce == s.messages[i].nonce
    && s'.messages[i].kind.Plain? == s.messages[i].kind.Plain?
    && (Blocks(s'.messages[i]) ==> Blocks(s.messages[i]))
    && s'.started == s.started
  }

  lemma SettlingKeepsOrder(s: State, s': State, i: nat)
    requires Sorted(s.messages) && Distinct(s.messages) && Settles(s, s', i)
    ensures Sorted(s'.messages) && Distinct(s'.messages)
    ensures forall a: nat, b: nat :: Precedes(s'.messages, a, b) <==> Precedes(s.messages, a, b)
    ensures forall a: nat, b: nat :: MustPrecede(s'.messages, a, b) <==> MustPrecede(s.messages, a, b)
  {
  }

  lemma SettlingKeepsInv(s: State, step: Step)
    requires Inv(s) && Enabled(s, step) && (step.Expire? || step.PlaceholderUploaded?)
    ensures Inv(Next(s, step))
  {
    SettlingKeepsOrder(s, Next(s, step), step.i);
  }

  lemma DeliverKeepsInv(s: State, i: nat)
    requires Inv(s) && Enabled(s, Deliver(i))
    ensures Inv(Next(s, Deliver(i)))
  {
    var s' := Next(s, Deliver(i));
    SettlingKeepsOrder(s, s', i);
    forall p, q | 0 <= p < q < |s'.sent| ensures !MustPrecede(s'.messages, s'.sent[q], s'.sent[p]) {
      if q < |s.sent| {
        assert !MustPrecede(s.messages, s.sent[q], s.sent[p]);
      } else {
        assert s.sent[p] in s.started && Waits(s, i);
      }
    }
  }

  lemma StepKeepsInv(s: State, step: Step)
    requires Inv(s) && Enabled(s, step)
    ensures Inv(Next(s, step))
  {
    match step {
      case Append(m) => AppendKeepsInv(s, m);
      case Begin(i) => BeginKeepsInv(s, i);
      case Deliver(i) => DeliverKeepsInv(s, i);
      case _ => SettlingKeepsInv(s, step);
    }
  }

  lemma {:induction false} RunKeepsInv(trace: seq<State>, steps: seq<Step>, n: nat)
    requires Reachable(trace, steps) && n < |trace|
    ensures Inv(trace[n])
    decreases n
  {
    if n > 0 {
      RunKeepsInv(trace, steps, n - 1);
      assert Follows(trace[n - 1], steps[n - 1], trace[n]);
      StepKeepsInv(trace[n - 1], steps[n - 1]);
    }
  }

  /** Over every run, no message is under way or sent while an earlier one within three minutes blocks. */
  lemma {:induction false} NothingOvertakesABlocker(trace: seq<State>, steps: seq<Step>, n: nat)
    requires Reachable(trace, steps) && n < |trace|
    ensures var s := trace[n];
            && Sorted(s.messages) && (forall p :: 0 <= p < |s.sent| ==> s.sent[p] in s.started)
            && forall a: nat, b: nat :: b in s.started && Precedes(s.messages, a, b) ==>
                !Blocks(s.messages[a])
  {
    RunKeepsInv(trace, steps, n);
  }

  /** Over every run, of two messages within three minutes that were both delivered, a plain one that comes
      first in the conversation was delivered first. */
  lemma {:induction false} DeliveredInOrder(trace: seq<State>, steps: seq<Step>, n: nat)
    requires Reachable(trace, steps) && n < |trace|
    ensures var s := trace[n];
            && Sorted(s.messages)
            && forall p, q :: 0 <= p < |s.sent| && 0 <= q < |s.sent| ==>
                 MustPrecede(s.messages, s.sent[p], s.sent[q]) ==> p < q
  {
    RunKeepsInv(trace, steps, n);
  }

  /** Over every run, while any message waits, some waiting message is under way or may begin. */
  lemma {:induction false} NeverDeadlocked(trace: seq<State>, steps: seq<Step>, n: nat, w: nat) returns (i: nat)
    requires Reachable(trace, steps) && n < |trace| && Waits(trace[n], w)
    ensures i <= w && (Enabled(trace[n], Begin(i)) || Enabled(trace[n], Deliver(i)))
  {
    RunKeepsInv(trace, steps, n);
    var s := trace[n];
    i := 0;
    while !Waits(s, i)
      invariant i <= w && forall k :: 0 <= k < i ==> !Waits(s, k)
      decreases w - i
    {
      i := i + 1;
    }
    assert forall k :: 0 <= k < i ==> !(s.messages[k].pending && !s.messages[k].expired) by {
      forall k | 0 <= k < i ensures !(s.messages[k].pending && !s.messages[k].expired) { assert !Waits(s, k); }
    }
    FirstPendingIsFree(s.messages, i);
  }
}
