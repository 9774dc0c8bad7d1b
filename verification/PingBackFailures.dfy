/** What becomes of the ping-back queue when the environment does not keep to its side: a notice taken up
    without a self client, and a pending notification received again
    (Source/UserSession/BackgroundAPNSPingBackStatus.swift,
    Source/Synchronization/Strategies/PingBackRequestStrategy.swift and PushNoticeRequestStrategy.swift).
 */
module PingBackFailures {
  import opened Options
  import opened PingBack

  // ----- A queue that nothing drains any more

  /** A ping at the head under the status of a notice, with no reply to come that would refresh it. */
  predicate Wedged(s: System) {
    s.inFlight == [] && HasNotificationIDs(s.q.ids) && s.q.status == FetchingNotice
  }

  /** The same with nothing queued: the next ping wedges, the next notice does not. */
  predicate Hollow(s: System) {
    s.inFlight == [] && s.q.ids == [] && s.q.status == FetchingNotice
  }

  /** What holds of the status in every run. */
  predicate Shaped(s: System) {
    && (s.q.status == Done ==> s.q.ids == [] && !s.q.activity)
    && (s.inFlight == [] && s.q.status == Pinging ==> HasNotificationIDs(s.q.ids))
  }

  lemma ShapedStep(s: System, step: Step)
    requires Shaped(s)
    ensures Shaped(Next(s, step))
  {
    if step.Reply? && step.k < |s.inFlight| { ReplyRefreshes(s.q, s.inFlight[step.k], step); }
  }

  lemma {:induction false} RunKeepsShaped(trace: seq<System>, steps: seq<Step>, n: nat)
    requires AnyRun(trace, steps) && n < |trace|
    ensures Shaped(trace[n])
    decreases n
  {
    if n > 0 {
      RunKeepsShaped(trace, steps, n - 1);
      assert Leads(trace[n - 1], steps[n - 1], trace[n]);
      ShapedStep(trace[n - 1], steps[n - 1]);
    }
  }

  /** A status that is not sound has one of these two forms. */
  lemma SoundUnlessStranded(s: System)
    ensures StatusSound(s) <==> Shaped(s) && !Wedged(s) && !Hollow(s)
  {
  }

  /** Over every run, queued work without a reply to come has no consumer exactly when the queue is wedged. */
  lemma {:induction false} NoConsumerIffWedged(trace: seq<System>, steps: seq<Step>, n: nat)
    requires AnyRun(trace, steps) && n < |trace|
    ensures var s := trace[n];
            s.q.ids != [] && s.inFlight == [] && !PingEnabled(s.q, true) && !NoticeEnabled(s.q, true) <==> Wedged(s)
  {
    RunKeepsShaped(trace, steps, n);
  }

  /** The steps that wedge the queue: a notice dropped before a ping, and a ping received after one was dropped. */
  predicate Wedges(s: System, step: Step) {
    || (Strands(s, step) && |s.q.ids| > 1)
    || (step.Receive? && Hollow(s) && !step.e.isNotice)
  }

  lemma WedgesStep(s: System, step: Step)
    requires Shaped(s) && !Wedged(s)
    ensures Wedged(Next(s, step)) <==> Wedges(s, step)
  {
    if step.Reply? && step.k < |s.inFlight| { ReplyRefreshes(s.q, s.inFlight[step.k], step); }
  }

  /** Over every run the queue is never wedged exactly when no step wedges it. */
  lemma {:induction false} NeverWedgedIff(trace: seq<System>, steps: seq<Step>, n: nat)
    requires AnyRun(trace, steps) && n < |trace|
    ensures (forall i :: 0 <= i <= n ==> !Wedged(trace[i]))
            <==> (forall i :: 0 <= i < n ==> !Wedges(trace[i], steps[i]))
  {
    var holds := seq(|trace|, i requires 0 <= i < |trace| => !Wedged(trace[i]));
    var bad := seq(|steps|, i requires 0 <= i < |steps| => Wedges(trace[i], steps[i]));
    forall i | 0 <= i < n && holds[i] ensures bad[i] <==> !holds[i + 1] {
      RunKeepsShaped(trace, steps, i);
      assert Leads(trace[i], steps[i], trace[i + 1]);
      WedgesStep(trace[i], steps[i]);
    }
    HoldsThroughout(holds, bad, n);
    assert forall i :: 0 <= i <= n ==> holds[i] == !Wedged(trace[i]);
    assert forall i :: 0 <= i < n ==> bad[i] == Wedges(trace[i], steps[i]);
  }

  /** Nothing frees a wedged queue: no step drains it or calls a handler, and the activity is not given up. */
  lemma WedgedStep(s: System, step: Step)
    requires Wedged(s)
    ensures Wedged(Next(s, step)) && !Drains(s, step)
    ensures Next(s, step).q.calls == s.q.calls && s.q.ids <= Next(s, step).q.ids
    ensures s.q.activity ==> Next(s, step).q.activity
  {
  }

  lemma {:induction false} WedgedForGood(trace: seq<System>, steps: seq<Step>, m: nat, n: nat)
    requires AnyRun(trace, steps) && m <= n < |trace| && Wedged(trace[m])
    ensures Wedged(trace[n]) && trace[n].q.calls == trace[m].q.calls && trace[m].q.ids <= trace[n].q.ids
    ensures trace[m].q.activity ==> trace[n].q.activity
    decreases n
  {
    if m < n {
      WedgedForGood(trace, steps, m, n - 1);
      assert Leads(trace[n - 1], steps[n - 1], trace[n]);
      WedgedStep(trace[n - 1], steps[n - 1]);
    }
  }

  /** A run of three authenticated steps that wedges the queue: a notice, a ping, and no self client. */
  lemma WedgedRun() returns (trace: seq<System>, steps: seq<Step>)
    ensures AnyRun(trace, steps) && |steps| == 3 && forall i :: 0 <= i < |steps| ==> AuthenticatedStep(steps[i])
    ensures Wedged(trace[3]) && trace[3].q.activity && trace[3].q.calls == []
  {
    var a, b := EventsWithIdentifier(None, 1, true), EventsWithIdentifier(None, 2, false);
    steps := [Receive(a, 1, true), Receive(b, 2, true), SendNotice(true, false)];
    var s1 := Next(START, steps[0]);
    var s2 := Next(s1, steps[1]);
    trace := [START, s1, s2, Next(s2, steps[2])];
    assert s2.q.ids == [a, b];
  }

  lemma FirstDrains(drain: seq<System>, drainSteps: seq<Step>)
    requires Drain(drain, drainSteps) && |drainSteps| > 0
    ensures Drains(drain[0], drainSteps[0])
  {
    assert DrainFollows(drain[0], drainSteps[0], drain[1]);
  }

  /** From every state that a run reaches, a drain that can go no further ends idle exactly if the status it
      started from was sound. */
  lemma {:induction false} DrainEndsIdleIff(drain: seq<System>, drainSteps: seq<Step>)
    requires Drain(drain, drainSteps) && Shaped(drain[0])
    requires forall step :: !Drains(drain[|drainSteps|], step)
    ensures var s := drain[|drainSteps|];
            s.q.ids == [] && s.inFlight == [] && s.q.status == Done && !s.q.activity <==> StatusSound(drain[0])
  {
    SoundUnlessStranded(drain[0]);
    if StatusSound(drain[0]) {
      DrainEmptiesQueue(drain, drainSteps);
    } else if |drainSteps| > 0 {
      FirstDrains(drain, drainSteps);
      assert false;
    }
  }

  // ----- Handlers that are never called

  /** How many receipts of a notification with a handler are neither called for nor waiting. */
  function Lost(s: System, id: Uuid, handler: Handler): int {
    ReceivedCount(s.received, id, handler) - CallCount(s.q.calls, id, handler)
    - if Waiting(s.q, id, handler) then 1 else 0
  }

  predicate Overwrites(s: System, step: Step, id: Uuid, handler: Handler) {
    step.Receive? && step.e.identifier == id && Waiting(s.q, id, handler)
  }

  lemma ReplyLosesNothing(s: System, step: Step, id: Uuid, handler: Handler)
    requires step.Reply? && step.k < |s.inFlight|
    ensures Lost(Next(s, step), id, handler) == Lost(s, id, handler)
  {
    var e := s.inFlight[step.k];
    if e.identifier !in s.q.handlers {
      NoHandlerEffect(s.q, e, step);
    } else if step.response == TryAgainLater {
      RetryEffect(s.q, e, step);
    } else {
      FinalReplyCounts(s.q, e, step, id, handler);
    }
  }

  /** Of all steps, only a receipt for a pending id loses a handler, and it loses just the one that was waiting. */
  lemma LostStep(s: System, step: Step, id: Uuid, handler: Handler)
    ensures Lost(Next(s, step), id, handler)
            == Lost(s, id, handler) + if Overwrites(s, step, id, handler) then 1 else 0
  {
    match step {
      case Receive(_, _, _) => assert Next(s, step).received[..|s.received|] == s.received;
      case Reply(k, _, _, _, _) => if k < |s.inFlight| { ReplyLosesNothing(s, step, id, handler); }
      case _ =>
    }
  }

  /** How many of the flags from `m` to `n` are set. */
  function Count(flags: seq<bool>, m: nat, n: nat): nat
    requires m <= n <= |flags|
    decreases n
  {
    if m == n then 0 else Count(flags, m, n - 1) + if flags[n - 1] then 1 else 0
  }

  lemma {:induction false} Accumulates(values: seq<int>, flags: seq<bool>, m: nat, n: nat)
    requires |values| == |flags| + 1 && m <= n <= |flags|
    requires forall i :: m <= i < n ==> values[i + 1] == values[i] + if flags[i] then 1 else 0
    ensures values[n] == values[m] + Count(flags, m, n)
    decreases n
  {
    if m < n { Accumulates(values, flags, m, n - 1); }
  }

  /** Which steps of a run overwrite a handler. */
  function Overwritten(trace: seq<System>, steps: seq<Step>, id: Uuid, handler: Handler): (flags: seq<bool>)
    requires |trace| == |steps| + 1
    ensures |flags| == |steps|
  {
    seq(|steps|, i requires 0 <= i < |steps| => Overwrites(trace[i], steps[i], id, handler))
  }

  lemma LostAt(trace: seq<System>, steps: seq<Step>, n: nat, id: Uuid, handler: Handler)
    requires AnyRun(trace, steps) && n < |steps|
    ensures Lost(trace[n + 1], id, handler)
            == Lost(trace[n], id, handler) + if Overwrites(trace[n], steps[n], id, handler) then 1 else 0
  {
    assert Leads(trace[n], steps[n], trace[n + 1]);
    LostStep(trace[n], steps[n], id, handler);
  }

  /** Over every run, what is lost is what was overwritten, and stays lost: once a handler was overwritten it is
      called less often than it was received, for good. */
  lemma {:induction false} LostForGood(trace: seq<System>, steps: seq<Step>, m: nat, n: nat, id: Uuid, handler: Handler)
    requires AnyRun(trace, steps) && m <= n < |trace|
    ensures Lost(trace[n], id, handler)
            == Lost(trace[m], id, handler) + Count(Overwritten(trace, steps, id, handler), m, n)
    ensures CallCount(trace[n].q.calls, id, handler) + Lost(trace[m], id, handler)
            <= ReceivedCount(trace[n].received, id, handler)
  {
    var lost := seq(|trace|, i requires 0 <= i < |trace| => Lost(trace[i], id, handler));
    var flags := Overwritten(trace, steps, id, handler);
    forall i | m <= i < n ensures lost[i + 1] == lost[i] + if flags[i] then 1 else 0 {
      LostAt(trace, steps, i, id, handler);
    }
    Accumulates(lost, flags, m, n);
  }

  /** A notification that has a handler but is neither queued nor in flight, as a notice dropped without a self
      client. */
  predicate Orphaned(s: System, id: Uuid) {
    id in s.q.handlers && IdCount(s.q.ids, id) == 0 && IdCount(s.inFlight, id) == 0
  }

  lemma DroppedIsOrphaned(s: System)
    requires Conserved(s) && NoticeEnabled(s.q, true)
    ensures Orphaned(Next(s, SendNotice(true, false)), s.q.ids[0].identifier)
  {
    var head, tail := s.q.ids[0], s.q.ids[1..];
    assert s.q.ids == [head] + tail;
    IdCountConcat([head], tail, head.identifier);
    IdCountOne(head, head.identifier);
    assert ConservedAt(s, head.identifier);
  }

  lemma OrphanReply(s: System, step: Step, id: Uuid, handler: Handler)
    requires Orphaned(s, id) && step.Reply? && step.k < |s.inFlight|
    ensures Orphaned(Next(s, step), id)
    ensures CallCount(Next(s, step).q.calls, id, handler) == CallCount(s.q.calls, id, handler)
  {
    var e := s.inFlight[step.k];
    IdCountWithout(s.inFlight, step.k, id);
    if e.identifier !in s.q.handlers {
      NoHandlerEffect(s.q, e, step);
    } else if step.response == TryAgainLater {
      RetryEffect(s.q, e, step);
      IdCountConcat(s.q.ids, [e], id);
      IdCountOne(e, id);
    } else {
      FinalReplyEffect(s.q, e, step);
      CallCountSnoc(s.q.calls, FinalCall(s.q, e, step), id, handler);
    }
  }

  lemma OrphanStep(s: System, step: Step, id: Uuid, handler: Handler)
    requires Orphaned(s, id) && !(step.Receive? && step.e.identifier == id)
    ensures Orphaned(Next(s, step), id)
    ensures CallCount(Next(s, step).q.calls, id, handler) == CallCount(s.q.calls, id, handler)
  {
    match step {
      case Receive(e, _, _) =>
        IdCountConcat(s.q.ids, [e], id);
        IdCountOne(e, id);
      case Reply(k, _, _, _, _) => if k < |s.inFlight| { OrphanReply(s, step, id, handler); }
      case _ =>
        if Next(s, step) != s {
          var head, tail := s.q.ids[0], s.q.ids[1..];
          assert s.q.ids == [head] + tail;
          IdCountConcat([head], tail, id);
          IdCountConcat(s.inFlight, [head], id);
        }
    }
  }

  lemma OrphanAt(trace: seq<System>, steps: seq<Step>, n: nat, id: Uuid, handler: Handler)
    requires AnyRun(trace, steps) && n < |steps| && Orphaned(trace[n], id)
    requires !(steps[n].Receive? && steps[n].e.identifier == id)
    ensures Orphaned(trace[n + 1], id)
    ensures CallCount(trace[n + 1].q.calls, id, handler) == CallCount(trace[n].q.calls, id, handler)
  {
    assert Leads(trace[n], steps[n], trace[n + 1]);
    OrphanStep(trace[n], steps[n], id, handler);
  }

  /** Over every run, the handler of a dropped notice is not called as long as the notice is not received again. */
  lemma {:induction false} OrphanNeverCalled(trace: seq<System>, steps: seq<Step>, m: nat, n: nat,
                                             id: Uuid, handler: Handler)
    requires AnyRun(trace, steps) && m <= n < |trace| && Orphaned(trace[m], id)
    requires forall i :: m <= i < n ==> !(steps[i].Receive? && steps[i].e.identifier == id)
    ensures Orphaned(trace[n], id)
    ensures CallCount(trace[n].q.calls, id, handler) == CallCount(trace[m].q.calls, id, handler)
    decreases n
  {
    if m < n {
      OrphanNeverCalled(trace, steps, m, n - 1, id, handler);
      OrphanAt(trace, steps, n - 1, id, handler);
    }
  }
}
