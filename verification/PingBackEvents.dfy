/** Which events reach the notification dispatcher
    (Source/UserSession/BackgroundAPNSPingBackStatus.swift).
 */
module PingBackEvents {
  import opened Options
  import opened PingBack

  /** The batches a reply to a notification hands on: the events it was received with on success, and for a notice
      what was decrypted, or on any other result what came with the response. */
  function ReplyBatches(e: EventsWithIdentifier, step: Step): seq<seq<Event>>
    requires step.Reply?
  {
    (if step.response == Success && e.events.Some? then [e.events.value] else [])
    + (if !e.isNotice then [] else if step.response == Success then [step.decrypted] else [step.events])
  }

  /** The batches of a step: only replies have any. */
  function StepBatches(s: System, step: Step): seq<seq<Event>> {
    if step.Reply? && step.k < |s.inFlight| then ReplyBatches(s.inFlight[step.k], step) else []
  }

  /** Whatever is queued or in flight is kept under its id with the events it came with. */
  ghost predicate EventsKept(s: System) {
    forall e :: e in s.q.ids || e in s.inFlight ==> KeptFor(s, e)
  }

  predicate KeptFor(s: System, e: EventsWithIdentifier) {
    e.identifier in s.q.handlers && s.q.handlers[e.identifier].events == e.events
  }

  lemma {:induction false} IdCountMember(entries: seq<EventsWithIdentifier>, e: EventsWithIdentifier)
    requires e in entries
    ensures IdCount(entries, e.identifier) >= 1
  {
    var n := |entries| - 1;
    if entries[n] != e {
      assert e in entries[..n];
      IdCountMember(entries[..n], e);
    }
  }

  /** An entry left when another is taken out of flight has another id. */
  lemma OtherId(s: System, k: nat, e: EventsWithIdentifier)
    requires Conserved(s) && k < |s.inFlight| && (e in s.q.ids || e in Without(s.inFlight, k))
    ensures e.identifier != s.inFlight[k].identifier
  {
    var id := s.inFlight[k].identifier;
    if e.identifier == id {
      assert ConservedAt(s, id);
      IdCountWithout(s.inFlight, k, id);
      if e in s.q.ids { IdCountMember(s.q.ids, e); } else { IdCountMember(Without(s.inFlight, k), e); }
    }
  }

  lemma ReplyKeepsEvents(s: System, step: Step)
    requires Conserved(s) && EventsKept(s) && step.Reply? && step.k < |s.inFlight|
    ensures EventsKept(Next(s, step))
  {
    var s', e := Next(s, step), s.inFlight[step.k];
    InFlightHasHandler(s, step.k);
    if step.response == TryAgainLater { RetryEffect(s.q, e, step); } else { FinalReplyEffect(s.q, e, step); }
    forall x | x in s'.q.ids || x in s'.inFlight ensures KeptFor(s', x) {
      if x in s.q.ids || x in Without(s.inFlight, step.k) {
        OtherId(s, step.k, x);
        assert x in s.q.ids || x in s.inFlight;
        assert KeptFor(s, x);
      }
    }
  }

  lemma StepKeepsEvents(s: System, step: Step)
    requires Conserved(s) && EventsKept(s) && Fair(s, step)
    ensures EventsKept(Next(s, step))
  {
    var s' := Next(s, step);
    match step {
      case Receive(e, handler, authenticated) =>
        ReceiveEffect(s.q, e, handler, authenticated);
        forall x | x in s'.q.ids || x in s'.inFlight ensures KeptFor(s', x) {
          if x in s.q.ids || x in s.inFlight { assert KeptFor(s, x); }
        }
      case Reply(k, _, _, _, _) => if k < |s.inFlight| { ReplyKeepsEvents(s, step); }
      case _ =>
        SendEffect(s, step);
        forall x | x in s'.q.ids || x in s'.inFlight ensures KeptFor(s', x) {
          assert x in s.q.ids || x in s.inFlight;
          assert KeptFor(s, x);
        }
    }
  }

  lemma StepDispatches(s: System, step: Step)
    requires Conserved(s) && EventsKept(s)
    ensures Next(s, step).q.dispatched == s.q.dispatched + StepBatches(s, step)
  {
    match step {
      case Receive(e, handler, authenticated) => ReceiveEffect(s.q, e, handler, authenticated);
      case Reply(k, _, _, _, _) =>
        if k < |s.inFlight| {
          var e := s.inFlight[k];
          InFlightHasHandler(s, k);
          assert e in s.inFlight && KeptFor(s, e);
          if step.response == TryAgainLater { RetryEffect(s.q, e, step); } else { FinalReplyEffect(s.q, e, step); }
        }
      case _ => SendEffect(s, step);
    }
  }

  function AllBatches(trace: seq<System>, steps: seq<Step>, n: nat): seq<seq<Event>>
    requires n <= |steps| && |trace| == |steps| + 1
  {
    if n == 0 then [] else AllBatches(trace, steps, n - 1) + StepBatches(trace[n - 1], steps[n - 1])
  }

  /** Over every fair run the dispatcher is handed exactly the batches of the replies, in order: the events of a
      notification only once it was answered with success, however often it was retried. */
  lemma {:induction false} DispatchedByReplies(trace: seq<System>, steps: seq<Step>, n: nat)
    requires Run(trace, steps) && n < |trace|
    ensures trace[n].q.dispatched == AllBatches(trace, steps, n) && EventsKept(trace[n])
    decreases n
  {
    if n > 0 {
      DispatchedByReplies(trace, steps, n - 1);
      RunKeepsInv(trace, steps, n - 1);
      assert Follows(trace[n - 1], steps[n - 1], trace[n]);
      StepDispatches(trace[n - 1], steps[n - 1]);
      StepKeepsEvents(trace[n - 1], steps[n - 1]);
    }
  }

  /** What a fetch decrypted is remembered for its notification until it is fetched again, and for no other. */
  lemma FetchedStep(s: System, step: Step, id: Uuid)
    ensures var s' := Next(s, step);
            if && step.Reply? && step.k < |s.inFlight| && s.inFlight[step.k].isNotice
               && s.inFlight[step.k].identifier == id && step.response == Success
            then id in s'.q.fetched && s'.q.fetched[id] == step.decrypted
            else && (id in s'.q.fetched <==> id in s.q.fetched)
                 && (id in s.q.fetched ==> s'.q.fetched[id] == s.q.fetched[id])
  {
    match step {
      case Receive(e, handler, authenticated) => ReceiveEffect(s.q, e, handler, authenticated);
      case Reply(k, _, _, _, _) =>
        if k < |s.inFlight| {
          var e := s.inFlight[k];
          if e.identifier !in s.q.handlers {
            NoHandlerEffect(s.q, e, step);
          } else if step.response == TryAgainLater {
            RetryEffect(s.q, e, step);
          } else {
            FinalReplyEffect(s.q, e, step);
          }
        }
      case _ => SendEffect(s, step);
    }
  }
}
