/** The queue of VoIP notifications to ping back for, and its two consumers
    (Source/UserSession/BackgroundAPNSPingBackStatus.swift,
    Source/Synchronization/Strategies/PingBackRequestStrategy.swift and
    PushNoticeRequestStrategy.swift).

    `Queue` is the state of the status object with its observable effects: the handler calls and
    the event batches handed to the notification dispatcher, in order. Authentication, the self
    client, the transport result and the decrypted events are inputs of each step.
 */
module PingBack {
  import opened Options

  type Uuid = int
  type Event = int
  type Handler = int

  datatype EventsWithIdentifier = EventsWithIdentifier(events: Option<seq<Event>>, identifier: Uuid, isNotice: bool)

  datatype PingBackStatus = Pinging | FetchingNotice | Done

  datatype Response = Success | TryAgainLater | TemporaryError | PermanentError | Expired

  datatype PayloadResult = PayloadSuccess | PayloadFailure

  datatype EventsWithHandler = EventsWithHandler(events: Option<seq<Event>>, handler: Handler)

  datatype Call = Call(identifier: Uuid, handler: Handler, result: PayloadResult, events: seq<Event>)

  datatype Queue = Queue(
    ids: seq<EventsWithIdentifier>,
    handlers: map<Uuid, EventsWithHandler>,
    fetched: map<Uuid, seq<Event>>,
    status: PingBackStatus,
    activity: bool,
    calls: seq<Call>,
    dispatched: seq<seq<Event>>)

  predicate HasNotificationIDs(ids: seq<EventsWithIdentifier>) {
    ids != [] && !ids[0].isNotice
  }

  predicate HasNoticeNotificationIDs(ids: seq<EventsWithIdentifier>) {
    ids != [] && ids[0].isNotice
  }

  function StatusOf(ids: seq<EventsWithIdentifier>): (status: PingBackStatus)
    ensures status == Done <==> ids == []
    ensures status == Pinging <==> HasNotificationIDs(ids)
    ensures status == FetchingNotice <==> HasNoticeNotificationIDs(ids)
  {
    if ids == [] then Done else if ids[0].isNotice then FetchingNotice else Pinging
  }

  function Updated(q: Queue): Queue {
    q.(status := StatusOf(q.ids), activity := q.activity && q.ids != [])
  }

  function Received(q: Queue, e: EventsWithIdentifier, handler: Handler, authenticated: bool): Queue {
    var q' := q.(ids := q.ids + [e],
                 handlers := q.handlers[e.identifier := EventsWithHandler(e.events, handler)],
                 activity := q.activity || authenticated);
    if q.status == Done then Updated(q') else q'
  }

  function Forgotten(q: Queue, id: Uuid): Queue {
    Updated(q.(handlers := q.handlers - {id}))
  }

  function Dispatched(q: Queue, events: seq<Event>): Queue {
    q.(dispatched := q.dispatched + [events])
  }

  function Called(q: Queue, id: Uuid, handler: Handler, result: PayloadResult, events: seq<Event>): Queue {
    q.(calls := q.calls + [Call(id, handler, result, events)])
  }

  function PingBackPerformed(q: Queue, e: EventsWithIdentifier, response: Response, authenticated: bool): Queue {
    var id := e.identifier;
    var q' := Forgotten(q, id);
    if id !in q.handlers then q'
    else
      var entry := q.handlers[id];
      if response == TryAgainLater then Received(q', e, entry.handler, authenticated)
      else
        var q'' := if entry.events.Some? && response == Success then Dispatched(q', entry.events.value) else q';
        Called(q'', id, entry.handler, PayloadSuccess, if id in q.fetched then q.fetched[id] else [])
  }

  function NoticeFetched(q: Queue, e: EventsWithIdentifier, response: Response, events: seq<Event>,
                         decrypted: seq<Event>, authenticated: bool): Queue {
    var id := e.identifier;
    match response
    case Success =>
      Dispatched(PingBackPerformed(q.(fetched := q.fetched[id := decrypted]), e, response, authenticated), decrypted)
    case TryAgainLater =>
      Dispatched(PingBackPerformed(q, e, response, authenticated), events)
    case _ =>
      var q' := Forgotten(q, id);
      Dispatched(if id in q.handlers then Called(q', id, q.handlers[id].handler, PayloadFailure, []) else q', events)
  }

  // ----- The status object and its consumers

  class BackgroundAPNSPingBackStatus {
    var notificationIDs: seq<EventsWithIdentifier>
    var eventsWithHandlerByNotificationID: map<Uuid, EventsWithHandler>
    var notificationIDToEventsMap: map<Uuid, seq<Event>>
    var status: PingBackStatus
    var backgroundActivity: bool
    var handlerCalls: seq<Call>
    var dispatchedEvents: seq<seq<Event>>

    ghost function State(): Queue
      reads this
    {
      Queue(notificationIDs, eventsWithHandlerByNotificationID, notificationIDToEventsMap, status, backgroundActivity,
            handlerCalls, dispatchedEvents)
    }

    constructor ()
      ensures State() == Queue([], map[], map[], Done, false, [], [])
    {
      notificationIDs, eventsWithHandlerByNotificationID, notificationIDToEventsMap := [], map[], map[];
      status, backgroundActivity, handlerCalls, dispatchedEvents := Done, false, [], [];
    }

    method NextNotificationEventsWithID() returns (r: Option<EventsWithIdentifier>)
      modifies this
      ensures r.Some? <==> old(notificationIDs) != [] && !old(notificationIDs)[0].isNotice
      ensures r.Some? ==> old(notificationIDs) == [r.value] + notificationIDs
      ensures State() == old(State()).(ids := notificationIDs) && (r.None? ==> State() == old(State()))
    {
      r := None;
      if HasNotificationIDs(notificationIDs) {
        r := Some(notificationIDs[0]);
        notificationIDs := notificationIDs[1..];
      }
    }

    method NextNoticeNotificationEventsWithID() returns (r: Option<EventsWithIdentifier>)
      modifies this
      ensures r.Some? <==> old(notificationIDs) != [] && old(notificationIDs)[0].isNotice
      ensures r.Some? ==> old(notificationIDs) == [r.value] + notificationIDs
      ensures State() == old(State()).(ids := notificationIDs) && (r.None? ==> State() == old(State()))
    {
      r := None;
      if HasNoticeNotificationIDs(notificationIDs) {
        r := Some(notificationIDs[0]);
        notificationIDs := notificationIDs[1..];
      }
    }

    method UpdateStatus()
      modifies this
      ensures State() == Updated(old(State()))
      ensures State() == old(State()).(status := status, activity := backgroundActivity)
      ensures backgroundActivity <==> old(backgroundActivity) && notificationIDs != []
      ensures status == Done <==> notificationIDs == []
      ensures status == FetchingNotice <==> notificationIDs != [] && notificationIDs[0].isNotice
    {
      if notificationIDs == [] {
        backgroundActivity := false;
        status := Done;
      } else {
        status := if HasNoticeNotificationIDs(notificationIDs) then FetchingNotice else Pinging;
      }
    }

    method DidReceiveVoIPNotification(e: EventsWithIdentifier, handler: Handler, authenticated: bool)
      modifies this
      ensures State() == Received(old(State()), e, handler, authenticated)
    {
      notificationIDs := notificationIDs + [e];
      eventsWithHandlerByNotificationID :=
          eventsWithHandlerByNotificationID[e.identifier := EventsWithHandler(e.events, handler)];
      if authenticated {
        backgroundActivity := true;
      }
      if status == Done {
        UpdateStatus();
      }
    }

    method RemoveHandler(id: Uuid) returns (r: Option<EventsWithHandler>)
      modifies this`eventsWithHandlerByNotificationID
      ensures State() == old(State()).(handlers := old(State()).handlers - {id})
      ensures r == if id in old(State()).handlers then Some(old(State()).handlers[id]) else None
    {
      r := if id in eventsWithHandlerByNotificationID then Some(eventsWithHandlerByNotificationID[id]) else None;
      eventsWithHandlerByNotificationID := eventsWithHandlerByNotificationID - {id};
    }

    method DidPerformPingBackRequest(e: EventsWithIdentifier, responseStatus: Response, authenticated: bool)
      modifies this
      ensures State() == PingBackPerformed(old(State()), e, responseStatus, authenticated)
    {
      var notificationID := e.identifier;
      var eventsWithHandler := RemoveHandler(notificationID);
      UpdateStatus();
      if eventsWithHandler.Some? && eventsWithHandler.value.events.Some? && responseStatus == Success {
        dispatchedEvents := dispatchedEvents + [eventsWithHandler.value.events.value];
      } else if responseStatus == TryAgainLater {
        if eventsWithHandler.None? {
          return;
        }
        DidReceiveVoIPNotification(e, eventsWithHandler.value.handler, authenticated);
      }
      if responseStatus != TryAgainLater && eventsWithHandler.Some? {
        var events :=
            if notificationID in notificationIDToEventsMap then notificationIDToEventsMap[notificationID] else [];
        handlerCalls := handlerCalls + [Call(notificationID, eventsWithHandler.value.handler, PayloadSuccess, events)];
      }
    }

    method DidFetchNoticeNotification(e: EventsWithIdentifier, responseStatus: Response, events: seq<Event>,
                                      decrypted: seq<Event>, authenticated: bool)
      modifies this
      ensures State() == NoticeFetched(old(State()), e, responseStatus, events, decrypted, authenticated)
    {
      var finalEvents := events;
      var notificationID := e.identifier;
      match responseStatus {
        case Success =>
          finalEvents := decrypted;
          notificationIDToEventsMap := notificationIDToEventsMap[notificationID := decrypted];
          DidPerformPingBackRequest(e, responseStatus, authenticated);
        case TryAgainLater =>
          DidPerformPingBackRequest(e, responseStatus, authenticated);
        case _ =>
          var eventsWithHandler := RemoveHandler(notificationID);
          UpdateStatus();
          if eventsWithHandler.Some? {
            handlerCalls := handlerCalls + [Call(notificationID, eventsWithHandler.value.handler, PayloadFailure, [])];
          }
      }
      dispatchedEvents := dispatchedEvents + [finalEvents];
    }
  }

  class PingBackRequestStrategy {
    const pingBackStatus: BackgroundAPNSPingBackStatus

    constructor (status: BackgroundAPNSPingBackStatus)
      ensures pingBackStatus == status
    {
      pingBackStatus := status;
    }

    /** The notification a cancel request is made for, if any. */
    method NextRequest(authenticated: bool) returns (request: Option<EventsWithIdentifier>)
      modifies pingBackStatus
      ensures request.Some? <==> && authenticated && old(pingBackStatus.status) == Pinging
                                 && old(pingBackStatus.notificationIDs) != []
                                 && !old(pingBackStatus.notificationIDs)[0].isNotice
      ensures pingBackStatus.State()
              == if request.Some? then Dequeued(old(pingBackStatus.State())) else old(pingBackStatus.State())
      ensures request.Some? ==> old(pingBackStatus.notificationIDs) == [request.value] + pingBackStatus.notificationIDs
    {
      request := None;
      if authenticated && pingBackStatus.status == Pinging && HasNotificationIDs(pingBackStatus.notificationIDs) {
        request := pingBackStatus.NextNotificationEventsWithID();
      }
    }
  }

  class PushNoticeRequestStrategy {
    const pingBackStatus: BackgroundAPNSPingBackStatus

    constructor (status: BackgroundAPNSPingBackStatus)
      ensures pingBackStatus == status
    {
      pingBackStatus := status;
    }

    /** The entry is dequeued before the self client is looked at, so without one it is lost. */
    method NextRequest(authenticated: bool, selfClient: bool) returns (request: Option<EventsWithIdentifier>)
      modifies pingBackStatus
      ensures var taken := && authenticated && old(pingBackStatus.status) == FetchingNotice
                           && old(pingBackStatus.notificationIDs) != []
                           && old(pingBackStatus.notificationIDs)[0].isNotice;
              && (request.Some? <==> taken && selfClient)
              && pingBackStatus.State()
                 == if taken then Dequeued(old(pingBackStatus.State())) else old(pingBackStatus.State())
      ensures request.Some? ==> old(pingBackStatus.notificationIDs) == [request.value] + pingBackStatus.notificationIDs
    {
      request := None;
      if authenticated && pingBackStatus.status == FetchingNotice
          && HasNoticeNotificationIDs(pingBackStatus.notificationIDs) {
        request := pingBackStatus.NextNoticeNotificationEventsWithID();
        if !selfClient {
          request := None;
        }
      }
    }
  }

  predicate PingEnabled(q: Queue, authenticated: bool) {
    authenticated && q.status == Pinging && HasNotificationIDs(q.ids)
  }

  predicate NoticeEnabled(q: Queue, authenticated: bool) {
    authenticated && q.status == FetchingNotice && HasNoticeNotificationIDs(q.ids)
  }

  function Dequeued(q: Queue): Queue
    requires q.ids != []
  {
    q.(ids := q.ids[1..])
  }

  // ----- Whole runs

  /** The queue, the requests in flight, and every notification received so far with its handler. */
  datatype System = System(q: Queue, inFlight: seq<EventsWithIdentifier>, received: seq<(Uuid, Handler)>)

  datatype Step =
    | Receive(e: EventsWithIdentifier, handler: Handler, authenticated: bool)
    | SendPing(authenticated: bool)
    | SendNotice(authenticated: bool, selfClient: bool)
    | Reply(k: nat, response: Response, events: seq<Event>, decrypted: seq<Event>, authenticated: bool)

  const START := System(Queue([], map[], map[], Done, false, [], []), [], [])

  function Replied(q: Queue, e: EventsWithIdentifier, step: Step): Queue
    requires step.Reply?
  {
    if e.isNotice then NoticeFetched(q, e, step.response, step.events, step.decrypted, step.authenticated)
    else PingBackPerformed(q, e, step.response, step.authenticated)
  }

  function Without<T>(s: seq<T>, k: nat): seq<T>
    requires k < |s|
  {
    s[..k] + s[k + 1..]
  }

  /** A consumer that is not enabled, or a reply to no request in flight, changes nothing. */
  function Next(s: System, step: Step): System {
    match step
    case Receive(e, handler, authenticated) =>
      s.(q := Received(s.q, e, handler, authenticated), received := s.received + [(e.identifier, handler)])
    case SendPing(authenticated) =>
      if PingEnabled(s.q, authenticated) then s.(q := Dequeued(s.q), inFlight := s.inFlight + [s.q.ids[0]]) else s
    case SendNotice(authenticated, selfClient) =>
      if !NoticeEnabled(s.q, authenticated) then s
      else s.(q := Dequeued(s.q), inFlight := if selfClient then s.inFlight + [s.q.ids[0]] else s.inFlight)
    case Reply(k, _, _, _, _) =>
      if k < |s.inFlight| then System(Replied(s.q, s.inFlight[k], step), Without(s.inFlight, k), s.received) else s
  }

  /** The environment's side: a new id is not pending, and the self client exists when a notice is taken up. */
  predicate Fair(s: System, step: Step) {
    && (step.Receive? ==> step.e.identifier !in s.q.handlers)
    && (step.SendNotice? && NoticeEnabled(s.q, step.authenticated) ==> step.selfClient)
  }

  ghost predicate Follows(s: System, step: Step, s': System) {
    Fair(s, step) && s' == Next(s, step)
  }

  ghost predicate Run(trace: seq<System>, steps: seq<Step>) {
    && |trace| == |steps| + 1 && trace[0] == START
    && forall n :: 0 <= n < |steps| ==> Follows(trace[n], steps[n], trace[n + 1])
  }

  ghost predicate Leads(s: System, step: Step, s': System) {
    s' == Next(s, step)
  }

  /** A run in which the environment keeps to nothing. */
  ghost predicate AnyRun(trace: seq<System>, steps: seq<Step>) {
    && |trace| == |steps| + 1 && trace[0] == START
    && forall n :: 0 <= n < |steps| ==> Leads(trace[n], steps[n], trace[n + 1])
  }

  // ----- Conservation

  /** How often an id occurs among entries. */
  function IdCount(entries: seq<EventsWithIdentifier>, id: Uuid): nat {
    if entries == [] then 0
    else IdCount(entries[..|entries| - 1], id) + if entries[|entries| - 1].identifier == id then 1 else 0
  }

  /** How often a handler was called for a notification. */
  function CallCount(calls: seq<Call>, id: Uuid, handler: Handler): nat {
    if calls == [] then 0
    else CallCount(calls[..|calls| - 1], id, handler)
         + if calls[|calls| - 1].identifier == id && calls[|calls| - 1].handler == handler then 1 else 0
  }

  /** How often a notification was received with a handler. */
  function ReceivedCount(received: seq<(Uuid, Handler)>, id: Uuid, handler: Handler): nat {
    if received == [] then 0
    else
      ReceivedCount(received[..|received| - 1], id, handler)
      + if received[|received| - 1] == (id, handler) then 1 else 0
  }

  predicate Waiting(q: Queue, id: Uuid, handler: Handler) {
    id in q.handlers && q.handlers[id].handler == handler
  }

  /** The handler map's keys are the queued and the in-flight ids, each exactly once. */
  ghost predicate Conserved(s: System) {
    forall id :: ConservedAt(s, id)
  }

  ghost predicate ConservedAt(s: System, id: Uuid) {
    IdCount(s.q.ids, id) + IdCount(s.inFlight, id) == if id in s.q.handlers then 1 else 0
  }

  /** Each handler received was called, or is still waiting under its id. */
  ghost predicate Accounted(s: System) {
    forall id, handler :: AccountedAt(s, id, handler)
  }

  ghost predicate AccountedAt(s: System, id: Uuid, handler: Handler) {
    ReceivedCount(s.received, id, handler)
        == CallCount(s.q.calls, id, handler) + if Waiting(s.q, id, handler) then 1 else 0
  }

  /** The status can be stale only while a request is in flight. */
  ghost predicate StatusSound(s: System) {
    && (s.q.status == Done ==> s.q.ids == [] && !s.q.activity)
    && (s.inFlight == [] ==> s.q.status == StatusOf(s.q.ids))
  }

  ghost predicate Inv(s: System) {
    Conserved(s) && Accounted(s) && StatusSound(s)
  }

  lemma {:induction false} IdCountConcat(a: seq<EventsWithIdentifier>, b: seq<EventsWithIdentifier>, id: Uuid)
    ensures IdCount(a + b, id) == IdCount(a, id) + IdCount(b, id)
  {
    if b == [] {
      assert a + b == a;
    } else {
      var n := |b| - 1;
      assert (a + b)[..|a| + n] == a + b[..n];
      IdCountConcat(a, b[..n], id);
    }
  }

  lemma IdCountOne(e: EventsWithIdentifier, id: Uuid)
    ensures IdCount([e], id) == if e.identifier == id then 1 else 0
  {
  }

  lemma IdCountWithout(entries: seq<EventsWithIdentifier>, k: nat, id: Uuid)
    requires k < |entries|
    ensures IdCount(entries, id) == IdCount(Without(entries, k), id) + if entries[k].identifier == id then 1 else 0
  {
    var before, after := entries[..k + 1], entries[k + 1..];
    assert entries == before + after;
    IdCountConcat(before, after, id);
    assert before[..k] == entries[..k];
    IdCountConcat(entries[..k], after, id);
  }

  /** Receiving a notification queues it under its handler and does nothing else; only from done is the status
      refreshed. */
  lemma ReceiveEffect(q: Queue, e: EventsWithIdentifier, handler: Handler, authenticated: bool)
    ensures var q' := Received(q, e, handler, authenticated);
            && q'.ids == q.ids + [e] && q'.handlers == q.handlers[e.identifier := EventsWithHandler(e.events, handler)]
            && q'.activity == (q.activity || authenticated)
            && q'.status == (if q.status != Done then q.status
                             else if (q.ids + [e])[0].isNotice then FetchingNotice else Pinging)
            && q'.fetched == q.fetched && q'.calls == q.calls && q'.dispatched == q.dispatched
  {
  }

  /** A strategy takes the head while authenticated, under the status for its kind, and does nothing else; a notice
      is requested only with a self client. */
  lemma SendEffect(s: System, step: Step)
    requires step.SendPing? || step.SendNotice?
    ensures var s' := Next(s, step);
            var taken := && step.authenticated && s.q.ids != [] && s.q.ids[0].isNotice == step.SendNotice?
                         && s.q.status == (if step.SendNotice? then FetchingNotice else Pinging);
            && (!taken ==> s' == s)
            && (taken ==> && s.q.ids == [s.q.ids[0]] + s'.q.ids && s'.q == s.q.(ids := s'.q.ids)
                          && s'.received == s.received
                          && s'.inFlight == if step.SendNotice? && !step.selfClient then s.inFlight
                                            else s.inFlight + [s.q.ids[0]])
  {
  }

  /** A retried reply goes to the back of the queue under its old handler. */
  lemma RetryEffect(q: Queue, e: EventsWithIdentifier, step: Step)
    requires step.Reply? && e.identifier in q.handlers && step.response == TryAgainLater
    ensures var q', id, h := Replied(q, e, step), e.identifier, q.handlers[e.identifier].handler;
            && q'.status == StatusOf(q'.ids) && q'.status != Done
            && q'.activity == ((q.activity && q.ids != []) || step.authenticated)
            && q'.ids == q.ids + [e] && q'.calls == q.calls
            && q'.handlers == q.handlers[id := EventsWithHandler(e.events, h)]
            && q'.dispatched == q.dispatched + (if e.isNotice then [step.events] else []) && q'.fetched == q.fetched
  {
    var id := e.identifier;
    var entry := EventsWithHandler(e.events, q.handlers[id].handler);
    assert (q.handlers - {id})[id := entry] == q.handlers[id := entry];
  }

  /** The handler call a final reply leads to: a failure only for a notice that could not be fetched, with
      the decrypted events of one that was, and with what an earlier fetch left for a ping. */
  function FinalCall(q: Queue, e: EventsWithIdentifier, step: Step): (call: Call)
    requires step.Reply? && e.identifier in q.handlers
    ensures call.identifier == e.identifier && call.handler == q.handlers[e.identifier].handler
    ensures call.result == PayloadFailure <==> e.isNotice && step.response != Success
    ensures e.isNotice && step.response == Success ==> call.events == step.decrypted
    ensures e.isNotice && step.response != Success ==> call.events == []
    ensures !e.isNotice && e.identifier in q.fetched ==> call.events == q.fetched[e.identifier]
    ensures !e.isNotice && e.identifier !in q.fetched ==> call.events == []
  {
    var id := e.identifier;
    Call(id, q.handlers[id].handler,
         if e.isNotice && step.response != Success then PayloadFailure else PayloadSuccess,
         if !e.isNotice then (if id in q.fetched then q.fetched[id] else [])
         else if step.response == Success then step.decrypted else [])
  }

  /** The event batches a final reply hands to the dispatcher: those received with the notification on
      success, then the outcome of a fetch. */
  function FinalBatches(q: Queue, e: EventsWithIdentifier, step: Step): (batches: seq<seq<Event>>)
    requires step.Reply? && e.identifier in q.handlers
    ensures var received := q.handlers[e.identifier].events;
            && (step.response == Success && received.Some? ==> batches != [] && batches[0] == received.value)
            && |batches| == (if step.response == Success && received.Some? then 1 else 0)
                            + (if e.isNotice then 1 else 0)
            && (e.isNotice ==>
                  batches[|batches| - 1] == if step.response == Success then step.decrypted else step.events)
  {
    var received := q.handlers[e.identifier].events;
    (if step.response == Success && received.Some? then [received.value] else [])
    + (if !e.isNotice then [] else if step.response == Success then [step.decrypted] else [step.events])
  }

  lemma FinalPingEffect(q: Queue, e: EventsWithIdentifier, step: Step)
    requires step.Reply? && e.identifier in q.handlers && step.response != TryAgainLater && !e.isNotice
    ensures var q' := Replied(q, e, step);
            && q'.activity == (q.activity && q.ids != []) && q'.status == StatusOf(q.ids)
            && q'.ids == q.ids && q'.handlers == q.handlers - {e.identifier}
            && q'.calls == q.calls + [FinalCall(q, e, step)]
            && q'.dispatched == q.dispatched + FinalBatches(q, e, step)
            && q'.fetched == q.fetched
  {
  }

  lemma FinalNoticeEffect(q: Queue, e: EventsWithIdentifier, step: Step)
    requires step.Reply? && e.identifier in q.handlers && step.response != TryAgainLater && e.isNotice
    ensures var q' := Replied(q, e, step);
            && q'.activity == (q.activity && q.ids != []) && q'.status == StatusOf(q.ids)
            && q'.ids == q.ids && q'.handlers == q.handlers - {e.identifier}
            && q'.calls == q.calls + [FinalCall(q, e, step)]
            && q'.dispatched == q.dispatched + FinalBatches(q, e, step)
            && q'.fetched == if step.response == Success then q.fetched[e.identifier := step.decrypted] else q.fetched
  {
  }

  /** Any other reply drops the notification, dispatches its events and calls its handler once. */
  lemma FinalReplyEffect(q: Queue, e: EventsWithIdentifier, step: Step)
    requires step.Reply? && e.identifier in q.handlers && step.response != TryAgainLater
    ensures var q' := Replied(q, e, step);
            && q'.status == StatusOf(q'.ids) && (q'.status == Done ==> !q'.activity)
            && q'.activity == (q.activity && q.ids != [])
            && q'.ids == q.ids && q'.handlers == q.handlers - {e.identifier}
            && q'.calls == q.calls + [FinalCall(q, e, step)]
            && q'.dispatched == q.dispatched + FinalBatches(q, e, step)
            && q'.fetched == if e.isNotice && step.response == Success then q.fetched[e.identifier := step.decrypted]
                             else q.fetched
  {
    if e.isNotice {
      FinalNoticeEffect(q, e, step);
    } else {
      FinalPingEffect(q, e, step);
    }
  }

  /** A reply for a notification that has no handler any more calls none and is not retried. */
  lemma NoHandlerEffect(q: Queue, e: EventsWithIdentifier, step: Step)
    requires step.Reply? && e.identifier !in q.handlers
    ensures var q' := Replied(q, e, step);
            && q'.ids == q.ids && q'.handlers == q.handlers && q'.calls == q.calls
            && q'.status == StatusOf(q.ids) && q'.activity == (q.activity && q.ids != [])
            && q'.dispatched
               == q.dispatched + (if !e.isNotice then []
                                  else if step.response == Success then [step.decrypted] else [step.events])
            && q'.fetched == if e.isNotice && step.response == Success then q.fetched[e.identifier := step.decrypted]
                             else q.fetched
  {
    assert q.handlers - {e.identifier} == q.handlers;
  }

  /** A reply that asks to try again, for a notification that still has its handler. */
  predicate Retries(s: System, step: Step) {
    && step.Reply? && step.k < |s.inFlight| && step.response == TryAgainLater
    && s.inFlight[step.k].identifier in s.q.handlers
  }

  /** What every reply does to the queue and the activity, whatever ids were received. */
  lemma ReplyActivity(s: System, step: Step)
    requires step.Reply? && step.k < |s.inFlight|
    ensures var e, q' := s.inFlight[step.k], Next(s, step).q;
            && q'.ids == (if Retries(s, step) then s.q.ids + [e] else s.q.ids)
            && q'.activity == ((s.q.activity && s.q.ids != []) || (Retries(s, step) && step.authenticated))
  {
    var e := s.inFlight[step.k];
    if e.identifier !in s.q.handlers {
      NoHandlerEffect(s.q, e, step);
    } else if step.response == TryAgainLater {
      RetryEffect(s.q, e, step);
    } else {
      FinalReplyEffect(s.q, e, step);
    }
  }

  lemma ReceiveKeepsConserved(s: System, step: Step)
    requires Conserved(s) && step.Receive? && Fair(s, step)
    ensures Conserved(Next(s, step))
  {
    forall id ensures ConservedAt(Next(s, step), id) {
      assert ConservedAt(s, id);
      IdCountConcat(s.q.ids, [step.e], id);
      IdCountOne(step.e, id);
    }
  }

  lemma ReceiveKeepsAccounted(s: System, step: Step)
    requires Accounted(s) && step.Receive? && Fair(s, step)
    ensures Accounted(Next(s, step))
  {
    forall id, handler ensures AccountedAt(Next(s, step), id, handler) {
      assert AccountedAt(s, id, handler);
      assert Next(s, step).received[..|s.received|] == s.received;
    }
  }

  lemma SendKeeps(s: System, step: Step)
    requires Inv(s) && (step.SendPing? || step.SendNotice?) && Fair(s, step)
    ensures Inv(Next(s, step))
  {
    var s' := Next(s, step);
    if s' != s {
      var head, tail := s.q.ids[0], s.q.ids[1..];
      assert s.q.ids == [head] + tail;
      forall id ensures ConservedAt(s', id) {
        assert ConservedAt(s, id);
        IdCountConcat([head], tail, id);
        IdCountConcat(s.inFlight, [head], id);
      }
      forall id, handler ensures AccountedAt(s', id, handler) {
        assert AccountedAt(s, id, handler);
      }
    }
  }

  lemma InFlightHasHandler(s: System, k: nat)
    requires Conserved(s) && k < |s.inFlight|
    ensures s.inFlight[k].identifier in s.q.handlers
  {
    var id := s.inFlight[k].identifier;
    IdCountWithout(s.inFlight, k, id);
    assert ConservedAt(s, id);
  }

  lemma ReplyKeepsConserved(s: System, step: Step)
    requires Conserved(s) && step.Reply? && step.k < |s.inFlight|
    ensures Conserved(Next(s, step))
  {
    var e := s.inFlight[step.k];
    InFlightHasHandler(s, step.k);
    if step.response == TryAgainLater { RetryEffect(s.q, e, step); } else { FinalReplyEffect(s.q, e, step); }
    forall id ensures ConservedAt(Next(s, step), id) {
      assert ConservedAt(s, id) && ConservedAt(s, e.identifier);
      IdCountWithout(s.inFlight, step.k, id);
      IdCountConcat(s.q.ids, [e], id);
      IdCountOne(e, id);
    }
  }

  lemma CallCountSnoc(calls: seq<Call>, call: Call, id: Uuid, handler: Handler)
    ensures CallCount(calls + [call], id, handler)
            == CallCount(calls, id, handler) + if call.identifier == id && call.handler == handler then 1 else 0
  {
    assert (calls + [call])[..|calls|] == calls;
  }

  lemma RetryKeepsAccounted(s: System, step: Step, id: Uuid, handler: Handler)
    requires step.Reply? && step.k < |s.inFlight| && s.inFlight[step.k].identifier in s.q.handlers
    requires step.response == TryAgainLater && AccountedAt(s, id, handler)
    ensures AccountedAt(Next(s, step), id, handler)
  {
    RetryEffect(s.q, s.inFlight[step.k], step);
  }

  lemma WaitingWithout(q: Queue, q': Queue, gone: Uuid, id: Uuid, handler: Handler)
    requires q'.handlers == q.handlers - {gone}
    ensures Waiting(q', id, handler) <==> Waiting(q, id, handler) && id != gone
  {
  }

  /** A final reply turns the handler that waits for its notification into one that was called. */
  lemma FinalReplyCounts(q: Queue, e: EventsWithIdentifier, step: Step, id: Uuid, handler: Handler)
    requires step.Reply? && e.identifier in q.handlers && step.response != TryAgainLater
    ensures var q', own := Replied(q, e, step), id == e.identifier && Waiting(q, id, handler);
            && CallCount(q'.calls, id, handler) == CallCount(q.calls, id, handler) + (if own then 1 else 0)
            && (Waiting(q', id, handler) <==> Waiting(q, id, handler) && !own)
  {
    FinalReplyEffect(q, e, step);
    CallCountSnoc(q.calls, FinalCall(q, e, step), id, handler);
    WaitingWithout(q, Replied(q, e, step), e.identifier, id, handler);
  }

  lemma FinalReplyKeepsAccounted(s: System, step: Step, id: Uuid, handler: Handler)
    requires step.Reply? && step.k < |s.inFlight| && s.inFlight[step.k].identifier in s.q.handlers
    requires step.response != TryAgainLater && AccountedAt(s, id, handler)
    ensures AccountedAt(Next(s, step), id, handler)
  {
    FinalReplyCounts(s.q, s.inFlight[step.k], step, id, handler);
  }

  lemma ReplyKeepsAccounted(s: System, step: Step)
    requires Conserved(s) && Accounted(s) && step.Reply? && step.k < |s.inFlight|
    ensures Accounted(Next(s, step))
  {
    InFlightHasHandler(s, step.k);
    forall id, handler ensures AccountedAt(Next(s, step), id, handler) {
      assert AccountedAt(s, id, handler);
      if step.response == TryAgainLater {
        RetryKeepsAccounted(s, step, id, handler);
      } else {
        FinalReplyKeepsAccounted(s, step, id, handler);
      }
    }
  }

  // ----- The status

  lemma PingReplyRefreshes(q: Queue, e: EventsWithIdentifier, response: Response, authenticated: bool)
    ensures var q' := PingBackPerformed(q, e, response, authenticated);
            q'.status == StatusOf(q'.ids) && (q'.ids == [] ==> !q'.activity)
  {
  }

  /** Every reply leaves a status that matches the head, even for a notification that has no handler any more. */
  lemma ReplyRefreshes(q: Queue, e: EventsWithIdentifier, step: Step)
    requires step.Reply?
    ensures var q' := Replied(q, e, step); q'.status == StatusOf(q'.ids) && (q'.ids == [] ==> !q'.activity)
  {
    if e.isNotice && step.response == Success {
      PingReplyRefreshes(q.(fetched := q.fetched[e.identifier := step.decrypted]), e, Success, step.authenticated);
    } else {
      PingReplyRefreshes(q, e, step.response, step.authenticated);
    }
  }

  /** Without a self client the notice at the head is dropped, and nothing refreshes the status that called for it
      unless a reply is still to come or the next one is a notice too. */
  predicate Strands(s: System, step: Step) {
    && step.SendNotice? && !step.selfClient && NoticeEnabled(s.q, step.authenticated)
    && s.inFlight == [] && !(|s.q.ids| > 1 && s.q.ids[1].isNotice)
  }

  /** The status stays sound exactly if the step does not strand it, whether or not ids are received again. */
  lemma StatusStep(s: System, step: Step)
    requires StatusSound(s)
    ensures StatusSound(Next(s, step)) <==> !Strands(s, step)
  {
    if step.Reply? && step.k < |s.inFlight| { ReplyRefreshes(s.q, s.inFlight[step.k], step); }
  }

  lemma {:induction false} StepKeepsInv(s: System, step: Step)
    requires Inv(s) && Fair(s, step)
    ensures Inv(Next(s, step))
  {
    StatusStep(s, step);
    match step {
      case Receive(_, _, _) =>
        ReceiveKeepsConserved(s, step);
        ReceiveKeepsAccounted(s, step);
      case Reply(k, _, _, _, _) =>
        if k < |s.inFlight| {
          ReplyKeepsConserved(s, step);
          ReplyKeepsAccounted(s, step);
        }
      case _ => SendKeeps(s, step);
    }
  }

  /** Conservation, accounting and a sound status hold throughout every fair run. */
  lemma {:induction false} RunKeepsInv(trace: seq<System>, steps: seq<Step>, n: nat)
    requires Run(trace, steps) && n < |trace|
    ensures Inv(trace[n])
    decreases n
  {
    if n > 0 {
      RunKeepsInv(trace, steps, n - 1);
      assert Follows(trace[n - 1], steps[n - 1], trace[n]);
      StepKeepsInv(trace[n - 1], steps[n - 1]);
    }
  }

  /** A handler never runs more often than it was received, and exactly as often once its
      notification is neither queued nor in flight, whatever the number of retries. */
  lemma {:induction false} HandlerCalledOnce(trace: seq<System>, steps: seq<Step>, n: nat, id: Uuid, handler: Handler)
    requires Run(trace, steps) && n < |trace|
    ensures var s := trace[n];
            var called, received := CallCount(s.q.calls, id, handler), ReceivedCount(s.received, id, handler);
            && called <= received <= called + 1
            && IdCount(s.q.ids, id) + IdCount(s.inFlight, id) <= 1
            && (IdCount(s.q.ids, id) + IdCount(s.inFlight, id) == 0 ==> called == received)
  {
    RunKeepsInv(trace, steps, n);
    assert AccountedAt(trace[n], id, handler) && ConservedAt(trace[n], id);
  }

  /** What holds at first and survives a step exactly when the step is not bad holds throughout exactly when no
      step is bad. */
  lemma {:induction false} HoldsThroughout(holds: seq<bool>, bad: seq<bool>, n: nat)
    requires |holds| == |bad| + 1 && n <= |bad| && holds[0]
    requires forall i :: 0 <= i < n && holds[i] ==> (bad[i] <==> !holds[i + 1])
    ensures (forall i :: 0 <= i <= n ==> holds[i]) <==> (forall i :: 0 <= i < n ==> !bad[i])
    decreases n
  {
    if n > 0 {
      HoldsThroughout(holds, bad, n - 1);
      assert holds[n - 1] ==> (bad[n - 1] <==> !holds[n]);
    }
  }

  /** Over every run, fair or not, the status is sound throughout exactly when no step strands it. */
  lemma {:induction false} StatusSoundIff(trace: seq<System>, steps: seq<Step>, n: nat)
    requires AnyRun(trace, steps) && n < |trace|
    ensures (forall i :: 0 <= i <= n ==> StatusSound(trace[i]))
            <==> (forall i :: 0 <= i < n ==> !Strands(trace[i], steps[i]))
  {
    ghost var holds := seq(|trace|, i requires 0 <= i < |trace| => StatusSound(trace[i]));
    var bad := seq(|steps|, i requires 0 <= i < |steps| => Strands(trace[i], steps[i]));
    forall i | 0 <= i < n && holds[i] ensures bad[i] <==> !holds[i + 1] {
      assert Leads(trace[i], steps[i], trace[i + 1]);
      StatusStep(trace[i], steps[i]);
    }
    HoldsThroughout(holds, bad, n);
    assert forall i :: 0 <= i <= n ==> holds[i] == StatusSound(trace[i]);
    assert forall i :: 0 <= i < n ==> bad[i] == Strands(trace[i], steps[i]);
  }

  /** A fair run is a run, and none of its steps strands the status. */
  lemma FairRunNeverStrands(trace: seq<System>, steps: seq<Step>)
    requires Run(trace, steps)
    ensures AnyRun(trace, steps) && forall n :: 0 <= n < |steps| ==> !Strands(trace[n], steps[n])
  {
    forall n | 0 <= n < |steps| ensures Leads(trace[n], steps[n], trace[n + 1]) && !Strands(trace[n], steps[n]) {
      assert Follows(trace[n], steps[n], trace[n + 1]);
    }
  }

  /** With work queued, either a reply is outstanding or exactly one consumer takes the head. */
  lemma {:induction false} NeverWedged(trace: seq<System>, steps: seq<Step>, n: nat)
    requires AnyRun(trace, steps) && n < |trace| && forall i :: 0 <= i < n ==> !Strands(trace[i], steps[i])
    ensures var s := trace[n];
            && (s.q.status == Done ==> s.q.ids == [] && !s.q.activity)
            && (s.q.ids != [] && s.inFlight == [] ==> PingEnabled(s.q, true) != NoticeEnabled(s.q, true))
  {
    StatusSoundIff(trace, steps, n);
    assert StatusSound(trace[n]);
  }

  // ----- Draining

  /** A step that moves a notification on: sent, or answered for good. */
  predicate Drains(s: System, step: Step) {
    match step
    case Receive(_, _, _) => false
    case SendPing(authenticated) => PingEnabled(s.q, authenticated)
    case SendNotice(authenticated, selfClient) => NoticeEnabled(s.q, authenticated) && selfClient
    case Reply(k, response, _, _, _) => k < |s.inFlight| && response != TryAgainLater
  }

  ghost predicate DrainFollows(s: System, step: Step, s': System) {
    Drains(s, step) && s' == Next(s, step)
  }

  ghost predicate Drain(trace: seq<System>, steps: seq<Step>) {
    && |trace| == |steps| + 1
    && forall n :: 0 <= n < |steps| ==> DrainFollows(trace[n], steps[n], trace[n + 1])
  }

  function Work(s: System): nat {
    2 * |s.q.ids| + |s.inFlight|
  }

  lemma DrainStepTakesWork(s: System, step: Step)
    requires Drains(s, step)
    ensures Work(Next(s, step)) + 1 == Work(s)
  {
  }

  lemma DrainStepKeepsInv(s: System, step: Step, s': System)
    requires DrainFollows(s, step, s')
    ensures StatusSound(s) ==> StatusSound(s')
    ensures Inv(s) ==> Inv(s')
  {
    if StatusSound(s) { StatusStep(s, step); }
    if Inv(s) { StepKeepsInv(s, step); }
  }

  /** Every draining step takes one unit of work, from whatever state, and keeps what is sound. */
  lemma {:induction false} DrainTakesWork(trace: seq<System>, steps: seq<Step>, n: nat)
    requires Drain(trace, steps) && n < |trace|
    ensures Work(trace[n]) + n == Work(trace[0])
    ensures StatusSound(trace[0]) ==> StatusSound(trace[n])
    ensures Inv(trace[0]) ==> Inv(trace[n])
    decreases n
  {
    if n > 0 {
      DrainTakesWork(trace, steps, n - 1);
      assert DrainFollows(trace[n - 1], steps[n - 1], trace[n]);
      DrainStepTakesWork(trace[n - 1], steps[n - 1]);
      DrainStepKeepsInv(trace[n - 1], steps[n - 1], trace[n]);
    }
  }

  lemma {:induction false} WorkIsTakenUp(s: System) returns (step: Step)
    requires StatusSound(s) && Work(s) > 0
    ensures Drains(s, step)
  {
    step := if s.inFlight != [] then Reply(0, Success, [], [], true)
            else if s.q.ids[0].isNotice then SendNotice(true, true) else SendPing(true);
  }

  /** From every state with a sound status, whatever ids were received, every way of draining takes the same
      number of steps and empties the queue. */
  lemma {:induction false} DrainEmptiesQueue(drain: seq<System>, drainSteps: seq<Step>)
    requires Drain(drain, drainSteps) && StatusSound(drain[0])
    requires forall step :: !Drains(drain[|drainSteps|], step)
    ensures |drainSteps| == Work(drain[0])
    ensures var s := drain[|drainSteps|]; s.q.ids == [] && s.inFlight == [] && s.q.status == Done && !s.q.activity
  {
    DrainTakesWork(drain, drainSteps, |drainSteps|);
    if Work(drain[|drainSteps|]) > 0 {
      var step := WorkIsTakenUp(drain[|drainSteps|]);
      assert false;
    }
  }

  /** Once nothing new arrives and replies are final, every way of draining takes the same number
      of steps and ends idle, with every handler called as often as it was received. */
  lemma {:induction false} DrainEndsIdle(trace: seq<System>, steps: seq<Step>,
                                         drain: seq<System>, drainSteps: seq<Step>)
    requires Run(trace, steps) && Drain(drain, drainSteps) && drain[0] == trace[|steps|]
    requires forall step :: !Drains(drain[|drainSteps|], step)
    ensures |drainSteps| == Work(drain[0])
    ensures var s := drain[|drainSteps|];
            && s.q.ids == [] && s.inFlight == [] && s.q.handlers == map[] && s.q.status == Done && !s.q.activity
            && forall id, handler :: CallCount(s.q.calls, id, handler) == ReceivedCount(s.received, id, handler)
  {
    RunKeepsInv(trace, steps, |steps|);
    DrainTakesWork(drain, drainSteps, |drainSteps|);
    DrainEmptiesQueue(drain, drainSteps);
    var s := drain[|drainSteps|];
    forall id ensures id !in s.q.handlers { assert ConservedAt(s, id); }
    forall id, handler ensures CallCount(s.q.calls, id, handler) == ReceivedCount(s.received, id, handler) {
      assert AccountedAt(s, id, handler);
    }
  }

  // ----- What the environment has to keep to

  /** Receiving keeps conservation and accounting exactly when the id is not pending already: a
      second receipt overwrites the first handler, which then is neither called nor waiting. */
  lemma {:induction false} ReceiveNeedsFreshId(s: System, e: EventsWithIdentifier,
                                               handler: Handler, authenticated: bool)
    requires Inv(s)
    ensures Conserved(Next(s, Receive(e, handler, authenticated))) <==> e.identifier !in s.q.handlers
    ensures Accounted(Next(s, Receive(e, handler, authenticated))) <==> e.identifier !in s.q.handlers
  {
    var step, id := Receive(e, handler, authenticated), e.identifier;
    var s' := Next(s, step);
    if id in s.q.handlers {
      IdCountConcat(s.q.ids, [e], id);
      IdCountOne(e, id);
      assert ConservedAt(s, id) && !ConservedAt(s', id);
      var first := s.q.handlers[id].handler;
      assert s'.received[..|s.received|] == s.received;
      assert AccountedAt(s, id, first) && !AccountedAt(s', id, first);
    } else {
      ReceiveKeepsConserved(s, step);
      ReceiveKeepsAccounted(s, step);
    }
  }

  /** Taking up a notice keeps conservation exactly when the self client exists, and without one keeps the status
      sound only if a reply is to come or the next notification is a notice too. */
  lemma {:induction false} NoticeNeedsSelfClient(s: System, selfClient: bool)
    requires Inv(s) && NoticeEnabled(s.q, true)
    ensures Conserved(Next(s, SendNotice(true, selfClient))) <==> selfClient
    ensures StatusSound(Next(s, SendNotice(true, selfClient)))
            <==> selfClient || s.inFlight != [] || (|s.q.ids| > 1 && s.q.ids[1].isNotice)
  {
    StatusStep(s, SendNotice(true, selfClient));
    if selfClient {
      SendKeeps(s, SendNotice(true, true));
    } else {
      var head, tail := s.q.ids[0], s.q.ids[1..];
      assert s.q.ids == [head] + tail;
      IdCountConcat([head], tail, head.identifier);
      IdCountOne(head, head.identifier);
      assert ConservedAt(s, head.identifier);
      assert !ConservedAt(Next(s, SendNotice(true, false)), head.identifier);
    }
  }

  predicate AuthenticatedStep(step: Step) {
    (step.Receive? || step.Reply?) ==> step.authenticated
  }

  lemma ActivityStep(s: System, step: Step)
    requires AuthenticatedStep(step) && (s.q.ids != [] ==> s.q.activity)
    ensures var q := Next(s, step).q; q.ids != [] ==> q.activity
  {
    if step.Reply? && step.k < |s.inFlight| { ReplyActivity(s, step); }
  }

  /** While authenticated, the background activity is held as long as anything is queued. */
  lemma {:induction false} ActivityWhileQueued(trace: seq<System>, steps: seq<Step>, n: nat)
    requires AnyRun(trace, steps) && n < |trace| && forall i :: 0 <= i < n ==> AuthenticatedStep(steps[i])
    ensures trace[n].q.ids != [] ==> trace[n].q.activity
    decreases n
  {
    if n > 0 {
      ActivityWhileQueued(trace, steps, n - 1);
      assert Leads(trace[n - 1], steps[n - 1], trace[n]);
      ActivityStep(trace[n - 1], steps[n - 1]);
    }
  }

  /** The activity ends exactly with a reply that meets an empty queue, unless it is retried while
      authenticated. */
  lemma ActivityEndsIff(s: System, step: Step)
    requires s.q.activity
    ensures !Next(s, step).q.activity <==>
              && step.Reply? && step.k < |s.inFlight| && s.q.ids == []
              && !(Retries(s, step) && step.authenticated)
  {
    if step.Reply? && step.k < |s.inFlight| { ReplyActivity(s, step); }
  }

  /** The background activity lasts as long as anything is queued or in flight. */
  predicate Covered(s: System) {
    s.q.ids != [] || s.inFlight != [] ==> s.q.activity
  }

  /** The steps that leave work without the activity: the first notification received unauthenticated, a
      retry of the last one unauthenticated, and a final reply that meets an empty queue while another
      request is in flight. */
  predicate Uncovers(s: System, step: Step) {
    || (step.Receive? && !step.authenticated && !s.q.activity)
    || (&& step.Reply? && step.k < |s.inFlight| && s.q.ids == []
        && if Retries(s, step) then !step.authenticated else |s.inFlight| > 1)
  }

  lemma CoverStep(s: System, step: Step)
    requires Covered(s)
    ensures Covered(Next(s, step)) <==> !Uncovers(s, step)
  {
    if step.Reply? && step.k < |s.inFlight| { ReplyActivity(s, step); }
  }

  lemma CoverAt(trace: seq<System>, steps: seq<Step>, n: nat)
    requires AnyRun(trace, steps) && n < |steps| && Covered(trace[n])
    ensures Covered(trace[n + 1]) <==> !Uncovers(trace[n], steps[n])
  {
    assert Leads(trace[n], steps[n], trace[n + 1]);
    CoverStep(trace[n], steps[n]);
  }

  /** Over every run the activity covers all work in every state exactly when no step uncovers some. */
  lemma {:induction false} ActivityCoversIff(trace: seq<System>, steps: seq<Step>, n: nat)
    requires AnyRun(trace, steps) && n < |trace|
    ensures (forall i :: 0 <= i <= n ==> Covered(trace[i]))
            <==> (forall i :: 0 <= i < n ==> !Uncovers(trace[i], steps[i]))
  {
    var holds := seq(|trace|, i requires 0 <= i < |trace| => Covered(trace[i]));
    var bad := seq(|steps|, i requires 0 <= i < |steps| => Uncovers(trace[i], steps[i]));
    forall i | 0 <= i < n && holds[i] ensures bad[i] <==> !holds[i + 1] {
      CoverAt(trace, steps, i);
    }
    HoldsThroughout(holds, bad, n);
    assert forall i :: 0 <= i <= n ==> holds[i] == Covered(trace[i]);
    assert forall i :: 0 <= i < n ==> bad[i] == Uncovers(trace[i], steps[i]);
  }

  lemma RunSnoc(trace: seq<System>, steps: seq<Step>, step: Step)
    requires Run(trace, steps) && Fair(trace[|steps|], step)
    ensures Run(trace + [Next(trace[|steps|], step)], steps + [step])
  {
    var trace', steps' := trace + [Next(trace[|steps|], step)], steps + [step];
    forall n | 0 <= n < |steps'| ensures Follows(trace'[n], steps'[n], trace'[n + 1]) {
      if n < |steps| { assert Follows(trace[n], steps[n], trace[n + 1]); }
    }
  }

  /** Two notifications received and both pinged back for, with no reply yet. */
  lemma TwoInFlight() returns (trace: seq<System>, steps: seq<Step>)
    ensures Run(trace, steps) && forall i :: 0 <= i < |steps| ==> AuthenticatedStep(steps[i])
    ensures var s := trace[|steps|]; |s.inFlight| == 2 && s.inFlight[0].identifier in s.q.handlers && s.q.ids == []
  {
    var a, b := EventsWithIdentifier(None, 1, false), EventsWithIdentifier(None, 2, false);
    steps := [Receive(a, 1, true), Receive(b, 2, true), SendPing(true), SendPing(true)];
    var s1 := Next(START, steps[0]);
    var s2 := Next(s1, steps[1]);
    var s3 := Next(s2, steps[2]);
    trace := [START, s1, s2, s3, Next(s3, steps[3])];
    assert s2.q.ids == [a, b] && s3.q.ids == [b];
  }

  /** A fair, authenticated run in which the activity ends while a request is in flight. */
  lemma ActivityEndsInFlight() returns (trace: seq<System>, steps: seq<Step>)
    ensures Run(trace, steps) && forall i :: 0 <= i < |steps| ==> AuthenticatedStep(steps[i])
    ensures var s := trace[|steps|]; s.inFlight != [] && !s.q.activity
  {
    trace, steps := TwoInFlight();
    var s, reply := trace[|steps|], Reply(0, Success, [], [], true);
    FinalReplyEffect(s.q, s.inFlight[0], reply);
    RunSnoc(trace, steps, reply);
    trace, steps := trace + [Next(s, reply)], steps + [reply];
  }
}
