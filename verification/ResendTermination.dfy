/** One message from its first upload to its acceptance: uploads, prekey replies and refetches in any
    order (Source/Synchronization/ZMOTRMessage+Missing.swift, ZMMessage+Dependency.swift and
    Source/Synchronization/Strategies/UserClientRequestStrategy.swift together).

    The backend holds a fixed set of clients for the conversation and rejects an upload for any of them.
    A rejection is unfounded if the message was encrypted for every client it names. The replies to prekey
    requests are arbitrary.
 */
module ResendTermination {
  import opened Options
  import opened Clients
  import MissingClientsPage
  import opened MissingClientRecovery
  import opened OTRMessageUpload

  datatype Step =
    | Upload(response: UploadResponse)
    | PrekeyReply(lookup: map<ClientId, Client>, requested: seq<ClientId>, users: seq<UserEntry>)
    | RefetchConversation(participants: set<User>)
    | RefetchConnection(connection: Connection)
    | OtherMessageMisses(message: Message, clients: set<Client>)
    | ClientsFetched(clients: set<Client>)
    | DeleteClient(client: Client)

  /** The world, the clients this message was rejected for so far, how often it was rejected, and how often
      without foundation. */
  datatype System = System(w: World, rejectedFor: set<Client>, rejections: nat, unfounded: nat)

  /** The clients that can be written to, with a session or with a placeholder for a failed one. */
  function Reachable(ctx: Context): set<Client> {
    ctx.sessions + ctx.failed
  }

  /** The clients a message is encrypted for: those of the active participants that can be written to. */
  function Encrypted(w: World): set<Client> {
    if w.conversation.None? then {}
    else set c | && c in w.clients && c in Reachable(w.ctx)
                 && c.user.Some? && c.user.value in w.conversation.value.activeParticipants
  }

  function Users(clients: set<Client>): set<User> {
    set c | c in clients && c.user.Some? :: c.user.value
  }

  /** The message is uploaded only without a dependency; a response names clients of the backend as missing,
      and none of them as deleted; a refetched conversation includes the users of all of them. */
  ghost predicate Enabled(s: System, message: Message, backend: set<Client>, step: Step) {
    match step
    case Upload(response) =>
      && s.w.conversation.Some? && DependentObject(s.w, None) == None
      && (response.payload.Some? && !SaysUnknownClient(response) ==>
            && (response.payload.value.missing.Some? ==> Reported(response.payload.value.missing.value) <= backend)
            && (response.payload.value.deleted.Some? ==> Reported(response.payload.value.deleted.value) !! backend))
    case PrekeyReply(lookup, _, _) => IsLookup(s.w.ctx.missing, lookup)
    case RefetchConversation(participants) => Users(backend) <= participants
    case DeleteClient(c) => c !in backend
    case _ => true
  }

  function Next(s: System, message: Message, backend: set<Client>, step: Step): System {
    match step
    case Upload(response) =>
      var (w', rejected) := Parsed(s.w, message, response);
      if !rejected then s.(w := w')
      else
        var reported := Reported(response.payload.value.missing.value);
        System(w', s.rejectedFor + reported, s.rejections + 1,
               if reported <= Encrypted(s.w) then s.unfounded + 1 else s.unfounded)
    case PrekeyReply(lookup, requested, users) => s.(w := s.w.(ctx := AfterReply(s.w.ctx, lookup, requested, users)))
    case RefetchConversation(participants) =>
      if s.w.conversation.None? then s
      else
        var c := s.w.conversation.value.(activeParticipants := participants, needsUpdate := false);
        s.(w := s.w.(conversation := Some(c)))
    case RefetchConnection(c) => s.(w := s.w.(staleConnections := s.w.staleConnections - {c}))
    case OtherMessageMisses(m, clients) =>
      s.(w := s.w.(ctx := Registered(s.w.ctx, m, clients), clients := s.w.clients + clients))
    case ClientsFetched(clients) =>
      s.(w := s.w.(ctx := s.w.ctx.(missing := s.w.ctx.missing + (clients - s.w.ctx.sessions)),
          clients := s.w.clients + clients))
    case DeleteClient(c) => s.(w := Forgotten(s.w, {c}))
  }

  ghost predicate Follows(s: System, message: Message, backend: set<Client>, step: Step, s': System) {
    Enabled(s, message, backend, step) && s' == Next(s, message, backend, step)
  }

  ghost predicate Run(trace: seq<System>, message: Message, backend: set<Client>, steps: seq<Step>) {
    && |trace| == |steps| + 1 && trace[0].rejectedFor == {} && trace[0].rejections == trace[0].unfounded == 0
    && forall n :: 0 <= n < |steps| ==> Follows(trace[n], message, backend, steps[n], trace[n + 1])
  }

  /** A client the message was rejected for is known, missing or reachable, and its user is a participant or
      the conversation is to be refetched. */
  ghost predicate LookedAfter(w: World, c: Client) {
    && c in w.clients && (c in w.ctx.missing || c in Reachable(w.ctx)) && c.user.Some?
    && (w.conversation.Some? ==>
        w.conversation.value.needsUpdate || c.user.value in w.conversation.value.activeParticipants)
  }

  ghost predicate Inv(s: System, backend: set<Client>) {
    && s.rejectedFor <= backend && s.rejections <= |s.rejectedFor| + s.unfounded
    && forall c :: c in s.rejectedFor ==> LookedAfter(s.w, c)
  }

  /** Each upload is encrypted for every client the message was rejected for. */
  lemma UploadReachesRejected(s: System, backend: set<Client>)
    requires Inv(s, backend) && s.w.conversation.Some? && DependentObject(s.w, None) == None
    ensures s.rejectedFor <= Encrypted(s.w)
  {
    forall c | c in s.rejectedFor ensures c in Encrypted(s.w) {
      assert LookedAfter(s.w, c);
      if c in s.w.ctx.missing { assert MissesActiveClient(s.w, s.w.conversation.value); }
    }
  }

  lemma UploadLooksAfter(w: World, message: Message, backend: set<Client>, response: UploadResponse, c: Client)
    requires w.conversation.Some?
    requires response.payload.Some? && !SaysUnknownClient(response) && response.payload.value.deleted.Some? ==>
               Reported(response.payload.value.deleted.value) !! backend
    requires c in backend
    requires LookedAfter(w, c) ||
              (Parsed(w, message, response).1 && c in Reported(response.payload.value.missing.value))
    ensures LookedAfter(Parsed(w, message, response).0, c)
  {
    if response.payload.Some? && !SaysUnknownClient(response) {
      var payload := response.payload.value;
      var base := if payload.deleted.Some? then Forgotten(w, w.clients * Reported(payload.deleted.value)) else w;
      assert LookedAfter(w, c) ==> LookedAfter(base, c);
      if payload.missing.Some? {
        var entries := payload.missing.value;
        UsersCheckedEffect(base, entries);
        if c in Reported(entries) {
          ReportedBy(entries, c);
          var i :| 0 <= i < |entries| && c.user == Some(Known(entries[i].userId));
        }
      }
    }
  }

  /** Every client a rejection rightly names is one the message was not rejected for before. */
  lemma UploadKeepsInv(s: System, message: Message, backend: set<Client>, response: UploadResponse)
    requires Inv(s, backend) && Enabled(s, message, backend, Upload(response))
    ensures Inv(Next(s, message, backend, Upload(response)), backend)
    ensures Parsed(s.w, message, response).1 ==>
              Reported(response.payload.value.missing.value) - Encrypted(s.w) !! s.rejectedFor
  {
    var s' := Next(s, message, backend, Upload(response));
    UploadReachesRejected(s, backend);
    if Parsed(s.w, message, response).1 {
      RejectionGrows(s.rejectedFor, Reported(response.payload.value.missing.value), Encrypted(s.w));
    }
    forall c | c in s'.rejectedFor ensures LookedAfter(s'.w, c) {
      UploadLooksAfter(s.w, message, backend, response, c);
    }
  }

  lemma RejectionGrows(before: set<Client>, reported: set<Client>, encrypted: set<Client>)
    requires before <= encrypted
    ensures |before| <= |before + reported|
    ensures !(reported <= encrypted) ==> |before| < |before + reported|
  {
    assert before + reported == before + (reported - before);
    assert |before + reported| == |before| + |reported - before|;
    if !(reported <= encrypted) {
      var c :| c in reported && c !in encrypted;
      assert c in reported - before;
    }
  }

  lemma StepKeepsInv(s: System, message: Message, backend: set<Client>, step: Step)
    requires Inv(s, backend) && Enabled(s, message, backend, step)
    ensures Inv(Next(s, message, backend, step), backend)
  {
    var s' := Next(s, message, backend, step);
    match step {
      case Upload(response) => UploadKeepsInv(s, message, backend, response);
      case PrekeyReply(lookup, requested, users) =>
        ReplySettles(s.w.ctx, lookup, requested, users);
        SettledEitherWay(s.w.ctx, s'.w.ctx, Gone(lookup, requested, users), Entries(users));
        forall c | c in s'.rejectedFor ensures LookedAfter(s'.w, c) { assert LookedAfter(s.w, c); }
      case _ =>
        forall c | c in s'.rejectedFor ensures LookedAfter(s'.w, c) { assert LookedAfter(s.w, c); }
    }
  }

  /** No endless loop of missing clients errors: whatever is answered to prekey requests and in whatever order
      things are fetched, a message is rejected with foundation at most once for each client the backend holds. */
  lemma {:induction false} ResendingTerminates(trace: seq<System>, message: Message, backend: set<Client>,
                                               steps: seq<Step>, n: nat)
    requires Run(trace, message, backend, steps) && n <= |steps|
    ensures trace[n].rejections <= |backend| + trace[n].unfounded
    ensures Inv(trace[n], backend)
    decreases n
  {
    if n > 0 {
      ResendingTerminates(trace, message, backend, steps, n - 1);
      assert Follows(trace[n - 1], message, backend, steps[n - 1], trace[n]);
      StepKeepsInv(trace[n - 1], message, backend, steps[n - 1]);
    }
    MissingClientsPage.SubsetSize(trace[n].rejectedFor, backend);
  }

  // ----- The message goes out

  /** The prekeys request for the next page, and its reply. */
  function RoundStep(pageSize: int, r: Round): Step {
    var page := MissingClientsPage.Page(MissingClientsPage.WithUser(r.order), pageSize);
    Step.PrekeyReply(r.lookup, MissingClientsPage.ClientIds(page), r.users)
  }

  ghost predicate RoundFollows(s: System, message: Message, backend: set<Client>, pageSize: int, r: Round, s': System) {
    && s.w.ctx.missing != {} && ValidRound(s.w.ctx, r)
    && Follows(s, message, backend, RoundStep(pageSize, r), s')
  }

  ghost predicate Rounds(trace: seq<System>, message: Message, backend: set<Client>, pageSize: int,
                         rounds: seq<Round>) {
    && |trace| == |rounds| + 1
    && forall n :: 0 <= n < |rounds| ==> RoundFollows(trace[n], message, backend, pageSize, rounds[n], trace[n + 1])
  }

  /** The conversation refetched, and then its connection. */
  function Refetched(s: System, message: Message, backend: set<Client>, participants: set<User>): System {
    var s' := Next(s, message, backend, Step.RefetchConversation(participants));
    if s'.w.conversation.None? || s'.w.conversation.value.connection.None? then s'
    else Next(s', message, backend, Step.RefetchConnection(s'.w.conversation.value.connection.value))
  }

  /** Rounds change only the context, as the recovery of missing clients does. */
  lemma {:induction false} RoundsAreRecovery(trace: seq<System>, message: Message, backend: set<Client>, pageSize: int,
                                             rounds: seq<Round>, n: nat)
    requires Rounds(trace, message, backend, pageSize, rounds) && n <= |rounds|
    ensures trace[n].w == trace[0].w.(ctx := trace[n].w.ctx)
    ensures var contexts := seq(|trace|, i requires 0 <= i < |trace| => trace[i].w.ctx);
            Recovery(contexts, pageSize, rounds)
    decreases n
  {
    var contexts := seq(|trace|, i requires 0 <= i < |trace| => trace[i].w.ctx);
    forall i | 0 <= i < |rounds|
      ensures MissingClientRecovery.Follows(contexts[i], pageSize, rounds[i], contexts[i + 1])
    {
      assert RoundFollows(trace[i], message, backend, pageSize, rounds[i], trace[i + 1]);
    }
    if n > 0 {
      RoundsAreRecovery(trace, message, backend, pageSize, rounds, n - 1);
      assert RoundFollows(trace[n - 1], message, backend, pageSize, rounds[n - 1], trace[n]);
    }
  }

  /** From every state, once the conversation and its connection are refetched, the message goes out after at most as
      many rounds as clients were missing, whatever is answered. */
  lemma {:induction false} MessageGoesOut(s: System, message: Message, backend: set<Client>, participants: set<User>,
                                          pageSize: int, trace: seq<System>, rounds: seq<Round>, n: nat)
    requires s.w.conversation.Some? && pageSize >= 1 && n <= |rounds|
    requires Rounds(trace, message, backend, pageSize, rounds)
    requires trace[0] == Refetched(s, message, backend, participants)
    ensures n >= |s.w.ctx.missing| || trace[n].w.ctx.missing == {} ==> DependentObject(trace[n].w, None) == None
  {
    var contexts := seq(|trace|, i requires 0 <= i < |trace| => trace[i].w.ctx);
    RoundsAreRecovery(trace, message, backend, pageSize, rounds, n);
    AskableBounded(contexts, pageSize, rounds, n);
    assert contexts[n] == trace[n].w.ctx && contexts[0] == s.w.ctx;
    if client :| client in trace[n].w.ctx.missing && client.user.Some? {
      assert HasAskable(contexts[n]);
    }
  }

  lemma RoundsCons(s: System, r: Round, trace: seq<System>, message: Message, backend: set<Client>, pageSize: int,
                   rounds: seq<Round>)
    requires Rounds(trace, message, backend, pageSize, rounds)
    requires RoundFollows(s, message, backend, pageSize, r, trace[0])
    ensures Rounds([s] + trace, message, backend, pageSize, [r] + rounds)
  {
    var trace', rounds' := [s] + trace, [r] + rounds;
    forall n | 0 <= n < |rounds'|
      ensures RoundFollows(trace'[n], message, backend, pageSize, rounds'[n], trace'[n + 1])
    {
      if n > 0 { assert RoundFollows(trace[n - 1], message, backend, pageSize, rounds[n - 1], trace[n]); }
    }
  }

  /** There is always a next round as long as a client is missing. */
  lemma {:induction false} RoundsGoOn(s: System, message: Message, backend: set<Client>, pageSize: int, n: nat)
    returns (trace: seq<System>, rounds: seq<Round>)
    ensures Rounds(trace, message, backend, pageSize, rounds) && trace[0] == s && |rounds| <= n
    ensures |rounds| == n || trace[|rounds|].w.ctx.missing == {}
    decreases n
  {
    trace, rounds := [s], [];
    if n > 0 && s.w.ctx.missing != {} {
      var r := FruitlessRound(s.w.ctx, pageSize);
      var s' := Next(s, message, backend, RoundStep(pageSize, r));
      trace, rounds := RoundsGoOn(s', message, backend, pageSize, n - 1);
      RoundsCons(s, r, trace, message, backend, pageSize, rounds);
      trace, rounds := [s] + trace, [r] + rounds;
    }
  }

  /** So from every state there is a way for the message to go out. */
  lemma {:induction false} WayOut(s: System, message: Message, backend: set<Client>, participants: set<User>,
                                  pageSize: int)
    returns (trace: seq<System>, rounds: seq<Round>)
    requires s.w.conversation.Some? && pageSize >= 1
    ensures Rounds(trace, message, backend, pageSize, rounds) && |rounds| <= |s.w.ctx.missing|
    ensures trace[0] == Refetched(s, message, backend, participants)
    ensures DependentObject(trace[|rounds|].w, None) == None
  {
    trace, rounds := RoundsGoOn(Refetched(s, message, backend, participants), message, backend, pageSize,
                                |s.w.ctx.missing|);
    MessageGoesOut(s, message, backend, participants, pageSize, trace, rounds, |rounds|);
  }

  // ----- Unfounded rejections are not bounded

  /** The only client of the only participant, whose session the message is encrypted with. */
  ghost predicate Ready(s: System, c: Client) {
    && s.w.clients == {c} && s.w.ctx.missing == {} && s.w.ctx.sessions == {c} && c.user.Some?
    && s.w.conversation == Some(Conversation(Group, {c.user.value}, false, None))
  }

  function Report(userId: UserId, clientId: ClientId): Step {
    Upload(UploadResponse(412, Some(Payload(None, None, Some([UserClients(userId, [clientId])])))))
  }

  lemma ReportedOne(userId: UserId, clientId: ClientId)
    ensures Reported([UserClients(userId, [clientId])]) == {Client(clientId, Some(Known(userId)))}
    ensures ClientsOf(UserClients(userId, [clientId])) == {Client(clientId, Some(Known(userId)))}
  {
    var entry := UserClients(userId, [clientId]);
    assert [entry][..0] == [];
    assert ClientsOf(entry) == {Client(clientId, Some(Known(userId)))} by {
      assert entry.clientIds[0] == clientId;
    }
  }

  lemma UnfoundedReport(s: System, message: Message, userId: UserId, clientId: ClientId)
    requires Ready(s, Client(clientId, Some(Known(userId))))
    ensures var c, step := Client(clientId, Some(Known(userId))), Report(userId, clientId);
            var s' := Next(s, message, {c}, step);
            && Enabled(s, message, {c}, step)
            && s'.rejections == s.rejections + 1 && s'.unfounded == s.unfounded + 1
            && s'.w.conversation == s.w.conversation && s'.w.clients == {c}
            && s'.w.ctx.missing == {c} && s'.w.ctx.sessions == {c}
  {
    var c, entries := Client(clientId, Some(Known(userId))), [UserClients(userId, [clientId])];
    ReportedOne(userId, clientId);
    assert entries[..0] == [];
    assert UsersChecked(s.w, entries[..0]) == s.w;
    assert s.w.clients + {c} == s.w.clients;
    assert UsersChecked(s.w, entries) == s.w;
    assert s.w.ctx.missing + {c} == {c};
    assert c in Encrypted(s.w);
  }

  /** The reply to a prekeys request for the client, with a key that establishes the session. */
  function Restore(c: Client): Step {
    var id := c.remoteIdentifier;
    Step.PrekeyReply(map[id := c], [id], [UserEntry(true, [Entry(id, Prekey(true))])])
  }

  lemma SessionRestored(s: System, message: Message, c: Client)
    requires s.w.ctx.missing == {c} && s.w.ctx.sessions == {c}
    ensures var s' := Next(s, message, {c}, Restore(c));
            && Enabled(s, message, {c}, Restore(c)) && s'.rejections == s.rejections && s'.unfounded == s.unfounded
            && s'.w == s.w.(ctx := s'.w.ctx) && s'.w.ctx.missing == {} && s'.w.ctx.sessions == {c}
  {
    var id := c.remoteIdentifier;
    var lookup, entry := map[id := c], Entry(id, Prekey(true));
    var users := [UserEntry(true, [entry])];
    assert users[..0] == [] && [entry][..0] == [];
    assert Entries(users) == [entry];
    assert id in Asked([id], lookup) by { assert [id][0] == id; }
    assert id in Named([entry]) by { assert [entry][0] == entry; }
    CountUnchanged(Asked([id], lookup), Named([entry]));
    assert AfterEntries(s.w.ctx, lookup, [entry][..0]) == s.w.ctx;
    assert AfterEntries(s.w.ctx, lookup, [entry]) == AfterEntry(s.w.ctx, c, entry.data);
    assert s.w.ctx.missing - {c} == {} && s.w.ctx.sessions + {c} == {c};
  }

  lemma RunSnoc(trace: seq<System>, message: Message, backend: set<Client>, steps: seq<Step>, step: Step)
    requires Run(trace, message, backend, steps) && Enabled(trace[|steps|], message, backend, step)
    ensures Run(trace + [Next(trace[|steps|], message, backend, step)], message, backend, steps + [step])
  {
    var trace', steps' := trace + [Next(trace[|steps|], message, backend, step)], steps + [step];
    forall n | 0 <= n < |steps'| ensures Follows(trace'[n], message, backend, steps'[n], trace'[n + 1]) {
      if n < |steps| { assert Follows(trace[n], message, backend, steps[n], trace[n + 1]); }
    }
  }

  /** A backend that keeps rejecting for a client the message was encrypted for goes on as long as it likes. */
  lemma {:induction false} UnfoundedGoOn(message: Message, userId: UserId, clientId: ClientId, n: nat)
    returns (trace: seq<System>, steps: seq<Step>)
    ensures var c := Client(clientId, Some(Known(userId)));
            Run(trace, message, {c}, steps) && Ready(trace[|steps|], c)
    ensures trace[|steps|].rejections == trace[|steps|].unfounded == n
    decreases n
  {
    var c := Client(clientId, Some(Known(userId)));
    if n == 0 {
      var conversation := Conversation(Group, {Known(userId)}, false, None);
      var w := World(Context({}, {}, {c}, {}), {c}, {}, Some(conversation), map[], {}, 0, false);
      trace, steps := [System(w, {}, 0, 0)], [];
    } else {
      trace, steps := UnfoundedGoOn(message, userId, clientId, n - 1);
      var s := trace[|steps|];
      UnfoundedReport(s, message, userId, clientId);
      RunSnoc(trace, message, {c}, steps, Report(userId, clientId));
      var s' := Next(s, message, {c}, Report(userId, clientId));
      trace, steps := trace + [s'], steps + [Report(userId, clientId)];
      SessionRestored(s', message, c);
      RunSnoc(trace, message, {c}, steps, Restore(c));
      trace, steps := trace + [Next(s', message, {c}, Restore(c))], steps + [Restore(c)];
    }
  }
}
