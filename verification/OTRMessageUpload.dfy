/** What an encrypted message does with the response to its upload, and what it then depends on
    (Source/Synchronization/ZMOTRMessage+Missing.swift and
    Source/Synchronization/ZMMessage+Dependency.swift).

    The self client exists, user keys are identifiers and client lists are lists of strings, as the
    forced unwraps and fatal errors of the source demand.
 */
module OTRMessageUpload {
  import opened Options
  import opened Clients
  import opened MissingClientRecovery

  type Connection = int

  datatype ConversationType = Group | OneOnOne | PendingConnection | SelfConversation

  datatype Conversation = Conversation(kind: ConversationType, activeParticipants: set<User>, needsUpdate: bool,
                                       connection: Option<Connection>)

  datatype UserClients = UserClients(userId: UserId, clientIds: seq<ClientId>)

  datatype Payload = Payload(errorLabel: Option<string>, deleted: Option<seq<UserClients>>,
                             missing: Option<seq<UserClients>>)

  /** No payload stands for one that is not a dictionary. */
  datatype UploadResponse = UploadResponse(httpStatus: int, payload: Option<Payload>)

  datatype World = World(
    ctx: Context,
    clients: set<Client>,
    ignored: set<Client>,
    conversation: Option<Conversation>,
    userConnections: map<User, Connection>,
    staleConnections: set<Connection>,
    nextConnection: Connection,
    selfClientDeleted: bool)

  datatype Dependency =
    | RefetchConversation
    | RefetchConnection(connection: Connection)
    | FetchMissingClients
    | Other(objectId: int)

  predicate IsPersonal(c: Conversation) {
    c.kind == OneOnOne || c.kind == PendingConnection
  }

  // ----- The response

  /** A reported user outside the conversation means the conversation, and the connection to that user, are stale. */
  function ParticipantChecked(w: World, user: User): World {
    if w.conversation.None? || user in w.conversation.value.activeParticipants then w
    else
      var c := w.conversation.value.(needsUpdate := true);
      if !IsPersonal(c) then
        var own := if user in w.userConnections then Some(w.userConnections[user]) else None;
        w.(conversation := Some(if c.connection.None? then c.(connection := own) else c),
           staleConnections := if own.Some? then w.staleConnections + {own.value} else w.staleConnections)
      else if user in w.userConnections then
        w.(conversation := Some(c), staleConnections := w.staleConnections + {w.userConnections[user]})
      else
        var connection := if c.connection.Some? then c.connection.value else w.nextConnection;
        w.(conversation := Some(c.(connection := Some(connection))),
           userConnections := w.userConnections[user := connection],
           staleConnections := w.staleConnections + {connection},
           nextConnection := if c.connection.Some? then w.nextConnection else w.nextConnection + 1)
  }

  function ClientsOf(entry: UserClients): set<Client> {
    set i | 0 <= i < |entry.clientIds| :: Client(entry.clientIds[i], Some(Known(entry.userId)))
  }

  function Reported(entries: seq<UserClients>): set<Client> {
    if entries == [] then {} else Reported(entries[..|entries| - 1]) + ClientsOf(entries[|entries| - 1])
  }

  function UsersChecked(w: World, entries: seq<UserClients>): World {
    if entries == [] then w
    else
      var before, last := UsersChecked(w, entries[..|entries| - 1]), entries[|entries| - 1];
      ParticipantChecked(before.(clients := before.clients + ClientsOf(last)), Known(last.userId))
  }

  function MissingProcessed(w: World, message: Message, entries: seq<UserClients>): World {
    var w', reported := UsersChecked(w, entries), Reported(entries);
    w'.(ctx := Registered(w'.ctx, message, reported), ignored := w'.ignored + reported)
  }

  function Forgotten(w: World, gone: set<Client>): World {
    w.(clients := w.clients - gone,
       ctx := Context(w.ctx.missing - gone, NotWaitingFor(w.ctx.waiting, gone),
           w.ctx.sessions - gone, w.ctx.failed - gone))
  }

  lemma UserMore(w: World, entries: seq<UserClients>, k: nat)
    requires k < |entries|
    ensures Reported(entries[..k + 1]) == Reported(entries[..k]) + ClientsOf(entries[k])
    ensures var before := UsersChecked(w, entries[..k]);
            UsersChecked(w, entries[..k + 1])
            == ParticipantChecked(before.(clients := before.clients + ClientsOf(entries[k])), Known(entries[k].userId))
  {
    assert entries[..k + 1][..k] == entries[..k];
  }

  predicate SaysUnknownClient(response: UploadResponse) {
    response.httpStatus == 403 && response.payload.Some? && response.payload.value.errorLabel == Some("unknown-client")
  }

  /** The new state, and whether the upload has to be repeated. */
  function Parsed(w: World, message: Message, response: UploadResponse): (World, bool) {
    if SaysUnknownClient(response) then (w.(selfClientDeleted := true), false)
    else if response.payload.None? then (w, false)
    else
      var payload := response.payload.value;
      var w' := if payload.deleted.Some? then Forgotten(w, w.clients * Reported(payload.deleted.value)) else w;
      if payload.missing.None? then (w', false)
      else (MissingProcessed(w', message, payload.missing.value), Reported(payload.missing.value) != {})
  }

  // ----- The dependency

  predicate MissesActiveClient(w: World, c: Conversation) {
    exists client :: && client in w.ctx.missing && client in w.clients
                     && client.user.Some? && client.user.value in c.activeParticipants
  }

  /** `other` is what any message depends on: an unsent conversation or a blocking message. */
  function DependentObject(w: World, other: Option<int>): Option<Dependency> {
    if w.conversation.None? then None
    else
      var c := w.conversation.value;
      if c.needsUpdate then Some(RefetchConversation)
      else if IsPersonal(c) && c.connection.Some? && c.connection.value in w.staleConnections then
        Some(RefetchConnection(c.connection.value))
      else if MissesActiveClient(w, c) then Some(FetchMissingClients)
      else if other.Some? then Some(Other(other.value)) else None
  }

  // ----- The message, on the objects it updates

  class ZMOTRMessage {
    const message: Message
    var ctx: Context
    var clients: set<Client>
    var ignored: set<Client>
    var conversation: Option<Conversation>
    var userConnections: map<User, Connection>
    var staleConnections: set<Connection>
    var nextConnection: Connection
    var selfClientDeleted: bool
    var missingKeyModified: bool

    ghost function State(): World
      reads this
    {
      World(ctx, clients, ignored, conversation, userConnections, staleConnections, nextConnection, selfClientDeleted)
    }

    constructor (message: Message, w: World)
      ensures State() == w && this.message == message && !missingKeyModified
    {
      this.message := message;
      ctx, clients, ignored, conversation := w.ctx, w.clients, w.ignored, w.conversation;
      userConnections, staleConnections, nextConnection := w.userConnections, w.staleConnections, w.nextConnection;
      selfClientDeleted, missingKeyModified := w.selfClientDeleted, false;
    }

    method CheckIfMissingActiveParticipant(user: User)
      requires conversation.Some?
      modifies this
      ensures State() == ParticipantChecked(old(State()), user) && missingKeyModified == old(missingKeyModified)
    {
      var c := conversation.value;
      if user in c.activeParticipants {
        return;
      }
      c := c.(needsUpdate := true);
      if IsPersonal(c) {
        if user !in userConnections {
          if c.connection.None? {
            userConnections := userConnections[user := nextConnection];
            c := c.(connection := Some(nextConnection));
            nextConnection := nextConnection + 1;
          } else {
            userConnections := userConnections[user := c.connection.value];
          }
        }
      } else if c.connection.None? {
        c := c.(connection := if user in userConnections then Some(userConnections[user]) else None);
      }
      if user in userConnections {
        staleConnections := staleConnections + {userConnections[user]};
      }
      conversation := Some(c);
    }

    method ProcessMissingClients(missingMap: seq<UserClients>) returns (retry: bool)
      modifies this
      ensures State() == MissingProcessed(old(State()), message, missingMap)
                && missingKeyModified == old(missingKeyModified)
      ensures retry <==> Reported(missingMap) != {}
    {
      var all: set<Client> := {};
      var k := 0;
      while k < |missingMap|
        invariant 0 <= k <= |missingMap|
        invariant State() == UsersChecked(old(State()), missingMap[..k])
                  && missingKeyModified == old(missingKeyModified)
        invariant all == Reported(missingMap[..k])
      {
        UserMore(old(State()), missingMap, k);
        var fetched := ClientsOf(missingMap[k]);
        clients := clients + fetched;
        if conversation.Some? {
          CheckIfMissingActiveParticipant(Known(missingMap[k].userId));
        }
        all := all + fetched;
        k := k + 1;
      }
      assert missingMap[..k] == missingMap;
      RegistersNewMissingClients(all);
      retry := all != {};
    }

    method RegistersNewMissingClients(missing: set<Client>)
      modifies this`ctx, this`ignored
      ensures ctx == Registered(old(ctx), message, missing) && ignored == old(ignored) + missing
    {
      if missing != {} {
        ctx := ctx.(missing := ctx.missing + missing);
        ctx := ctx.(waiting := ctx.waiting + set c | c in missing :: (message, c));
        ignored := ignored + missing;
      }
    }

    method ProcessDeletedClients(deletedMap: seq<UserClients>)
      modifies this`clients, this`ctx
      ensures State() == Forgotten(old(State()), old(clients) * Reported(deletedMap))
    {
      var gone: set<Client> := {};
      var k := 0;
      while k < |deletedMap|
        invariant 0 <= k <= |deletedMap|
        invariant gone == clients * Reported(deletedMap[..k])
      {
        assert deletedMap[..k + 1][..k] == deletedMap[..k];
        gone := gone + set c | c in clients && c in ClientsOf(deletedMap[k]);
        k := k + 1;
      }
      assert deletedMap[..k] == deletedMap;
      DeleteAll(gone);
    }

    method DeleteAll(gone: set<Client>)
      modifies this`clients, this`ctx
      ensures State() == Forgotten(old(State()), gone)
    {
      var rest := gone;
      ghost var done: set<Client> := {};
      ForgottenNone(State());
      while rest != {}
        invariant done + rest == gone && done !! rest
        invariant State() == Forgotten(old(State()), done)
        decreases |rest|
      {
        var c :| c in rest;
        ForgottenMore(old(State()), done, c);
        DeleteClientAndEndSession(c);
        rest := rest - {c};
        done := done + {c};
      }
      assert done == gone;
    }

    method DeleteClientAndEndSession(c: Client)
      modifies this`clients, this`ctx
      ensures State() == Forgotten(old(State()), {c})
    {
      clients := clients - {c};
      ctx := Context(ctx.missing - {c}, NotWaitingFor(ctx.waiting, {c}), ctx.sessions - {c}, ctx.failed - {c});
    }

    /** `parseUploadResponse`: whether the upload has to be repeated once the missing clients are known. */
    method ParseUploadResponse(response: UploadResponse) returns (retry: bool)
      modifies this
      ensures (State(), retry) == Parsed(old(State()), message, response)
      ensures missingKeyModified == old(missingKeyModified)
      ensures retry ==> forall other :: DependentObject(State(), other).Some? <==> old(conversation).Some?
    {
      ReportBlocksMessage(State(), message, response);
      if SaysUnknownClient(response) {
        selfClientDeleted := true;
        return false;
      }
      if response.payload.None? {
        return false;
      }
      var payload := response.payload.value;
      if payload.deleted.Some? {
        ProcessDeletedClients(payload.deleted.value);
      }
      if payload.missing.Some? {
        retry := ProcessMissingClients(payload.missing.value);
      } else {
        retry := false;
      }
    }

    /** `dependendObjectNeedingUpdateBeforeProcessing`: depending on clients also has them fetched again. */
    method DependendObjectNeedingUpdateBeforeProcessing(other: Option<int>) returns (r: Option<Dependency>)
      modifies this`missingKeyModified
      ensures r == DependentObject(State(), other)
      ensures missingKeyModified == (old(missingKeyModified) || r == Some(FetchMissingClients))
    {
      r := None;
      if conversation.Some? {
        var c := conversation.value;
        if c.needsUpdate {
          return Some(RefetchConversation);
        }
        if IsPersonal(c) && c.connection.Some? && c.connection.value in staleConnections {
          return Some(RefetchConnection(c.connection.value));
        }
        var active := set client | client in clients && client.user.Some? && client.user.value in c.activeParticipants;
        if client :| client in ctx.missing * active { assert MissesActiveClient(State(), c); }
        if MissesActiveClient(State(), c) {
          ghost var client :| && client in ctx.missing && client in clients
                              && client.user.Some? && client.user.value in c.activeParticipants;
          assert client in ctx.missing * active;
        }
        if ctx.missing * active != {} {
          missingKeyModified := true;
          return Some(FetchMissingClients);
        }
        r := if other.Some? then Some(Other(other.value)) else None;
      }
    }
  }

  // ----- No endless resending

  lemma ForgottenNone(w: World)
    ensures Forgotten(w, {}) == w
  {
  }

  lemma ForgottenMore(w: World, gone: set<Client>, c: Client)
    ensures Forgotten(Forgotten(w, gone), {c}) == Forgotten(w, gone + {c})
  {
  }

  predicate OutOfSync(entries: seq<UserClients>, participants: set<User>) {
    exists i :: 0 <= i < |entries| && Known(entries[i].userId) !in participants
  }

  lemma OutOfSyncSnoc(entries: seq<UserClients>, participants: set<User>)
    requires entries != []
    ensures OutOfSync(entries, participants) <==>
              OutOfSync(entries[..|entries| - 1], participants) || Known(entries[|entries| - 1].userId) !in participants
  {
  }

  lemma ParticipantCheckedEffect(w: World, user: User)
    requires w.conversation.Some?
    ensures var w', c := ParticipantChecked(w, user), w.conversation.value;
            && w'.ctx == w.ctx && w'.clients == w.clients && w'.conversation.Some?
            && w'.ignored == w.ignored && w'.selfClientDeleted == w.selfClientDeleted
            && var c' := w'.conversation.value;
            && c'.activeParticipants == c.activeParticipants && c'.kind == c.kind
            && (c'.needsUpdate <==> c.needsUpdate || user !in c.activeParticipants)
            && (IsPersonal(c) && user !in c.activeParticipants ==> HasStaleConnection(w', user))
            && (forall u :: HasStaleConnection(w, u) ==> HasStaleConnection(w', u))
            && (user !in c.activeParticipants && user in w'.userConnections ==> HasStaleConnection(w', user))
            && (c.connection.Some? ==> c'.connection == c.connection)
            && (c.connection.None? && user !in c.activeParticipants
                && (IsPersonal(c) ==> user !in w.userConnections) ==>
                  c'.connection == if user in w'.userConnections then Some(w'.userConnections[user]) else None)
  {
  }

  /** A reported user outside the conversation flags it, and the whole rest: in a personal conversation such a user gets
      its connection, a new one if there is none; a group without a connection takes the user's; and the user's own
      connection, if there is one by now, is stale. */
  lemma OutsiderEffect(w: World, user: User)
    requires w.conversation.Some? && user !in w.conversation.value.activeParticipants
    ensures var w', c := ParticipantChecked(w, user), w.conversation.value;
            var personal := c.kind == OneOnOne || c.kind == PendingConnection;
            var given := personal && user !in w.userConnections;
            var connection := if c.connection.Some? then c.connection.value else w.nextConnection;
            && w'.userConnections == (if given then w.userConnections[user := connection] else w.userConnections)
            && w'.nextConnection == w.nextConnection + (if given && c.connection.None? then 1 else 0)
            && w'.staleConnections
               == w.staleConnections + (if user in w'.userConnections then {w'.userConnections[user]} else {})
            && w'.conversation == Some(c.(needsUpdate := true, connection := w'.conversation.value.connection))
            && w'.conversation.value.connection
               == (if c.connection.Some? || (personal && !given) || user !in w'.userConnections then c.connection
                   else Some(w'.userConnections[user]))
            && w'.ctx == w.ctx && w'.clients == w.clients && w'.ignored == w.ignored
            && w'.selfClientDeleted == w.selfClientDeleted
  {
  }

  /** A participant, or a message without a conversation, changes nothing. */
  lemma ParticipantEffect(w: World, user: User)
    requires w.conversation.None? || user in w.conversation.value.activeParticipants
    ensures ParticipantChecked(w, user) == w
  {
  }

  /** Checking the reported users creates their clients, keeps the participants, flags the conversation
      exactly when one of them is no participant, and in a personal conversation leaves such a user with
      a stale connection. */
  ghost predicate CheckedEffect(w: World, w': World, entries: seq<UserClients>) {
    && w'.ctx == w.ctx && w'.clients == w.clients + Reported(entries)
    && w'.ignored == w.ignored && w'.selfClientDeleted == w.selfClientDeleted
    && w.conversation.None? == w'.conversation.None?
    && (w.conversation.Some? ==>
          var c, c' := w.conversation.value, w'.conversation.value;
          && c'.activeParticipants == c.activeParticipants && c'.kind == c.kind
          && (c'.needsUpdate <==> c.needsUpdate || OutOfSync(entries, c.activeParticipants))
          && (IsPersonal(c) ==> forall i :: 0 <= i < |entries| ==> InSync(w', entries[i].userId)))
  }

  predicate InSync(w: World, userId: UserId)
    requires w.conversation.Some?
  {
    Known(userId) in w.conversation.value.activeParticipants || HasStaleConnection(w, Known(userId))
  }

  lemma {:induction false} UsersCheckedEffect(w: World, entries: seq<UserClients>)
    ensures CheckedEffect(w, UsersChecked(w, entries), entries)
  {
    if entries != [] {
      var n := |entries| - 1;
      var before, after, last := UsersChecked(w, entries[..n]), UsersChecked(w, entries), entries[n];
      UsersCheckedEffect(w, entries[..n]);
      if w.conversation.Some? {
        ParticipantCheckedEffect(before.(clients := before.clients + ClientsOf(last)), Known(last.userId));
        OutOfSyncSnoc(entries, w.conversation.value.activeParticipants);
        if IsPersonal(w.conversation.value) {
          forall i | 0 <= i < |entries| ensures InSync(after, entries[i].userId) {
            if i < n { assert InSync(before, entries[..n][i].userId); }
          }
        }
      }
    }
  }

  predicate HasStaleConnection(w: World, user: User) {
    user in w.userConnections && w.userConnections[user] in w.staleConnections
  }

  /** A client is named in a missing or deleted map under the identifier of its user. */
  ghost predicate NamedIn(entries: seq<UserClients>, c: Client) {
    exists i, k :: NamedAt(entries, i, k, c)
  }

  predicate NamedAt(entries: seq<UserClients>, i: int, k: int, c: Client) {
    && 0 <= i < |entries| && 0 <= k < |entries[i].clientIds|
    && c.user == Some(Known(entries[i].userId)) && c.remoteIdentifier == entries[i].clientIds[k]
  }

  lemma {:induction false} ReportedIff(entries: seq<UserClients>, c: Client)
    ensures c in Reported(entries) <==> NamedIn(entries, c)
  {
    if entries != [] {
      var n := |entries| - 1;
      ReportedIff(entries[..n], c);
      if c in ClientsOf(entries[n]) {
        var k :| && 0 <= k < |entries[n].clientIds|
                 && c == Client(entries[n].clientIds[k], Some(Known(entries[n].userId)));
        assert NamedAt(entries, n, k, c);
      }
      if NamedIn(entries[..n], c) {
        var i, k :| NamedAt(entries[..n], i, k, c);
        assert NamedAt(entries, i, k, c);
      }
      if NamedIn(entries, c) {
        var i, k :| NamedAt(entries, i, k, c);
        if i < n {
          assert NamedAt(entries[..n], i, k, c);
        } else {
          assert c == Client(entries[n].clientIds[k], Some(Known(entries[n].userId)));
        }
      }
    }
  }

  lemma {:induction false} ReportedBy(entries: seq<UserClients>, c: Client)
    requires c in Reported(entries)
    ensures exists i :: 0 <= i < |entries| && c.user == Some(Known(entries[i].userId))
  {
    var n := |entries| - 1;
    if c in Reported(entries[..n]) {
      ReportedBy(entries[..n], c);
      var i :| 0 <= i < n && c.user == Some(Known(entries[..n][i].userId));
      assert entries[i] == entries[..n][i];
    }
  }

  /** A response that asks for the upload to be repeated blocks the message: it is not sent again before
      the conversation, its connection or the missing clients have been fetched. */
  lemma {:induction false} ReportBlocksMessage(w: World, message: Message, response: UploadResponse)
    ensures var (w', retry) := Parsed(w, message, response);
            retry ==> forall other :: DependentObject(w', other).Some? <==> w.conversation.Some?
  {
    var (w', retry) := Parsed(w, message, response);
    if retry {
      var payload := response.payload.value;
      var base := if payload.deleted.Some? then Forgotten(w, w.clients * Reported(payload.deleted.value)) else w;
      var entries := payload.missing.value;
      UsersCheckedEffect(base, entries);
      if w.conversation.Some? && !w'.conversation.value.needsUpdate {
        var client :| client in Reported(entries);
        ReportedBy(entries, client);
        var i :| 0 <= i < |entries| && client.user == Some(Known(entries[i].userId));
        assert Known(entries[i].userId) in w.conversation.value.activeParticipants;
        assert MissesActiveClient(w', w'.conversation.value);
      }
    }
  }

  /** The reported clients are exactly what is newly missing, and every one of them is waited for. */
  lemma {:induction false} ReportRegisters(w: World, message: Message, response: UploadResponse)
    ensures var (w', retry) := Parsed(w, message, response);
            && (WaitingAreMissing(w.ctx) ==> WaitingAreMissing(w'.ctx))
            && (retry ==> var reported := Reported(response.payload.value.missing.value);
                          && reported <= w'.ctx.missing <= w.ctx.missing + reported
                          && (forall c :: c in reported ==> c in w'.clients && (message, c) in w'.ctx.waiting)
                          && (forall p :: p in w'.ctx.waiting ==>
                              p in w.ctx.waiting || (p.0 == message && p.1 in reported)))
  {
    var (w', retry) := Parsed(w, message, response);
    if response.payload.Some? && !SaysUnknownClient(response) && response.payload.value.missing.Some? {
      var payload := response.payload.value;
      var base := if payload.deleted.Some? then Forgotten(w, w.clients * Reported(payload.deleted.value)) else w;
      UsersCheckedEffect(base, payload.missing.value);
    }
  }

  /** What a response to an upload names as missing, and as deleted. */
  ghost predicate NamesMissing(response: UploadResponse, c: Client) {
    && response.payload.Some? && response.payload.value.missing.Some?
    && NamedIn(response.payload.value.missing.value, c)
  }

  ghost predicate NamesDeleted(response: UploadResponse, c: Client) {
    && response.payload.Some? && response.payload.value.deleted.Some?
    && NamedIn(response.payload.value.deleted.value, c)
  }

  /** A response that tells of the deletion of the own client does that and nothing else; no other does it. */
  lemma {:induction false} OwnDeletionDetected(w: World, message: Message, response: UploadResponse)
    ensures var (w', retry) := Parsed(w, message, response);
            var told := && response.httpStatus == 403 && response.payload.Some?
                        && response.payload.value.errorLabel == Some("unknown-client");
            && (w'.selfClientDeleted <==> w.selfClientDeleted || told)
            && (told ==> w' == w.(selfClientDeleted := true) && !retry)
            && (response.payload.None? ==> w' == w && !retry)
  {
    if response.payload.Some? && !SaysUnknownClient(response) && response.payload.value.missing.Some? {
      var payload := response.payload.value;
      var base := if payload.deleted.Some? then Forgotten(w, w.clients * Reported(payload.deleted.value)) else w;
      UsersCheckedEffect(base, payload.missing.value);
    }
  }

  /** The whole effect of any other response on a client: what is named as missing is known, missing, waited for and
      ignored; what is named as deleted and not as missing again is in no relation any more; the upload is repeated
      exactly if any client is named as missing. */
  lemma {:induction false} ResponseEffect(w: World, message: Message, response: UploadResponse, c: Client)
    requires !SaysUnknownClient(response)
    ensures var (w', retry) := Parsed(w, message, response);
            var missing, gone := NamesMissing(response, c), c in w.clients && NamesDeleted(response, c);
            && (c in w'.clients <==> missing || (c in w.clients && !gone))
            && (c in w'.ignored <==> missing || c in w.ignored)
            && (c in w'.ctx.missing <==> missing || (c in w.ctx.missing && !gone))
            && (c in w'.ctx.sessions <==> c in w.ctx.sessions && !gone)
            && (c in w'.ctx.failed <==> c in w.ctx.failed && !gone)
            && (forall m :: (m, c) in w'.ctx.waiting <==>
                              (missing && m == message) || ((m, c) in w.ctx.waiting && !gone))
            && (missing ==> retry)
  {
    if response.payload.Some? {
      var payload := response.payload.value;
      if payload.deleted.Some? { ReportedIff(payload.deleted.value, c); }
      if payload.missing.Some? {
        ReportedIff(payload.missing.value, c);
        var base := if payload.deleted.Some? then Forgotten(w, w.clients * Reported(payload.deleted.value)) else w;
        UsersCheckedEffect(base, payload.missing.value);
      }
    }
  }

  lemma {:induction false} RepeatedIff(w: World, message: Message, response: UploadResponse)
    ensures Parsed(w, message, response).1 <==> !SaysUnknownClient(response) && exists c :: NamesMissing(response, c)
  {
    if response.payload.Some? && response.payload.value.missing.Some? {
      var entries := response.payload.value.missing.value;
      if c :| c in Reported(entries) {
        ReportedIff(entries, c);
        assert NamesMissing(response, c);
      }
      if c :| NamesMissing(response, c) {
        ReportedIff(entries, c);
      }
    }
  }

  /** What a message depends on, in this order: a stale conversation, the stale connection of a personal one, clients of
      its participants that are missing, and what any message depends on. */
  lemma DependencyIff(w: World, other: Option<int>)
    ensures var r := DependentObject(w, other);
            if w.conversation.None? then r == None
            else
              var c := w.conversation.value;
              var stale := && c.kind in {OneOnOne, PendingConnection} && c.connection.Some?
                           && c.connection.value in w.staleConnections;
              var misses := exists client :: && client in w.ctx.missing && client in w.clients
                                             && client.user.Some? && client.user.value in c.activeParticipants;
              && (r == Some(RefetchConversation) <==> c.needsUpdate)
              && (r == Some(FetchMissingClients) <==> !c.needsUpdate && !stale && misses)
              && (forall k :: r == Some(RefetchConnection(k)) <==> !c.needsUpdate && stale && c.connection == Some(k))
              && (forall k :: r == Some(Other(k)) <==> !c.needsUpdate && !stale && !misses && other == Some(k))
  {
  }

  /** Clients reported as deleted, and not as missing again, are gone from every relation; all others are kept. */
  lemma DeletedAreForgotten(w: World, message: Message, response: UploadResponse, c: Client)
    requires response.payload.Some? && response.payload.value.deleted.Some? && !SaysUnknownClient(response)
    requires response.payload.value.missing.Some? ==> c !in Reported(response.payload.value.missing.value)
    ensures var w', gone := Parsed(w, message, response).0, c in Reported(response.payload.value.deleted.value);
            && (c in w'.clients <==> c in w.clients && !gone)
            && (c in w'.ctx.missing <==> c in w.ctx.missing && !(gone && c in w.clients))
            && (forall m :: (m, c) in w'.ctx.waiting <==> (m, c) in w.ctx.waiting && !(gone && c in w.clients))
            && (c in w'.ctx.sessions <==> c in w.ctx.sessions && !(gone && c in w.clients))
            && (c in w'.ctx.failed <==> c in w.ctx.failed && !(gone && c in w.clients))
  {
    var payload := response.payload.value;
    if payload.missing.Some? {
      UsersCheckedEffect(Forgotten(w, w.clients * Reported(payload.deleted.value)), payload.missing.value);
    }
  }

  /** A message that depends only on missing clients is free exactly once no client of its own conversation is
      missing. That takes at most as many rounds as there are missing clients, even in a recovery that never ends
      because some of them have no user. */
  lemma {:induction false} RecoveryReleasesMessage(w: World, trace: seq<Context>, pageSize: int,
                                                   rounds: seq<Round>, n: nat)
    requires w.conversation.Some? && pageSize >= 1 && Recovery(trace, pageSize, rounds)
              && n <= |rounds| && trace[0] == w.ctx
    requires DependentObject(w, None) == Some(FetchMissingClients)
    ensures DependentObject(w.(ctx := trace[n]), None)
            == if MissesActiveClient(w.(ctx := trace[n]), w.conversation.value) then Some(FetchMissingClients) else None
    ensures MissesActiveClient(w.(ctx := trace[n]), w.conversation.value) ==> n + |trace[n].missing| <= |w.ctx.missing|
    ensures (forall c :: c in w.ctx.missing ==> c.user.Some?) ==> n + |trace[n].missing| <= |w.ctx.missing|
    ensures n >= |w.ctx.missing| || trace[n].missing == {} ==> DependentObject(w.(ctx := trace[n]), None) == None
  {
    AskableBounded(trace, pageSize, rounds, n);
    if forall c :: c in w.ctx.missing ==> c.user.Some? { RecoveryTerminates(trace, pageSize, rounds, n); }
    if client :| client in trace[n].missing && client.user.Some? {
      assert HasAskable(trace[n]);
    }
  }
}
