/** Fetching the prekeys of missing clients, page by page
    (Source/Synchronization/Strategies/UserClientRequestStrategy.swift), and registering clients as
    missing (Source/Synchronization/ZMOTRMessage+Missing.swift).

    A reply is whatever the backend sends: a sequence stands for a dictionary in the order it is
    enumerated, and each prekey carries whether the cryptographic session could be established with it.
 */
module MissingClientRecovery {
  import opened Options
  import opened Clients
  import opened MissingClientsPage

  datatype PrekeyData = Prekey(establishes: bool) | NoPrekey

  datatype Entry = Entry(clientId: ClientId, data: PrekeyData)

  /** `isUuid` is false for a user key that is not a valid identifier. */
  datatype UserEntry = UserEntry(isUuid: bool, clients: seq<Entry>)

  datatype Reply = Malformed | WellFormed(users: seq<UserEntry>)

  /** `waiting` pairs each message with the clients it misses. */
  datatype Context = Context(missing: set<Client>, waiting: set<(Message, Client)>,
                             sessions: set<Client>, failed: set<Client>)

  /** The look-up table by remote identifier; which client stands for a shared identifier is open. */
  ghost predicate IsLookup(missing: set<Client>, lookup: map<ClientId, Client>) {
    && (forall c :: c in missing ==> c.remoteIdentifier in lookup)
    && (forall id :: id in lookup ==> lookup[id] in missing && lookup[id].remoteIdentifier == id)
  }

  // ----- What a reply does, entry by entry

  function NotWaitingFor(waiting: set<(Message, Client)>, clients: set<Client>): set<(Message, Client)> {
    set p | p in waiting && p.1 !in clients
  }

  function AfterEntry(ctx: Context, c: Client, data: PrekeyData): Context {
    var established := data.Prekey? && data.establishes;
    Context(ctx.missing - {c}, NotWaitingFor(ctx.waiting, {c}),
            if established then ctx.sessions + {c} else ctx.sessions,
            if established then ctx.failed - {c} else ctx.failed + {c})
  }

  function AfterEntries(ctx: Context, lookup: map<ClientId, Client>, entries: seq<Entry>): Context {
    if entries == [] then ctx
    else
      var before, last := AfterEntries(ctx, lookup, entries[..|entries| - 1]), entries[|entries| - 1];
      if last.clientId in lookup then AfterEntry(before, lookup[last.clientId], last.data) else before
  }

  function Cleared(ctx: Context, clients: set<Client>): Context {
    Context(ctx.missing - clients, NotWaitingFor(ctx.waiting, clients), ctx.sessions, ctx.failed + clients)
  }

  /** The entries under valid user ids, in order. */
  function Entries(users: seq<UserEntry>): seq<Entry> {
    if users == [] then []
    else Entries(users[..|users| - 1]) + if users[|users| - 1].isUuid then users[|users| - 1].clients else []
  }

  function Named(entries: seq<Entry>): set<ClientId> {
    set i | 0 <= i < |entries| :: entries[i].clientId
  }

  function Asked(requested: seq<ClientId>, lookup: map<ClientId, Client>): set<ClientId> {
    set i | 0 <= i < |requested| && requested[i] in lookup :: requested[i]
  }

  function ClientsFor(ids: set<ClientId>, lookup: map<ClientId, Client>): set<Client> {
    set id | id in ids && id in lookup :: lookup[id]
  }

  function AfterReply(ctx: Context, lookup: map<ClientId, Client>,
                      requested: seq<ClientId>, users: seq<UserEntry>): Context {
    var entries := Entries(users);
    var asked := Asked(requested, lookup);
    var remaining := asked - Named(entries);
    var ctx' := AfterEntries(ctx, lookup, entries);
    if |remaining| == |asked| then Cleared(ctx', ClientsFor(remaining, lookup)) else ctx'
  }

  // ----- The strategy, on the fields it updates

  class UserClientRequestStrategy {
    var missingClients: set<Client>
    var missingRecipients: set<(Message, Client)>
    var sessions: set<Client>
    var failedToEstablishSession: set<Client>

    ghost function State(): Context
      reads this
    {
      Context(missingClients, missingRecipients, sessions, failedToEstablishSession)
    }

    method CleanMessagesMissingRecipient(client: Client)
      modifies this`missingRecipients
      ensures State() == old(State()).(waiting := NotWaitingFor(old(missingRecipients), {client}))
    {
      var blocked := set p | p in missingRecipients && p.1 == client;
      while blocked != {}
        invariant forall p :: p in missingRecipients + blocked <==>
                  p in old(missingRecipients) && (p.1 != client || p in blocked)
        invariant forall p :: p in blocked ==> p.1 == client
        decreases |blocked|
      {
        var p :| p in blocked;
        missingRecipients := missingRecipients - {p};
        blocked := blocked - {p};
      }
    }

    method ClearMissingMessagesBecauseClientCanNotBeFetched(client: Client)
      modifies this
      ensures State() == Cleared(old(State()), {client})
    {
      failedToEstablishSession := failedToEstablishSession + {client};
      CleanMessagesMissingRecipient(client);
      missingClients := missingClients - {client};
    }

    method EstablishSessionAndUpdateMissingClients(client: Client, sessionCreated: bool)
      modifies this
      ensures State() == AfterEntry(old(State()), client, Prekey(sessionCreated))
    {
      if sessionCreated {
        sessions := sessions + {client};
        failedToEstablishSession := failedToEstablishSession - {client};
      } else {
        failedToEstablishSession := failedToEstablishSession + {client};
      }
      CleanMessagesMissingRecipient(client);
      missingClients := missingClients - {client};
    }

    method ProcessPrekeyEntry(client: Client, data: PrekeyData)
      modifies this
      ensures State() == AfterEntry(old(State()), client, data)
    {
      if data.Prekey? {
        EstablishSessionAndUpdateMissingClients(client, data.establishes);
      } else {
        ClearMissingMessagesBecauseClientCanNotBeFetched(client);
      }
    }

    method MissingUserClientIdToUserClientMap() returns (lookup: map<ClientId, Client>)
      ensures IsLookup(missingClients, lookup)
    {
      lookup := map[];
      var rest := missingClients;
      while rest != {}
        invariant rest <= missingClients
        invariant forall c :: c in missingClients - rest ==> c.remoteIdentifier in lookup
        invariant forall id :: id in lookup ==> lookup[id] in missingClients && lookup[id].remoteIdentifier == id
        decreases |rest|
      {
        var c :| c in rest;
        lookup := lookup[c.remoteIdentifier := c];
        rest := rest - {c};
      }
    }

    method ProcessUser(user: UserEntry, lookup: map<ClientId, Client>, remaining: set<ClientId>)
      returns (remaining': set<ClientId>)
      modifies this
      ensures State() == AfterEntries(old(State()), lookup, if user.isUuid then user.clients else [])
      ensures remaining' == remaining - Named(if user.isUuid then user.clients else [])
    {
      remaining' := remaining;
      if !user.isUuid {
        return;
      }
      var k := 0;
      while k < |user.clients|
        invariant 0 <= k <= |user.clients|
        invariant State() == AfterEntries(old(State()), lookup, user.clients[..k])
        invariant remaining' == remaining - Named(user.clients[..k])
      {
        EntryMore(old(State()), lookup, user.clients, k);
        var entry := user.clients[k];
        remaining' := remaining' - {entry.clientId};
        if entry.clientId in lookup {
          ProcessPrekeyEntry(lookup[entry.clientId], entry.data);
        }
        k := k + 1;
      }
      assert user.clients[..k] == user.clients;
    }

    /** Returns whether more requests are needed. */
    method ProcessResponseForUpdatingMissingClients(requested: seq<ClientId>, reply: Reply)
      returns (more: bool, ghost lookup: map<ClientId, Client>)
      modifies this
      ensures IsLookup(old(missingClients), lookup)
      ensures reply.Malformed? ==> !more && State() == old(State())
      ensures reply.WellFormed? ==> more == (missingClients != {})
      ensures reply.WellFormed? ==> State() == AfterReply(old(State()), lookup, requested, reply.users)
    {
      var table := MissingUserClientIdToUserClientMap();
      lookup := table;
      if reply.Malformed? {
        return false, lookup;
      }
      var asked := Asked(requested, table);
      var remaining := asked;
      ghost var entries: seq<Entry> := [];
      var k := 0;
      while k < |reply.users|
        invariant 0 <= k <= |reply.users|
        invariant entries == Entries(reply.users[..k])
        invariant State() == AfterEntries(old(State()), table, entries)
        invariant remaining == asked - Named(entries)
      {
        var user := reply.users[k];
        ghost var more := if user.isUuid then user.clients else [];
        assert reply.users[..k + 1][..k] == reply.users[..k];
        AfterEntriesConcat(old(State()), table, entries, more);
        NamedConcat(entries, more);
        remaining := ProcessUser(user, table, remaining);
        entries := entries + more;
        k := k + 1;
      }
      assert reply.users[..k] == reply.users;
      if |remaining| == |asked| {
        ClearAll(remaining, table);
      }
      more := missingClients != {};
    }

    method ClearAll(ids: set<ClientId>, lookup: map<ClientId, Client>)
      modifies this
      ensures State() == Cleared(old(State()), ClientsFor(ids, lookup))
    {
      var rest := ids;
      ghost var done: set<ClientId> := {};
      while rest != {}
        invariant done + rest == ids && done !! rest
        invariant State() == Cleared(old(State()), ClientsFor(done, lookup))
        decreases |rest|
      {
        var id :| id in rest;
        ClearedMore(old(State()), done, id, lookup);
        if id in lookup {
          ClearMissingMessagesBecauseClientCanNotBeFetched(lookup[id]);
        }
        rest := rest - {id};
        done := done + {id};
      }
    }
  }

  /** `registersNewMissingClients`: missing for the self client and for the message alike. */
  function Registered(ctx: Context, message: Message, clients: set<Client>): Context {
    ctx.(missing := ctx.missing + clients, waiting := ctx.waiting + set c | c in clients :: (message, c))
  }

  lemma NamedConcat(a: seq<Entry>, b: seq<Entry>)
    ensures Named(a + b) == Named(a) + Named(b)
  {
    forall id | id in Named(a) ensures id in Named(a + b) {
      var i :| 0 <= i < |a| && a[i].clientId == id;
      assert (a + b)[i] == a[i];
    }
    forall id | id in Named(b) ensures id in Named(a + b) {
      var i :| 0 <= i < |b| && b[i].clientId == id;
      assert (a + b)[|a| + i] == b[i];
    }
  }

  lemma NamedSnoc(a: seq<Entry>, e: Entry)
    ensures Named(a + [e]) == Named(a) + {e.clientId}
  {
    NamedConcat(a, [e]);
    assert Named([e]) == {e.clientId} by { assert [e][0] == e; }
  }

  lemma EntryMore(ctx: Context, lookup: map<ClientId, Client>, entries: seq<Entry>, k: nat)
    requires k < |entries|
    ensures Named(entries[..k + 1]) == Named(entries[..k]) + {entries[k].clientId}
    ensures var before, entry := AfterEntries(ctx, lookup, entries[..k]), entries[k];
            AfterEntries(ctx, lookup, entries[..k + 1])
            == if entry.clientId in lookup then AfterEntry(before, lookup[entry.clientId], entry.data) else before
  {
    assert entries[..k + 1][..k] == entries[..k];
    assert entries[..k + 1] == entries[..k] + [entries[k]];
    NamedSnoc(entries[..k], entries[k]);
  }

  lemma {:induction false} AfterEntriesConcat(ctx: Context, lookup: map<ClientId, Client>, a: seq<Entry>, b: seq<Entry>)
    ensures AfterEntries(ctx, lookup, a + b) == AfterEntries(AfterEntries(ctx, lookup, a), lookup, b)
  {
    if b == [] {
      assert a + b == a;
    } else {
      var n := |b| - 1;
      assert (a + b)[..|a| + n] == a + b[..n];
      AfterEntriesConcat(ctx, lookup, a, b[..n]);
    }
  }

  lemma ClearedMore(ctx: Context, ids: set<ClientId>, id: ClientId, lookup: map<ClientId, Client>)
    ensures Cleared(ctx, ClientsFor(ids + {id}, lookup))
            == if id !in lookup then Cleared(ctx, ClientsFor(ids, lookup))
               else Cleared(Cleared(ctx, ClientsFor(ids, lookup)), {lookup[id]})
  {
  }

  // ----- The exact effect of a reply

  /** Whether the last entry for an identifier established a session. */
  function LastEstablishes(entries: seq<Entry>, id: ClientId): bool {
    if entries == [] then false
    else
      var last := entries[|entries| - 1];
      if last.clientId == id then last.data.Prekey? && last.data.establishes
      else LastEstablishes(entries[..|entries| - 1], id)
  }

  /** Whether any entry for an identifier established a session. */
  predicate SomeEstablishes(entries: seq<Entry>, id: ClientId) {
    && entries != []
    && var last := entries[|entries| - 1];
       || (last.clientId == id && last.data.Prekey? && last.data.establishes)
       || SomeEstablishes(entries[..|entries| - 1], id)
  }

  /** The named clients, and all those asked for when none of them is named. */
  function Gone(lookup: map<ClientId, Client>, requested: seq<ClientId>, users: seq<UserEntry>): set<Client> {
    var named, asked := Named(Entries(users)), Asked(requested, lookup);
    ClientsFor(named, lookup) + if asked !! named then ClientsFor(asked, lookup) else {}
  }

  /** The flags of a client that left say how its last entry went; a client that stayed keeps its flags. */
  ghost predicate Settled(ctx: Context, ctx': Context, gone: set<Client>, entries: seq<Entry>) {
    && ctx'.missing == ctx.missing - gone
    && ctx'.waiting == NotWaitingFor(ctx.waiting, gone)
    && (forall c :: c in gone ==> (c in ctx'.failed <==> !LastEstablishes(entries, c.remoteIdentifier)))
    && (forall c :: c in gone ==>
        (c in ctx'.sessions <==> c in ctx.sessions || SomeEstablishes(entries, c.remoteIdentifier)))
    && (forall c :: c !in gone ==>
        (c in ctx'.failed <==> c in ctx.failed) && (c in ctx'.sessions <==> c in ctx.sessions))
  }

  lemma {:induction false} EntriesSettle(ctx: Context, lookup: map<ClientId, Client>, entries: seq<Entry>)
    requires forall id :: id in lookup ==> lookup[id].remoteIdentifier == id
    ensures Settled(ctx, AfterEntries(ctx, lookup, entries), ClientsFor(Named(entries), lookup), entries)
  {
    if entries != [] {
      var n := |entries| - 1;
      var init, last := entries[..n], entries[n];
      EntriesSettle(ctx, lookup, init);
      assert entries == init + [last];
      NamedSnoc(init, last);
      EntrySettles(ctx, AfterEntries(ctx, lookup, init), lookup, init, last);
    }
  }

  lemma EntrySettles(ctx: Context, before: Context, lookup: map<ClientId, Client>, init: seq<Entry>, last: Entry)
    requires forall id :: id in lookup ==> lookup[id].remoteIdentifier == id
    requires Settled(ctx, before, ClientsFor(Named(init), lookup), init)
    ensures var after := if last.clientId in lookup then AfterEntry(before, lookup[last.clientId], last.data)
              else before;
            Settled(ctx, after, ClientsFor(Named(init) + {last.clientId}, lookup), init + [last])
  {
    var id := last.clientId;
    var gone, gone' := ClientsFor(Named(init), lookup), ClientsFor(Named(init) + {id}, lookup);
    assert (init + [last])[..|init|] == init;
    assert gone' == gone + if id in lookup then {lookup[id]} else {};
    if id !in Named(init) { UnnamedNotEstablished(init, id); }
    forall c | c in gone' ensures LastEstablishes(init + [last], c.remoteIdentifier)
                                  == if c.remoteIdentifier == id then last.data.Prekey? && last.data.establishes
                                     else LastEstablishes(init, c.remoteIdentifier) {
    }
    forall c | c in gone' ensures SomeEstablishes(init + [last], c.remoteIdentifier)
                                  <==> SomeEstablishes(init, c.remoteIdentifier)
                                       || (c.remoteIdentifier == id && last.data.Prekey? && last.data.establishes) {
    }
  }

  lemma CountUnchanged<T>(asked: set<T>, named: set<T>)
    ensures |asked - named| == |asked| <==> asked !! named
  {
    assert asked == (asked - named) + (asked * named);
    if asked !! named { assert asked - named == asked; }
  }

  lemma {:induction false} UnnamedNotEstablished(entries: seq<Entry>, id: ClientId)
    requires id !in Named(entries)
    ensures !SomeEstablishes(entries, id)
  {
    if entries != [] {
      var n := |entries| - 1;
      assert entries == entries[..n] + [entries[n]];
      NamedSnoc(entries[..n], entries[n]);
      UnnamedNotEstablished(entries[..n], id);
    }
  }

  lemma {:induction false} LastIsSome(entries: seq<Entry>, id: ClientId)
    requires LastEstablishes(entries, id)
    ensures SomeEstablishes(entries, id)
  {
    if entries[|entries| - 1].clientId != id { LastIsSome(entries[..|entries| - 1], id); }
  }

  /** So every client that left has a session or is marked as failed. */
  lemma SettledEitherWay(ctx: Context, ctx': Context, gone: set<Client>, entries: seq<Entry>)
    requires Settled(ctx, ctx', gone, entries)
    ensures gone <= ctx'.sessions + ctx'.failed
  {
    forall c | c in gone ensures c in ctx'.sessions || c in ctx'.failed {
      if LastEstablishes(entries, c.remoteIdentifier) { LastIsSome(entries, c.remoteIdentifier); }
    }
  }

  lemma ClearingSettles(ctx: Context, before: Context, gone: set<Client>, cleared: set<Client>, entries: seq<Entry>)
    requires Settled(ctx, before, gone, entries)
    requires forall c :: c in cleared ==> !SomeEstablishes(entries, c.remoteIdentifier)
    ensures Settled(ctx, Cleared(before, cleared), gone + cleared, entries)
  {
    forall c | c in cleared ensures !LastEstablishes(entries, c.remoteIdentifier) {
      if LastEstablishes(entries, c.remoteIdentifier) { LastIsSome(entries, c.remoteIdentifier); }
    }
  }

  /** After its entries are processed, a reply that names none of the clients asked for clears them all. */
  lemma ReplyAsEntries(ctx: Context, lookup: map<ClientId, Client>, requested: seq<ClientId>, users: seq<UserEntry>)
    ensures var entries, asked := Entries(users), Asked(requested, lookup);
            AfterReply(ctx, lookup, requested, users)
            == if asked !! Named(entries) then Cleared(AfterEntries(ctx, lookup, entries), ClientsFor(asked, lookup))
               else AfterEntries(ctx, lookup, entries)
  {
    var entries, asked := Entries(users), Asked(requested, lookup);
    CountUnchanged(asked, Named(entries));
    if asked !! Named(entries) { assert asked - Named(entries) == asked; }
  }

  lemma UnnamedCleared(ctx: Context, lookup: map<ClientId, Client>, asked: set<ClientId>, entries: seq<Entry>)
    requires IsLookup(ctx.missing, lookup) && asked !! Named(entries) && asked <= lookup.Keys
    ensures Settled(ctx, Cleared(AfterEntries(ctx, lookup, entries), ClientsFor(asked, lookup)),
                    ClientsFor(Named(entries), lookup) + ClientsFor(asked, lookup), entries)
  {
    EntriesSettle(ctx, lookup, entries);
    forall c | c in ClientsFor(asked, lookup) ensures !SomeEstablishes(entries, c.remoteIdentifier) {
      UnnamedNotEstablished(entries, c.remoteIdentifier);
    }
    ClearingSettles(ctx, AfterEntries(ctx, lookup, entries), ClientsFor(Named(entries), lookup),
                    ClientsFor(asked, lookup), entries);
  }

  /** Exactly these clients leave the missing set, with every message that waited for them. */
  lemma {:induction false} ReplySettles(ctx: Context, lookup: map<ClientId, Client>, requested: seq<ClientId>,
                                        users: seq<UserEntry>)
    requires IsLookup(ctx.missing, lookup)
    ensures Settled(ctx, AfterReply(ctx, lookup, requested, users), Gone(lookup, requested, users), Entries(users))
    ensures Gone(lookup, requested, users) <= ctx.missing
  {
    var entries, asked := Entries(users), Asked(requested, lookup);
    ReplyAsEntries(ctx, lookup, requested, users);
    if asked !! Named(entries) {
      UnnamedCleared(ctx, lookup, asked, entries);
    } else {
      EntriesSettle(ctx, lookup, entries);
      assert Gone(lookup, requested, users) == ClientsFor(Named(entries), lookup);
    }
  }

  ghost predicate UniqueIds(missing: set<Client>) {
    forall c, d :: c in missing && d in missing && c.remoteIdentifier == d.remoteIdentifier ==> c == d
  }

  /** With unique identifiers the clients that leave do not depend on the look-up table. */
  lemma {:induction false} GoneByIdentifier(ctx: Context, lookup: map<ClientId, Client>, requested: seq<ClientId>,
                                            users: seq<UserEntry>)
    requires IsLookup(ctx.missing, lookup) && UniqueIds(ctx.missing)
    ensures var named := Named(Entries(users));
            var asked := set c | c in ctx.missing && c.remoteIdentifier in requested;
            Gone(lookup, requested, users)
            == (set c | c in ctx.missing && c.remoteIdentifier in named)
               + if forall c :: c in asked ==> c.remoteIdentifier !in named then asked else {}
  {
  }

  // ----- Rounds of request and reply

  /** The missing clients in the order they are enumerated, the look-up table and the reply's users. */
  datatype Round = Round(order: seq<Client>, lookup: map<ClientId, Client>, users: seq<UserEntry>)

  ghost predicate ValidRound(ctx: Context, r: Round) {
    (forall c :: c in r.order <==> c in ctx.missing) && IsLookup(ctx.missing, r.lookup)
  }

  function AfterRound(ctx: Context, pageSize: int, r: Round): Context {
    AfterReply(ctx, r.lookup, ClientIds(Page(WithUser(r.order), pageSize)), r.users)
  }

  /** Another round follows only while clients are missing. */
  ghost predicate Follows(ctx: Context, pageSize: int, r: Round, ctx': Context) {
    ctx.missing != {} && ValidRound(ctx, r) && ctx' == AfterRound(ctx, pageSize, r)
  }

  ghost predicate Recovery(trace: seq<Context>, pageSize: int, rounds: seq<Round>) {
    && |trace| == |rounds| + 1
    && forall n :: 0 <= n < |rounds| ==> Follows(trace[n], pageSize, rounds[n], trace[n + 1])
  }

  lemma {:induction false} WithUserMembers(clients: seq<Client>, c: Client)
    ensures c in WithUser(clients) <==> c in clients && c.user.Some?
  {
    if clients != [] {
      var n := |clients| - 1;
      assert clients == clients[..n] + [clients[n]];
      WithUserMembers(clients[..n], c);
    }
  }

  lemma PageEmptyIff(clients: seq<Client>, pageSize: int)
    ensures Page(WithUser(clients), pageSize) != [] <==> pageSize >= 1 && exists c :: c in clients && c.user.Some?
  {
    var all := WithUser(clients);
    var page := Page(all, pageSize);
    PageIsLongestPrefix(all, pageSize);
    if page != [] {
      WithUserMembers(clients, page[0]);
      assert page[0] == all[0];
      assert page[0].user.value in UsersOf(page);
      assert UsersOf(page) != {};
    }
    if c :| pageSize >= 1 && c in clients && c.user.Some? {
      WithUserMembers(clients, c);
      PageIsNonEmpty(all, pageSize);
    }
  }

  lemma GoneNonEmptyIff(ctx: Context, lookup: map<ClientId, Client>, requested: seq<ClientId>, users: seq<UserEntry>)
    requires IsLookup(ctx.missing, lookup)
    ensures Gone(lookup, requested, users) != {} <==>
              || Asked(requested, lookup) != {}
              || exists c :: c in ctx.missing && c.remoteIdentifier in Named(Entries(users))
  {
    var named, asked, gone := Named(Entries(users)), Asked(requested, lookup), Gone(lookup, requested, users);
    if c :| c in gone {
      assert c in ctx.missing;
    }
    if x :| x in asked {
      if asked !! named {
        assert lookup[x] in gone;
      } else {
        var y :| y in asked && y in named;
        assert lookup[y] in gone;
      }
    }
    if c :| c in ctx.missing && c.remoteIdentifier in named {
      assert lookup[c.remoteIdentifier] in gone;
    }
  }

  lemma AskedNonEmptyIff(ctx: Context, pageSize: int, r: Round)
    requires ValidRound(ctx, r)
    ensures Asked(ClientIds(Page(WithUser(r.order), pageSize)), r.lookup) != {}
            <==> pageSize >= 1 && exists c :: c in ctx.missing && c.user.Some?
  {
    var page := Page(WithUser(r.order), pageSize);
    PageEmptyIff(r.order, pageSize);
    if page != [] {
      PageIsLongestPrefix(WithUser(r.order), pageSize);
      assert page[0] == WithUser(r.order)[0];
      WithUserMembers(r.order, page[0]);
      assert ClientIds(page)[0] == page[0].remoteIdentifier;
      assert page[0].remoteIdentifier in Asked(ClientIds(page), r.lookup);
    }
  }

  /** A round makes progress exactly when it asked for a client or the reply names a missing one;
      whatever else the reply says does not matter. */
  lemma {:induction false} RoundProgress(ctx: Context, pageSize: int, r: Round)
    requires ValidRound(ctx, r)
    ensures AfterRound(ctx, pageSize, r).missing <= ctx.missing
    ensures |AfterRound(ctx, pageSize, r).missing| < |ctx.missing| <==>
              || (pageSize >= 1 && exists c :: c in ctx.missing && c.user.Some?)
              || (exists c :: c in ctx.missing && c.remoteIdentifier in Named(Entries(r.users)))
  {
    var requested := ClientIds(Page(WithUser(r.order), pageSize));
    ReplySettles(ctx, r.lookup, requested, r.users);
    GoneNonEmptyIff(ctx, r.lookup, requested, r.users);
    AskedNonEmptyIff(ctx, pageSize, r);
    ShrinksIff(ctx.missing, Gone(r.lookup, requested, r.users));
  }

  lemma ShrinksIff<T>(all: set<T>, gone: set<T>)
    requires gone <= all
    ensures |all - gone| < |all| <==> gone != {}
  {
  }

  /** Some missing client has a user to ask for it by. */
  predicate HasAskable(ctx: Context) {
    exists c :: c in ctx.missing && c.user.Some?
  }

  lemma RoundAt(trace: seq<Context>, pageSize: int, rounds: seq<Round>, n: nat)
    requires pageSize >= 1 && Recovery(trace, pageSize, rounds) && n < |rounds|
    ensures trace[n].missing != {} && trace[n + 1].missing <= trace[n].missing
    ensures HasAskable(trace[n]) ==> |trace[n + 1].missing| < |trace[n].missing|
  {
    assert Follows(trace[n], pageSize, rounds[n], trace[n + 1]);
    RoundProgress(trace[n], pageSize, rounds[n]);
  }

  lemma AskableBefore(before: Context, after: Context)
    requires after.missing <= before.missing && HasAskable(after)
    ensures HasAskable(before)
  {
    var c :| c in after.missing && c.user.Some?;
    assert c in before.missing;
  }

  /** Whatever the backend answers and whoever else is missing: as long as some missing client has a user, every
      round so far has taken a client out, so that lasts for fewer rounds than clients were missing. */
  lemma {:induction false} AskableBounded(trace: seq<Context>, pageSize: int, rounds: seq<Round>, n: nat)
    requires pageSize >= 1 && Recovery(trace, pageSize, rounds) && n <= |rounds|
    ensures trace[n].missing <= trace[0].missing
    ensures HasAskable(trace[n]) ==> |trace[n].missing| + n <= |trace[0].missing|
    ensures n >= |trace[0].missing| ==> !HasAskable(trace[n])
    decreases n
  {
    if n > 0 {
      AskableBounded(trace, pageSize, rounds, n - 1);
      RoundAt(trace, pageSize, rounds, n - 1);
      if HasAskable(trace[n]) { AskableBefore(trace[n - 1], trace[n]); }
    }
  }

  lemma AllAskable(before: Context, after: Context)
    requires forall c :: c in before.missing ==> c.user.Some?
    requires after.missing <= before.missing && after.missing != {}
    ensures HasAskable(after)
  {
    var c :| c in after.missing;
    assert c.user.Some?;
  }

  /** Whatever the backend answers, the recovery of clients that have users ends within as many
      rounds as there are missing clients. */
  lemma {:induction false} RecoveryTerminates(trace: seq<Context>, pageSize: int, rounds: seq<Round>, n: nat)
    requires pageSize >= 1 && Recovery(trace, pageSize, rounds) && n <= |rounds|
    requires forall c :: c in trace[0].missing ==> c.user.Some?
    ensures trace[n].missing <= trace[0].missing
    ensures |trace[n].missing| + n <= |trace[0].missing|
  {
    AskableBounded(trace, pageSize, rounds, n);
    if n > 0 {
      AskableBounded(trace, pageSize, rounds, n - 1);
      RoundAt(trace, pageSize, rounds, n - 1);
      AllAskable(trace[0], trace[n - 1]);
    }
  }

  /** Some client of every identifier, one with a user where there is any. */
  ghost function Preferred(missing: set<Client>, id: ClientId): (c: Client)
    requires exists c :: c in missing && c.remoteIdentifier == id
    ensures c in missing && c.remoteIdentifier == id
    ensures (exists d :: d in missing && d.remoteIdentifier == id && d.user.Some?) ==> c.user.Some?
  {
    if d :| d in missing && d.remoteIdentifier == id && d.user.Some? then d
    else var d :| d in missing && d.remoteIdentifier == id; d
  }

  lemma {:induction false} Enumerate(s: set<Client>) returns (order: seq<Client>)
    ensures forall c :: c in order <==> c in s
    decreases |s|
  {
    order := [];
    if s != {} {
      var c :| c in s;
      order := Enumerate(s - {c});
      order := order + [c];
    }
  }

  /** A client that no request can ask for, however many rounds there are. */
  predicate NeverAsked(pageSize: int, c: Client) {
    pageSize < 1 || c.user.None?
  }

  /** If no missing client can be asked for, a round with an empty reply changes nothing. */
  lemma {:induction false} RecoveryStuckWithoutUsers(ctx: Context, pageSize: int, order: seq<Client>,
                                                     lookup: map<ClientId, Client>)
    requires ValidRound(ctx, Round(order, lookup, []))
    requires forall c :: c in ctx.missing ==> NeverAsked(pageSize, c)
    ensures AfterRound(ctx, pageSize, Round(order, lookup, [])) == ctx
  {
    PageEmptyIff(order, pageSize);
    assert Asked(ClientIds([]), lookup) == {};
    assert Named(Entries([])) == {};
  }

  ghost function PreferredLookup(missing: set<Client>): (lookup: map<ClientId, Client>)
    ensures IsLookup(missing, lookup)
    ensures forall c :: c in missing && c.user.Some? ==> lookup[c.remoteIdentifier].user.Some?
  {
    map id | id in (set c | c in missing :: c.remoteIdentifier) :: Preferred(missing, id)
  }

  /** A round with an empty reply that leaves every client that cannot be asked for missing. */
  lemma FruitlessRound(ctx: Context, pageSize: int) returns (r: Round)
    ensures ValidRound(ctx, r)
    ensures forall c :: c in ctx.missing && NeverAsked(pageSize, c) ==> c in AfterRound(ctx, pageSize, r).missing
  {
    var order := Enumerate(ctx.missing);
    r := Round(order, PreferredLookup(ctx.missing), []);
    var requested := ClientIds(Page(WithUser(order), pageSize));
    ReplySettles(ctx, r.lookup, requested, []);
    forall c | c in Gone(r.lookup, requested, []) ensures !NeverAsked(pageSize, c) {
      OnlyAskedAreGone(ctx, pageSize, r, c);
    }
  }

  lemma OnlyAskedAreGone(ctx: Context, pageSize: int, r: Round, c: Client)
    requires ValidRound(ctx, r) && r.users == []
    requires forall d :: d in ctx.missing && d.user.Some? ==> r.lookup[d.remoteIdentifier].user.Some?
    requires c in Gone(r.lookup, ClientIds(Page(WithUser(r.order), pageSize)), [])
    ensures !NeverAsked(pageSize, c)
  {
    var requested := ClientIds(Page(WithUser(r.order), pageSize));
    assert Named(Entries([])) == {};
    var id :| id in Asked(requested, r.lookup) && r.lookup[id] == c;
    var i :| 0 <= i < |requested| && requested[i] == id;
    PageMemberHasUser(r.order, pageSize, i);
  }

  lemma PageMemberHasUser(clients: seq<Client>, pageSize: int, i: nat)
    requires i < |Page(WithUser(clients), pageSize)|
    ensures var c := Page(WithUser(clients), pageSize)[i]; pageSize >= 1 && c in clients && c.user.Some?
  {
    var all := WithUser(clients);
    PageIsLongestPrefix(all, pageSize);
    PageEmptyIff(clients, pageSize);
    assert Page(all, pageSize)[i] == all[i];
    WithUserMembers(clients, all[i]);
  }

  /** As long as a missing client cannot be asked for, empty replies keep the recovery going for any
      number of rounds. */
  lemma {:induction false} RecoveryGoesOn(ctx: Context, pageSize: int, c: Client, n: nat)
    returns (trace: seq<Context>, rounds: seq<Round>)
    requires c in ctx.missing && NeverAsked(pageSize, c)
    ensures Recovery(trace, pageSize, rounds) && trace[0] == ctx && |rounds| == n
    decreases n
  {
    trace, rounds := [ctx], [];
    if n > 0 {
      var r := FruitlessRound(ctx, pageSize);
      var next := AfterRound(ctx, pageSize, r);
      trace, rounds := RecoveryGoesOn(next, pageSize, c, n - 1);
      RecoveryCons(ctx, r, trace, pageSize, rounds);
      trace, rounds := [ctx] + trace, [r] + rounds;
    }
  }

  lemma RecoveryCons(ctx: Context, r: Round, trace: seq<Context>, pageSize: int, rounds: seq<Round>)
    requires Recovery(trace, pageSize, rounds) && Follows(ctx, pageSize, r, trace[0])
    ensures Recovery([ctx] + trace, pageSize, [r] + rounds)
  {
    var trace', rounds' := [ctx] + trace, [r] + rounds;
    forall n | 0 <= n < |rounds'| ensures Follows(trace'[n], pageSize, rounds'[n], trace'[n + 1]) {
      if n > 0 { assert Follows(trace[n - 1], pageSize, rounds[n - 1], trace[n]); }
    }
  }

  /** The recovery from a context is bounded by the number of missing clients, and bounded at all, exactly when
      every missing client has a user and a page has room for one. */
  lemma {:induction false} RecoveryTerminatesIff(ctx: Context, pageSize: int, bound: nat)
    requires bound >= |ctx.missing|
    ensures (forall trace, rounds :: Recovery(trace, pageSize, rounds) && trace[0] == ctx ==> |rounds| <= bound)
            <==> forall c :: c in ctx.missing ==> !NeverAsked(pageSize, c)
  {
    if c :| c in ctx.missing && NeverAsked(pageSize, c) {
      var trace, rounds := RecoveryGoesOn(ctx, pageSize, c, bound + 1);
      assert Recovery(trace, pageSize, rounds) && trace[0] == ctx && |rounds| > bound;
    } else {
      forall trace, rounds | Recovery(trace, pageSize, rounds) && trace[0] == ctx ensures |rounds| <= bound {
        RecoveryBounded(trace, pageSize, rounds);
      }
    }
  }

  lemma {:induction false} RecoveryBounded(trace: seq<Context>, pageSize: int, rounds: seq<Round>)
    requires Recovery(trace, pageSize, rounds)
    requires forall c :: c in trace[0].missing ==> !NeverAsked(pageSize, c)
    ensures |rounds| <= |trace[0].missing|
  {
    if rounds != [] {
      assert Follows(trace[0], pageSize, rounds[0], trace[1]);
      var c :| c in trace[0].missing;
      assert !NeverAsked(pageSize, c);
      RecoveryTerminates(trace, pageSize, rounds, |rounds|);
    }
  }

  // ----- Messages waiting for clients, over whole runs

  datatype Step =
    | Register(message: Message, clients: set<Client>)
    | ClientsFetched(clients: set<Client>)
    | PrekeyReply(lookup: map<ClientId, Client>, requested: seq<ClientId>, users: seq<UserEntry>)
    | DeleteClient(client: Client)

  /** Deleting a client takes it out of every relation; a user's fetched clients without a session go missing. */
  function AfterStep(ctx: Context, step: Step): Context {
    match step
    case Register(message, clients) => Registered(ctx, message, clients)
    case ClientsFetched(clients) => ctx.(missing := ctx.missing + (clients - ctx.sessions))
    case PrekeyReply(lookup, requested, users) => AfterReply(ctx, lookup, requested, users)
    case DeleteClient(c) =>
      Context(ctx.missing - {c}, NotWaitingFor(ctx.waiting, {c}), ctx.sessions - {c}, ctx.failed - {c})
  }

  /** What the steps other than replies do to a client. */
  lemma StepEffect(ctx: Context, step: Step, c: Client, message: Message)
    requires !step.PrekeyReply?
    ensures var after := AfterStep(ctx, step);
            match step
            case Register(m, clients) =>
              && (c in after.missing <==> c in ctx.missing || c in clients)
              && ((message, c) in after.waiting <==> (message, c) in ctx.waiting || (message == m && c in clients))
              && after.sessions == ctx.sessions && after.failed == ctx.failed
            case ClientsFetched(clients) =>
              && (c in clients ==> c in after.missing || c in ctx.sessions)
              && (c in after.missing && c !in ctx.missing ==> c in clients && c !in ctx.sessions)
              && ctx.missing <= after.missing && after == ctx.(missing := after.missing)
            case DeleteClient(d) =>
              && (c in after.missing <==> c in ctx.missing && c != d)
              && ((message, c) in after.waiting <==> (message, c) in ctx.waiting && c != d)
              && (c in after.sessions <==> c in ctx.sessions && c != d)
              && (c in after.failed <==> c in ctx.failed && c != d)
  {
  }

  function AfterSteps(ctx: Context, steps: seq<Step>): Context {
    if steps == [] then ctx else AfterStep(AfterSteps(ctx, steps[..|steps| - 1]), steps[|steps| - 1])
  }

  ghost predicate ValidSteps(ctx: Context, steps: seq<Step>) {
    steps == [] ||
    (&& ValidSteps(ctx, steps[..|steps| - 1])
     && (var last := steps[|steps| - 1];
         last.PrekeyReply? ==> IsLookup(AfterSteps(ctx, steps[..|steps| - 1]).missing, last.lookup)))
  }

  ghost predicate WaitingAreMissing(ctx: Context) {
    forall p :: p in ctx.waiting ==> p.1 in ctx.missing
  }

  /** Every client a message waits for is missing, after every run; so nothing waits once nothing is missing. */
  lemma {:induction false} RunKeepsWaitingMissing(ctx: Context, steps: seq<Step>)
    requires WaitingAreMissing(ctx) && ValidSteps(ctx, steps)
    ensures WaitingAreMissing(AfterSteps(ctx, steps))
    ensures AfterSteps(ctx, steps).missing == {} ==> AfterSteps(ctx, steps).waiting == {}
    decreases steps
  {
    if steps != [] {
      var n := |steps| - 1;
      RunKeepsWaitingMissing(ctx, steps[..n]);
      var before, step := AfterSteps(ctx, steps[..n]), steps[n];
      if step.PrekeyReply? {
        ReplySettles(before, step.lookup, step.requested, step.users);
      }
    }
  }

  lemma RoundUnblocks(trace: seq<Context>, pageSize: int, rounds: seq<Round>, n: nat)
    requires Recovery(trace, pageSize, rounds) && n < |rounds|
    ensures trace[n + 1].missing <= trace[n].missing
    ensures trace[n].missing <= trace[n + 1].missing + trace[n + 1].sessions + trace[n + 1].failed
    ensures trace[n].sessions + trace[n].failed <= trace[n + 1].sessions + trace[n + 1].failed
    ensures forall p :: p in trace[n + 1].waiting <==>
                        p in trace[n].waiting && (p.1 in trace[n].missing ==> p.1 in trace[n + 1].missing)
  {
    var before, r := trace[n], rounds[n];
    assert Follows(before, pageSize, r, trace[n + 1]);
    var requested := ClientIds(Page(WithUser(r.order), pageSize));
    ReplySettles(before, r.lookup, requested, r.users);
    SettledEitherWay(before, trace[n + 1], Gone(r.lookup, requested, r.users), Entries(r.users));
  }

  /** After every round each client that was missing is still missing, has a session or is marked as
      failed, and messages wait exactly for those of their clients that are still missing. */
  lemma {:induction false} RecoveryUnblocks(trace: seq<Context>, pageSize: int, rounds: seq<Round>, n: nat)
    requires Recovery(trace, pageSize, rounds) && n <= |rounds| && WaitingAreMissing(trace[0])
    ensures trace[0].missing <= trace[n].missing + trace[n].sessions + trace[n].failed
    ensures forall p :: p in trace[n].waiting <==> p in trace[0].waiting && p.1 in trace[n].missing
    decreases n
  {
    if n > 0 {
      RecoveryUnblocks(trace, pageSize, rounds, n - 1);
      RoundUnblocks(trace, pageSize, rounds, n - 1);
    }
  }
}
