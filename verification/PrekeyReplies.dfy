/** The effect of a prekeys reply on each client, read off the reply itself: which clients stand in it under a
    valid user id, and how their entries went
    (Source/Synchronization/Strategies/UserClientRequestStrategy.swift).
 */
module PrekeyReplies {
  import opened Options
  import opened Clients
  import opened MissingClientsPage
  import opened MissingClientRecovery

  /** The entry of a client at a place of the reply, under a valid user id. */
  predicate EntryAt(users: seq<UserEntry>, i: int, k: int, id: ClientId) {
    && 0 <= i < |users| && users[i].isUuid
    && 0 <= k < |users[i].clients| && users[i].clients[k].clientId == id
  }

  /** An entry with a key that establishes a session. */
  predicate OpensAt(users: seq<UserEntry>, i: int, k: int, id: ClientId) {
    EntryAt(users, i, k, id) && users[i].clients[k].data == Prekey(true)
  }

  ghost predicate Mentions(users: seq<UserEntry>, id: ClientId) {
    exists i, k :: EntryAt(users, i, k, id)
  }

  ghost predicate SomeOpens(users: seq<UserEntry>, id: ClientId) {
    exists i, k :: OpensAt(users, i, k, id)
  }

  /** No later entry is for the same client. */
  ghost predicate IsLast(users: seq<UserEntry>, i: int, k: int, id: ClientId) {
    forall i', k' :: EntryAt(users, i', k', id) ==> i' < i || (i' == i && k' <= k)
  }

  ghost predicate LastOpens(users: seq<UserEntry>, id: ClientId) {
    exists i, k :: OpensAt(users, i, k, id) && IsLast(users, i, k, id)
  }

  // ----- The entries of one user

  lemma {:induction false} SomeInList(entries: seq<Entry>, id: ClientId)
    ensures SomeEstablishes(entries, id) <==>
              exists k :: 0 <= k < |entries| && entries[k].clientId == id && entries[k].data == Prekey(true)
  {
    if entries != [] {
      var n := |entries| - 1;
      SomeInList(entries[..n], id);
      if k :| 0 <= k < n && entries[k].clientId == id && entries[k].data == Prekey(true) {
        assert entries[..n][k] == entries[k];
      }
    }
  }

  ghost predicate LastInListOpens(entries: seq<Entry>, id: ClientId) {
    exists k :: && 0 <= k < |entries| && entries[k].clientId == id && entries[k].data == Prekey(true)
                && forall k' :: 0 <= k' < |entries| && entries[k'].clientId == id ==> k' <= k
  }

  lemma {:induction false} LastInList(entries: seq<Entry>, id: ClientId)
    ensures LastEstablishes(entries, id) <==> LastInListOpens(entries, id)
  {
    if entries != [] {
      var n := |entries| - 1;
      LastInList(entries[..n], id);
      if entries[n].clientId == id {
        assert LastInListOpens(entries, id) <==> entries[n].data == Prekey(true);
      } else {
        LastInListInit(entries, id);
      }
    }
  }

  lemma LastInListInit(entries: seq<Entry>, id: ClientId)
    requires entries != [] && entries[|entries| - 1].clientId != id
    ensures LastInListOpens(entries[..|entries| - 1], id) <==> LastInListOpens(entries, id)
  {
    var n := |entries| - 1;
    var init := entries[..n];
    if LastInListOpens(init, id) {
      var k :| && 0 <= k < n && init[k].clientId == id && init[k].data == Prekey(true)
               && forall k' :: 0 <= k' < n && init[k'].clientId == id ==> k' <= k;
      assert entries[k] == init[k];
      assert forall k' :: 0 <= k' < n ==> init[k'] == entries[k'];
    }
    if LastInListOpens(entries, id) {
      var k :| && 0 <= k < |entries| && entries[k].clientId == id && entries[k].data == Prekey(true)
               && forall k' :: 0 <= k' < |entries| && entries[k'].clientId == id ==> k' <= k;
      assert init[k] == entries[k];
    }
  }

  // ----- The entries of the whole reply

  lemma {:induction false} SomeConcat(a: seq<Entry>, b: seq<Entry>, id: ClientId)
    ensures SomeEstablishes(a + b, id) <==> SomeEstablishes(a, id) || SomeEstablishes(b, id)
  {
    if b == [] {
      assert a + b == a;
    } else {
      assert (a + b)[..|a + b| - 1] == a + b[..|b| - 1];
      SomeConcat(a, b[..|b| - 1], id);
    }
  }

  lemma {:induction false} LastConcat(a: seq<Entry>, b: seq<Entry>, id: ClientId)
    ensures LastEstablishes(a + b, id) <==> if id in Named(b) then LastEstablishes(b, id) else LastEstablishes(a, id)
  {
    if b == [] {
      assert a + b == a;
    } else {
      var n := |b| - 1;
      assert (a + b)[..|a + b| - 1] == a + b[..n];
      LastConcat(a, b[..n], id);
      assert b == b[..n] + [b[n]];
      NamedSnoc(b[..n], b[n]);
    }
  }

  /** What one more user adds to the entries of a reply. */
  function Own(user: UserEntry): seq<Entry> {
    if user.isUuid then user.clients else []
  }

  /** An identifier is named exactly if an entry under a valid user id is for it. */
  lemma {:induction false} MentionsIff(users: seq<UserEntry>, id: ClientId)
    ensures id in Named(Entries(users)) <==> Mentions(users, id)
  {
    if users != [] {
      var n := |users| - 1;
      var own := Own(users[n]);
      MentionsIff(users[..n], id);
      NamedConcat(Entries(users[..n]), own);
      if id in Named(own) {
        var k :| 0 <= k < |own| && own[k].clientId == id;
        assert EntryAt(users, n, k, id);
      }
      if Mentions(users[..n], id) {
        var i, k :| EntryAt(users[..n], i, k, id);
        assert EntryAt(users, i, k, id);
      }
      if Mentions(users, id) {
        var i, k :| EntryAt(users, i, k, id);
        if i < n { assert EntryAt(users[..n], i, k, id); } else { assert own[k].clientId == id; }
      }
    }
  }

  lemma {:induction false} SomeOpensIff(users: seq<UserEntry>, id: ClientId)
    ensures SomeEstablishes(Entries(users), id) <==> SomeOpens(users, id)
  {
    if users != [] {
      var n := |users| - 1;
      var own := Own(users[n]);
      SomeOpensIff(users[..n], id);
      SomeConcat(Entries(users[..n]), own, id);
      SomeInList(own, id);
      if k :| 0 <= k < |own| && own[k].clientId == id && own[k].data == Prekey(true) {
        assert OpensAt(users, n, k, id);
      }
      if SomeOpens(users[..n], id) {
        var i, k :| OpensAt(users[..n], i, k, id);
        assert OpensAt(users, i, k, id);
      }
      if SomeOpens(users, id) {
        var i, k :| OpensAt(users, i, k, id);
        if i < n { assert OpensAt(users[..n], i, k, id); } else { assert own[k].clientId == id; }
      }
    }
  }

  lemma LastInOwn(users: seq<UserEntry>, id: ClientId)
    requires users != [] && id in Named(Own(users[|users| - 1]))
    ensures LastOpens(users, id) <==> LastInListOpens(Own(users[|users| - 1]), id)
  {
    var n := |users| - 1;
    var own := Own(users[n]);
    if LastInListOpens(own, id) {
      var k :| && 0 <= k < |own| && own[k].clientId == id && own[k].data == Prekey(true)
               && forall k' :: 0 <= k' < |own| && own[k'].clientId == id ==> k' <= k;
      assert OpensAt(users, n, k, id);
      forall i', k' | EntryAt(users, i', k', id) ensures i' < n || (i' == n && k' <= k) {
        if i' == n { assert own[k'].clientId == id; }
      }
      assert IsLast(users, n, k, id);
    }
    if LastOpens(users, id) {
      var i, k :| OpensAt(users, i, k, id) && IsLast(users, i, k, id);
      var named :| 0 <= named < |own| && own[named].clientId == id;
      assert EntryAt(users, n, named, id);
      forall k' | 0 <= k' < |own| && own[k'].clientId == id ensures k' <= k {
        assert EntryAt(users, n, k', id);
      }
      assert own[k].clientId == id;
    }
  }

  lemma NotInOwn(users: seq<UserEntry>, i: int, k: int, id: ClientId)
    requires users != [] && id !in Named(Own(users[|users| - 1]))
    ensures EntryAt(users, i, k, id) <==> EntryAt(users[..|users| - 1], i, k, id)
    ensures OpensAt(users, i, k, id) <==> OpensAt(users[..|users| - 1], i, k, id)
  {
    var own := Own(users[|users| - 1]);
    assert forall k' :: 0 <= k' < |own| ==> own[k'].clientId in Named(own);
  }

  lemma LastBeforeOwn(users: seq<UserEntry>, id: ClientId)
    requires users != [] && id !in Named(Own(users[|users| - 1]))
    ensures LastOpens(users, id) <==> LastOpens(users[..|users| - 1], id)
  {
    var init := users[..|users| - 1];
    forall i, k ensures EntryAt(users, i, k, id) <==> EntryAt(init, i, k, id) { NotInOwn(users, i, k, id); }
    forall i, k ensures OpensAt(users, i, k, id) <==> OpensAt(init, i, k, id) { NotInOwn(users, i, k, id); }
    forall i, k ensures IsLast(users, i, k, id) <==> IsLast(init, i, k, id) { }
    if LastOpens(users, id) {
      var i, k :| OpensAt(users, i, k, id) && IsLast(users, i, k, id);
      assert OpensAt(init, i, k, id) && IsLast(init, i, k, id);
    }
    if LastOpens(init, id) {
      var i, k :| OpensAt(init, i, k, id) && IsLast(init, i, k, id);
      assert OpensAt(users, i, k, id) && IsLast(users, i, k, id);
    }
  }

  lemma {:induction false} LastOpensIff(users: seq<UserEntry>, id: ClientId)
    ensures LastEstablishes(Entries(users), id) <==> LastOpens(users, id)
  {
    if users != [] {
      var n := |users| - 1;
      var own := Own(users[n]);
      LastOpensIff(users[..n], id);
      LastConcat(Entries(users[..n]), own, id);
      if id in Named(own) {
        LastInList(own, id);
        LastInOwn(users, id);
      } else {
        LastBeforeOwn(users, id);
      }
    }
  }

  // ----- What a reply does to each client

  /** A client leaves if it stands for its identifier in the table, and that identifier is mentioned, or asked for
      in a reply that mentions none of those asked for. */
  ghost predicate Leaves(lookup: map<ClientId, Client>, requested: seq<ClientId>, users: seq<UserEntry>, c: Client) {
    var id := c.remoteIdentifier;
    && id in lookup && lookup[id] == c
    && (Mentions(users, id)
        || (id in requested && forall other :: other in requested && other in lookup ==> !Mentions(users, other)))
  }

  lemma GoneIffLeaves(ctx: Context, lookup: map<ClientId, Client>, requested: seq<ClientId>, users: seq<UserEntry>,
                      c: Client)
    requires IsLookup(ctx.missing, lookup)
    ensures c in Gone(lookup, requested, users) <==> Leaves(lookup, requested, users, c)
  {
    var named, asked := Named(Entries(users)), Asked(requested, lookup);
    forall id ensures id in named <==> Mentions(users, id) { MentionsIff(users, id); }
    forall id ensures id in asked <==> id in requested && id in lookup {
      if id in requested && id in lookup {
        var i :| 0 <= i < |requested| && requested[i] == id;
        assert requested[i] in lookup;
      }
    }
    if asked !! named {
      forall other | other in requested && other in lookup ensures !Mentions(users, other) { assert other in asked; }
    } else {
      var other :| other in asked && other in named;
    }
  }

  /** The whole effect of a reply on a client, in terms of what stands in the reply. */
  lemma {:induction false} ReplyEffect(ctx: Context, lookup: map<ClientId, Client>, requested: seq<ClientId>,
                                       users: seq<UserEntry>, c: Client)
    requires IsLookup(ctx.missing, lookup)
    ensures var after, leaves := AfterReply(ctx, lookup, requested, users), Leaves(lookup, requested, users, c);
            && (c in after.missing <==> c in ctx.missing && !leaves)
            && (forall m :: (m, c) in after.waiting <==> (m, c) in ctx.waiting && !leaves)
            && (c in after.failed <==> if leaves then !LastOpens(users, c.remoteIdentifier) else c in ctx.failed)
            && (c in after.sessions <==> c in ctx.sessions || (leaves && SomeOpens(users, c.remoteIdentifier)))
  {
    ReplySettles(ctx, lookup, requested, users);
    GoneIffLeaves(ctx, lookup, requested, users, c);
    LastOpensIff(users, c.remoteIdentifier);
    SomeOpensIff(users, c.remoteIdentifier);
  }

  /** With unique identifiers it does not depend on the table who leaves. */
  lemma {:induction false} LeavesByIdentifier(ctx: Context, lookup: map<ClientId, Client>, requested: seq<ClientId>,
                                              users: seq<UserEntry>, c: Client)
    requires IsLookup(ctx.missing, lookup) && UniqueIds(ctx.missing)
    ensures Leaves(lookup, requested, users, c) <==>
              && c in ctx.missing
              && (|| Mentions(users, c.remoteIdentifier)
                  || (&& c.remoteIdentifier in requested
                      && forall d :: d in ctx.missing && d.remoteIdentifier in requested ==>
                                       !Mentions(users, d.remoteIdentifier)))
  {
    if Leaves(lookup, requested, users, c) {
      forall d | d in ctx.missing && d.remoteIdentifier in requested ensures d.remoteIdentifier in lookup { }
    }
    forall other | other in lookup ensures lookup[other] in ctx.missing && lookup[other].remoteIdentifier == other { }
  }
}
