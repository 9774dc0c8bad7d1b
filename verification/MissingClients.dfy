/** Users and clients as the missing-client code sees them. */
module Clients {
  import opened Options

  type UserId = string
  type ClientId = string
  type Message = int

  /** A user with a remote identifier is fetched or created by it; one without is a local object. */
  datatype User = Known(remoteIdentifier: UserId) | Local(objectId: int)

  /** A client is fetched or created by its identifier and its user. */
  datatype Client = Client(remoteIdentifier: ClientId, user: Option<User>)
}

/** Which missing clients one prekeys request asks for: `MissingClientsMap.init`
    (Source/Synchronization/Strategies/UserClientRequestStrategy.swift).
 */
module MissingClientsPage {
  import opened Options
  import opened Clients

  function WithUser(clients: seq<Client>): seq<Client> {
    if clients == [] then []
    else WithUser(clients[..|clients| - 1]) + if clients[|clients| - 1].user.Some? then [clients[|clients| - 1]] else []
  }

  function UsersOf(clients: seq<Client>): set<User> {
    set i | 0 <= i < |clients| && clients[i].user.Some? :: clients[i].user.value
  }

  /** The clients up to the first that would bring in one user too many. */
  function Page(clients: seq<Client>, pageSize: int): seq<Client> {
    if clients == [] then []
    else
      var n := |clients| - 1;
      var page := Page(clients[..n], pageSize);
      if |page| == n && |UsersOf(clients)| <= pageSize then clients else page
  }

  function ClientIds(clients: seq<Client>): seq<ClientId> {
    seq(|clients|, i requires 0 <= i < |clients| => clients[i].remoteIdentifier)
  }

  /** The ids of the clients of one user, in order. */
  function IdsOfUser(clients: seq<Client>, userId: UserId): seq<ClientId> {
    if clients == [] then []
    else
      var c := clients[|clients| - 1];
      IdsOfUser(clients[..|clients| - 1], userId) + if c.user == Some(Known(userId)) then [c.remoteIdentifier] else []
  }

  // ----- What is selected, and in which order

  /** The positions of the flags that are set, in order. */
  ghost predicate Selects(positions: seq<nat>, flags: seq<bool>) {
    && (forall k :: 0 <= k < |positions| ==> positions[k] < |flags| && flags[positions[k]])
    && (forall j, k :: 0 <= j < k < |positions| ==> positions[j] < positions[k])
    && (forall i :: 0 <= i < |flags| && flags[i] ==> i in positions)
  }

  function Positions(flags: seq<bool>): (positions: seq<nat>)
    ensures forall k :: 0 <= k < |positions| ==> positions[k] < |flags|
  {
    if flags == [] then []
    else
      var n := |flags| - 1;
      Positions(flags[..n]) + if flags[n] then [n] else []
  }

  lemma SelectsSnoc(positions: seq<nat>, flags: seq<bool>, flag: bool)
    requires Selects(positions, flags)
    ensures Selects(positions + (if flag then [|flags|] else []), flags + [flag])
  {
    var positions' := positions + if flag then [|flags|] else [];
    forall i | 0 <= i < |flags + [flag]| && (flags + [flag])[i] ensures i in positions' {
      if i < |flags| {
        assert flags[i] && i in positions;
      } else {
        assert positions'[|positions|] == i;
      }
    }
  }

  lemma {:induction false} PositionsSelect(flags: seq<bool>)
    ensures Selects(Positions(flags), flags)
  {
    if flags != [] {
      var n := |flags| - 1;
      PositionsSelect(flags[..n]);
      SelectsSnoc(Positions(flags[..n]), flags[..n], flags[n]);
      assert flags == flags[..n] + [flags[n]];
    }
  }

  /** The elements at the given positions. */
  function At<T>(s: seq<T>, positions: seq<nat>): seq<T>
    requires forall k :: 0 <= k < |positions| ==> positions[k] < |s|
  {
    seq(|positions|, k requires 0 <= k < |positions| => s[positions[k]])
  }

  function UserFlags(clients: seq<Client>): seq<bool> {
    seq(|clients|, i requires 0 <= i < |clients| => clients[i].user.Some?)
  }

  function FlagsOfUser(clients: seq<Client>, userId: UserId): seq<bool> {
    seq(|clients|, i requires 0 <= i < |clients| => clients[i].user == Some(Known(userId)))
  }

  /** The clients considered are exactly those that have a user, in order. */
  lemma {:induction false} WithUserInOrder(clients: seq<Client>)
    ensures Selects(Positions(UserFlags(clients)), UserFlags(clients))
    ensures WithUser(clients) == At(clients, Positions(UserFlags(clients)))
  {
    PositionsSelect(UserFlags(clients));
    WithUserAt(clients);
  }

  lemma {:induction false} WithUserAt(clients: seq<Client>)
    ensures WithUser(clients) == At(clients, Positions(UserFlags(clients)))
  {
    if clients != [] {
      var n := |clients| - 1;
      WithUserAt(clients[..n]);
      assert UserFlags(clients)[..n] == UserFlags(clients[..n]);
    }
  }

  /** The ids listed under a user are those of exactly the user's clients, in order. */
  lemma {:induction false} IdsInOrder(clients: seq<Client>, userId: UserId)
    ensures Selects(Positions(FlagsOfUser(clients, userId)), FlagsOfUser(clients, userId))
    ensures IdsOfUser(clients, userId) == ClientIds(At(clients, Positions(FlagsOfUser(clients, userId))))
  {
    PositionsSelect(FlagsOfUser(clients, userId));
    IdsAt(clients, userId);
  }

  lemma {:induction false} IdsAt(clients: seq<Client>, userId: UserId)
    ensures IdsOfUser(clients, userId) == ClientIds(At(clients, Positions(FlagsOfUser(clients, userId))))
  {
    if clients != [] {
      var n := |clients| - 1;
      IdsAt(clients[..n], userId);
      assert FlagsOfUser(clients, userId)[..n] == FlagsOfUser(clients[..n], userId);
    }
  }

  lemma UsersOfMembers(clients: seq<Client>, u: User)
    ensures u in UsersOf(clients) <==> exists c :: c in clients && c.user == Some(u)
  {
    if c :| c in clients && c.user == Some(u) {
      var i :| 0 <= i < |clients| && clients[i] == c;
      assert clients[i].user.Some? && clients[i].user.value == u;
    }
  }

  lemma UsersOfPrefix(clients: seq<Client>, m: nat, n: nat)
    requires m <= n <= |clients|
    ensures UsersOf(clients[..m]) <= UsersOf(clients[..n])
    ensures |UsersOf(clients[..m])| <= |UsersOf(clients[..n])|
  {
    var a, b := clients[..m], clients[..n];
    forall u | u in UsersOf(a) ensures u in UsersOf(b) {
      var i :| 0 <= i < |a| && a[i].user.Some? && a[i].user.value == u;
      assert b[i] == a[i];
    }
    SubsetSize(UsersOf(a), UsersOf(b));
  }

  lemma {:induction false} SubsetSize<T>(a: set<T>, b: set<T>)
    requires a <= b
    ensures |a| <= |b|
  {
    assert b == a + (b - a);
  }

  lemma UsersOfSnoc(clients: seq<Client>, c: Client)
    ensures UsersOf(clients + [c]) == UsersOf(clients) + if c.user.Some? then {c.user.value} else {}
  {
    var all := clients + [c];
    forall u | u in UsersOf(clients) ensures u in UsersOf(all) {
      var i :| 0 <= i < |clients| && clients[i].user.Some? && clients[i].user.value == u;
      assert all[i] == clients[i];
    }
    if c.user.Some? { assert all[|clients|] == c; }
  }

  /** The page is the longest prefix that mentions at most `pageSize` users. */
  lemma {:induction false} PageIsLongestPrefix(clients: seq<Client>, pageSize: int)
    ensures Page(clients, pageSize) <= clients
    ensures Page(clients, pageSize) != [] ==> |UsersOf(Page(clients, pageSize))| <= pageSize
    ensures forall m :: |Page(clients, pageSize)| < m <= |clients| ==> |UsersOf(clients[..m])| > pageSize
  {
    if clients != [] {
      var n := |clients| - 1;
      var before, page := Page(clients[..n], pageSize), Page(clients, pageSize);
      PageIsLongestPrefix(clients[..n], pageSize);
      assert clients[..|clients|] == clients;
      forall m | |page| < m <= |clients| ensures |UsersOf(clients[..m])| > pageSize {
        if m <= n {
          assert clients[..n][..m] == clients[..m];
        } else if |before| < n {
          assert clients[..n][..n] == clients[..n];
          UsersOfPrefix(clients, n, m);
        }
      }
    }
  }

  /** With room for a user, the page is empty only if no client has one. */
  lemma PageIsNonEmpty(clients: seq<Client>, pageSize: int)
    requires clients != [] && pageSize >= 1
    ensures Page(clients, pageSize) != []
  {
    PageIsLongestPrefix(clients, pageSize);
    var one := clients[..1];
    assert UsersOf(one) <= if one[0].user.Some? then {one[0].user.value} else {};
    SubsetSize(UsersOf(one), if one[0].user.Some? then {one[0].user.value} else {});
  }

  /** Under each user id stand the clients of that user, in order, and no user without one. */
  ghost predicate Grouped(payload: map<UserId, seq<ClientId>>, clients: seq<Client>) {
    forall u :: GroupedAt(payload, clients, u)
  }

  predicate GroupedAt(payload: map<UserId, seq<ClientId>>, clients: seq<Client>, u: UserId) {
    if u in payload then payload[u] == IdsOfUser(clients, u) != [] else IdsOfUser(clients, u) == []
  }

  lemma IdsSnoc(clients: seq<Client>, k: nat, u: UserId)
    requires k < |clients|
    ensures var before := IdsOfUser(clients[..k], u);
            IdsOfUser(clients[..k + 1], u)
            == if clients[k].user == Some(Known(u)) then before + [clients[k].remoteIdentifier] else before
  {
    assert clients[..k + 1][..k] == clients[..k];
  }

  function WithId(payload: map<UserId, seq<ClientId>>, c: Client): map<UserId, seq<ClientId>> {
    match c.user
    case Some(Known(u)) => payload[u := (if u in payload then payload[u] else []) + [c.remoteIdentifier]]
    case _ => payload
  }

  lemma GroupedSnoc(payload: map<UserId, seq<ClientId>>, clients: seq<Client>, k: nat)
    requires k < |clients| && Grouped(payload, clients[..k])
    ensures Grouped(WithId(payload, clients[k]), clients[..k + 1])
  {
    var payload', after := WithId(payload, clients[k]), clients[..k + 1];
    forall u ensures GroupedAt(payload', after, u) {
      assert GroupedAt(payload, clients[..k], u);
      IdsSnoc(clients, k, u);
    }
  }

  /** The payload groups the page by user id, and the request remembers the ids of the whole page. */
  method MissingClientsMap(missingClients: seq<Client>, pageSize: int)
    returns (payload: map<UserId, seq<ClientId>>, userInfo: seq<ClientId>)
    ensures Grouped(payload, Page(WithUser(missingClients), pageSize))
    ensures userInfo == ClientIds(Page(WithUser(missingClients), pageSize))
    ensures var page := Page(WithUser(missingClients), pageSize);
            |userInfo| == |page| && forall i :: 0 <= i < |page| ==> userInfo[i] == page[i].remoteIdentifier
  {
    var missing := SelectPage(missingClients, pageSize);
    userInfo := ClientIds(missing);
    payload := map[];
    var k := 0;
    while k < |missing|
      invariant 0 <= k <= |missing|
      invariant Grouped(payload, missing[..k])
    {
      GroupedSnoc(payload, missing, k);
      var c := missing[k];
      if c.user.Some? && c.user.value.Known? {
        var u := c.user.value.remoteIdentifier;
        payload := payload[u := (if u in payload then payload[u] else []) + [c.remoteIdentifier]];
      }
      k := k + 1;
    }
    assert missing[..k] == missing;
  }

  lemma WithUserSnoc(clients: seq<Client>, k: nat)
    requires k < |clients|
    ensures WithUser(clients[..k + 1])
            == if clients[k].user.Some? then WithUser(clients[..k]) + [clients[k]] else WithUser(clients[..k])
  {
    assert clients[..k + 1][..k] == clients[..k];
  }

  /** The filter with its captured set of users. */
  method SelectPage(missingClients: seq<Client>, pageSize: int) returns (missing: seq<Client>)
    ensures missing == Page(WithUser(missingClients), pageSize)
  {
    var users: set<User> := {};
    missing := [];
    var k := 0;
    while k < |missingClients|
      invariant 0 <= k <= |missingClients|
      invariant users == UsersOf(WithUser(missingClients[..k]))
      invariant missing == Page(WithUser(missingClients[..k]), pageSize)
    {
      WithUserSnoc(missingClients, k);
      var c := missingClients[k];
      ghost var before := WithUser(missingClients[..k]);
      if c.user.Some? {
        users := users + {c.user.value};
        UsersOfSnoc(before, c);
        PageSnoc(before, c, pageSize);
        if |users| <= pageSize {
          missing := missing + [c];
        }
      }
      k := k + 1;
    }
    assert missingClients[..k] == missingClients;
  }

  lemma PageSnoc(clients: seq<Client>, c: Client, pageSize: int)
    requires c.user.Some?
    ensures Page(clients + [c], pageSize)
            == if |UsersOf(clients + [c])| <= pageSize then clients + [c] else Page(clients, pageSize)
    ensures |UsersOf(clients + [c])| <= pageSize ==> Page(clients, pageSize) == clients
  {
    var all := clients + [c];
    assert all[..|clients|] == clients;
    PageIsLongestPrefix(clients, pageSize);
    if |UsersOf(all)| <= pageSize {
      assert all[..|all|] == all && clients[..|clients|] == clients;
      UsersOfPrefix(all, |clients|, |all|);
    }
  }
}
