// What runs of the pool show: how many connections there come to be, which
// callbacks a given-up handle takes along, what a repair leaves dead.
module PoolRuns {
  import opened RoutingTable
  import opened ConnectionPool

  predicate DistinctKeys(subs: seq<Subscription>) {
    forall i, j :: 0 <= i < j < |subs| ==> Key(subs[i]) != Key(subs[j])
  }

  ghost predicate NewKeys(pm: PoolManager, subs: seq<Subscription>)
    reads pm`subscriptions
  {
    DistinctKeys(subs) && (forall i :: 0 <= i < |subs| ==> Key(subs[i]) !in pm.subscriptions)
  }

  // A pool without room that may grow dials for a new key, whether or not the
  // request can then be sent, and still has no room.
  method DialsAgain(pm: PoolManager, sub: Subscription, callback: Callback, dialed: bool, sent: bool)
    requires pm.Valid() && pm.MayGrow() && Key(sub) !in pm.subscriptions
    modifies pm, pm.wrappers
    ensures pm.Valid() && pm.MayGrow() && pm.connections == old(pm.connections)
    ensures old(pm.wrappers) <= pm.wrappers && fresh(pm.wrappers - old(pm.wrappers))
    ensures |pm.wrappers| == |old(pm.wrappers)| + if dialed then 1 else 0
    ensures forall k <- pm.subscriptions :: k in old(pm.subscriptions) || k == Key(sub)
  {
    ghost var before := Loads(pm.connections);
    var r := pm.Subscribe(sub, callback, dialed, sent);
    forall i | 0 <= i < |before| ensures Loads(pm.connections)[i] == before[i] {
      assert pm.connections[i] in pm.connections;
    }
    assert Loads(pm.connections) == before;
  }

  function Count(flags: seq<bool>): nat {
    if flags == [] then 0 else Count(flags[..|flags| - 1]) + if flags[|flags| - 1] then 1 else 0
  }

  // So it dials for every further key: connections made on demand never join the
  // pool, and nothing bounds how many there are.
  method DialsForEveryKey(pm: PoolManager, subs: seq<Subscription>, callback: Callback, dialed: seq<bool>, sent: seq<bool>)
    requires pm.Valid() && pm.MayGrow() && NewKeys(pm, subs) && |dialed| == |sent| == |subs|
    modifies pm, pm.wrappers
    ensures pm.Valid() && pm.MayGrow() && pm.connections == old(pm.connections)
    ensures |pm.wrappers| == |old(pm.wrappers)| + Count(dialed)
  {
    for i := 0 to |subs|
      invariant pm.Valid() && pm.MayGrow() && pm.connections == old(pm.connections)
      invariant old(pm.wrappers) <= pm.wrappers && fresh(pm.wrappers - old(pm.wrappers))
      invariant |pm.wrappers| == |old(pm.wrappers)| + Count(dialed[..i])
      invariant forall j :: i <= j < |subs| ==> Key(subs[j]) !in pm.subscriptions
    {
      assert dialed[..i + 1][..i] == dialed[..i];
      DialsAgain(pm, subs[i], callback, dialed[i], sent[i]);
    }
    assert dialed[..|subs|] == dialed;
  }

  // How many connections n keys need from a pool that was started with one.
  function ConnectionsFor(n: nat, maxConnections: int, maxSubscriptions: int): nat {
    var room := if maxSubscriptions < 0 then 0 else maxSubscriptions;
    if maxConnections >= 2 && n > room then 1 + n - room else 1
  }

  // n keys routed, with nothing lost: the pool's connection carries what it has room for.
  ghost predicate Carries(pm: PoolManager, first: Connection, n: nat)
    reads pm, pm.wrappers, first
  {
    && pm.connections == [first] && first.connected && first.subscriptions.Keys <= pm.subscriptions.Keys
    && |first.subscriptions| == 1 + n - ConnectionsFor(n, pm.maxConnections, pm.maxSubscriptions)
    && |pm.wrappers| == ConnectionsFor(n, pm.maxConnections, pm.maxSubscriptions)
    && forall c <- pm.wrappers :: c.connected
  }

  lemma OneConnection(pm: PoolManager, first: Connection)
    requires pm.connections == [first] && first.connected
    ensures pm.MayGrow() <==> |first.subscriptions| >= pm.maxSubscriptions && pm.maxConnections >= 2
    ensures pm.MayGrow() ==> forall c :: !pm.Offers(c)
    ensures forall c :: pm.Offers(c) ==> c == first
    ensures !pm.Stuck()
  {
    assert Loads(pm.connections)[0] == LoadOf(first);
  }

  lemma OneMoreListed(m: map<string, Subscription>, key: string, sub: Subscription)
    requires key !in m
    ensures |m[key := sub]| == |m| + 1 && m[key := sub].Keys == m.Keys + {key}
  {
    assert m[key := sub] - {key} == m;
    assert m[key := sub].Keys == m.Keys + {key};
    assert |m.Keys + {key}| == |m.Keys| + 1;
  }

  lemma NextNeeds(pm: PoolManager, first: Connection, n: nat)
    requires Carries(pm, first, n)
    ensures ConnectionsFor(n + 1, pm.maxConnections, pm.maxSubscriptions) ==
            ConnectionsFor(n, pm.maxConnections, pm.maxSubscriptions) + if pm.MayGrow() then 1 else 0
  {
    OneConnection(pm, first);
  }

  // Where the key goes: to the first connection unless the pool may grow.
  method PlaceKey(pm: PoolManager, first: Connection, sub: Subscription, callback: Callback)
    requires pm.Valid() && pm.connections == [first] && first.connected && Key(sub) !in pm.subscriptions
    modifies pm, pm.wrappers
    ensures pm.Valid() && pm.connections == [first] && fresh(pm.wrappers - old(pm.wrappers))
    ensures pm.subscriptions.Keys == old(pm.subscriptions).Keys + {Key(sub)}
    ensures |pm.wrappers| == |old(pm.wrappers)| + if old(pm.MayGrow()) then 1 else 0
    ensures forall c <- pm.wrappers :: c.connected || (c in old(pm.wrappers) && !old(c.connected))
    ensures first.connected
    ensures first.subscriptions ==
            if old(pm.MayGrow()) then old(first.subscriptions) else old(first.subscriptions)[Key(sub) := sub]
  {
    OneConnection(pm, first);
    assert first in pm.connections;
    var r := pm.Subscribe(sub, callback, true, true);
  }

  method OneMoreKey(pm: PoolManager, first: Connection, n: nat, sub: Subscription, callback: Callback)
    requires pm.Valid() && Carries(pm, first, n) && Key(sub) !in pm.subscriptions
    modifies pm, pm.wrappers
    ensures pm.Valid() && Carries(pm, first, n + 1) && fresh(pm.wrappers - old(pm.wrappers))
    ensures pm.subscriptions.Keys == old(pm.subscriptions).Keys + {Key(sub)}
  {
    NextNeeds(pm, first, n);
    OneMoreListed(first.subscriptions, Key(sub), sub);
    PlaceKey(pm, first, sub, callback);
  }

  function KeysOf(subs: seq<Subscription>): set<string> {
    if subs == [] then {} else KeysOf(subs[..|subs| - 1]) + {Key(subs[|subs| - 1])}
  }

  lemma {:induction false} KeysOfFirst(subs: seq<Subscription>, n: nat, key: string)
    requires n <= |subs| && forall i :: 0 <= i < n ==> Key(subs[i]) != key
    ensures key !in KeysOf(subs[..n])
  {
    if n > 0 {
      assert subs[..n][..n - 1] == subs[..n - 1];
      KeysOfFirst(subs, n - 1, key);
    }
  }

  lemma KeysOfNext(subs: seq<Subscription>, n: nat)
    requires n < |subs| && DistinctKeys(subs)
    ensures Key(subs[n]) !in KeysOf(subs[..n]) && KeysOf(subs[..n + 1]) == KeysOf(subs[..n]) + {Key(subs[n])}
  {
    KeysOfFirst(subs, n, Key(subs[n]));
    assert subs[..n + 1][..n] == subs[..n];
  }

  // The cap on connections holds exactly for a cap of one and for few keys.
  lemma CapHoldsIff(n: nat, maxConnections: int, maxSubscriptions: nat)
    ensures ConnectionsFor(n, maxConnections, maxSubscriptions) <= maxConnections <==>
            maxConnections == 1 || (maxConnections >= 2 && n < maxSubscriptions + maxConnections)
  {
  }

  // The first n keys are routed.
  ghost predicate Routed(pm: PoolManager, first: Connection, subs: seq<Subscription>, n: nat)
    reads pm, pm.wrappers, first
    requires n <= |subs|
  {
    DistinctKeys(subs) && Carries(pm, first, n) && pm.subscriptions.Keys == KeysOf(subs[..n])
  }

  lemma NothingRouted(pm: PoolManager, first: Connection, subs: seq<Subscription>)
    requires pm.connections == [first] && pm.wrappers == {first} && first.connected && first.subscriptions == map[]
    requires pm.subscriptions == map[] && NewKeys(pm, subs)
    ensures Routed(pm, first, subs, 0)
  {
  }

  method RouteNext(pm: PoolManager, first: Connection, subs: seq<Subscription>, n: nat, callback: Callback)
    requires pm.Valid() && n < |subs| && Routed(pm, first, subs, n)
    modifies pm, pm.wrappers
    ensures pm.Valid() && Routed(pm, first, subs, n + 1) && fresh(pm.wrappers - old(pm.wrappers))
  {
    KeysOfNext(subs, n);
    OneMoreKey(pm, first, n, subs[n], callback);
  }

  // From a started pool with every dial and send succeeding: the keys that the
  // first connection has no room for get a connection each, all of them live.
  method SubscribeEach(pm: PoolManager, first: Connection, subs: seq<Subscription>, callback: Callback)
    requires pm.Valid() && pm.connections == [first] && pm.wrappers == {first}
    requires first.connected && first.subscriptions == map[] && pm.subscriptions == map[] && NewKeys(pm, subs)
    modifies pm, pm.wrappers
    ensures pm.Valid() && Carries(pm, first, |subs|) && pm.subscriptions.Keys == KeysOf(subs)
  {
    NothingRouted(pm, first, subs);
    for i := 0 to |subs|
      invariant pm.Valid() && Routed(pm, first, subs, i) && fresh(pm.wrappers - old(pm.wrappers))
    {
      RouteNext(pm, first, subs, i, callback);
    }
    assert subs[..|subs|] == subs;
  }

  // ----- Giving up one of two handles -----

  method FirstHandle(pm: PoolManager, sub: Subscription, callback: Callback) returns (h: Handle)
    requires pm.Valid() && !pm.Stuck() && Key(sub) !in pm.subscriptions
    modifies pm, pm.wrappers
    ensures pm.Valid() && fresh(pm.wrappers - old(pm.wrappers))
    ensures h.key == Key(sub) && h.id == pm.callbackIDSeq
    ensures Key(sub) in pm.subscriptions && pm.subscriptions - {Key(sub)} == old(pm.subscriptions)
  {
    ghost var before := pm.subscriptions;
    var r := pm.Subscribe(sub, callback, true, true);
    h := r.handle;
    InsertThenDelete(before, Key(sub), pm.subscriptions[Key(sub)]);
  }

  method NextHandle(pm: PoolManager, sub: Subscription, callback: Callback) returns (h: Handle)
    requires pm.Valid() && Key(sub) in pm.subscriptions
    modifies pm, pm.wrappers
    ensures pm.Valid() && fresh(pm.wrappers - old(pm.wrappers))
    ensures h.key == Key(sub) && h.id == old(pm.callbackIDSeq) + 1
    ensures CallsBack(pm.subscriptions, Key(sub), h.id)
    ensures pm.subscriptions - {Key(sub)} == old(pm.subscriptions) - {Key(sub)}
  {
    var r := pm.Subscribe(sub, callback, true, true);
    h := r.handle;
  }

  // Two subscribers of one subscription: the first one leaves, and the second
  // one's callback is gone with it.
  method SecondCallbackLost(pm: PoolManager, sub: Subscription, one: Callback, two: Callback)
    returns (first: Handle, second: Handle)
    requires pm.Valid() && !pm.Stuck() && Key(sub) !in pm.subscriptions
    modifies pm, pm.wrappers
    ensures pm.Valid() && first.key == second.key == Key(sub) && first.id != second.id
    ensures pm.subscriptions == old(pm.subscriptions)
  {
    first := FirstHandle(pm, sub, one);
    second := NextHandle(pm, sub, two);
    pm.Unsubscribe(first);
  }

  // A pool of one connection, which is full.
  method FullPool(a: Subscription, callback: Callback) returns (pm: PoolManager)
    ensures fresh(pm) && fresh(pm.wrappers) && pm.Valid() && pm.subscriptions.Keys == {Key(a)}
    ensures pm.maxConnections == 2 && pm.maxSubscriptions == 1
    ensures Loads(pm.connections) == [Load(true, 1)]
  {
    pm := new PoolManager(2, 1);
    var started := pm.Start(true);
    var first := pm.connections[0];
    assert Loads(pm.connections)[0] == Load(true, 0);
    var r := pm.Subscribe(a, callback, true, true);
    assert r.Subscribed?;
    assert first.subscriptions == map[Key(a) := a];
  }

  // A second subscription gets a connection outside the pool, which is then lost.
  method LostOrphan(a: Subscription, b: Subscription, callback: Callback) returns (pm: PoolManager)
    requires Key(a) != Key(b)
    ensures fresh(pm) && pm.Valid() && |pm.connections| == 1 && Key(b) in pm.subscriptions
    ensures var c := pm.subscriptions[Key(b)].connection; !c.connected && c !in pm.connections
  {
    pm := FullPool(a, callback);
    var r := pm.Subscribe(b, callback, true, true);
    pm.Lose(pm.subscriptions[Key(b)].connection);
  }

  // A connection made for a later subscription never joins the pool, so when it
  // is lost a successful repair leaves its subscription dead.
  method OrphanStaysDead(a: Subscription, b: Subscription, callback: Callback)
    returns (pm: PoolManager, ok: bool)
    requires Key(a) != Key(b)
    ensures ok && pm.Valid() && Key(b) in pm.subscriptions
    ensures !pm.subscriptions[Key(b)].connection.connected
  {
    pm := LostOrphan(a, b, callback);
    ghost var reached;
    ok, reached := pm.RepairConnections([true]);
  }
}
