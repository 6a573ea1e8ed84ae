// Which connection carries which subscription, and how rerouting changes it.
module RoutingTable {
  import opened Basics

  datatype Subscription = Subscription(channel: string, user: string, coin: string)

  function Key(s: Subscription): string {
    if s.user != "" then s.channel + ":" + s.user
    else if s.coin != "" then s.channel + ":" + s.coin
    else s.channel
  }

  // The user it is for, or else the coin.
  function Target(s: Subscription): string {
    if s.user != "" then s.user else s.coin
  }

  // Two subscriptions share a key exactly when they are of one channel and one target.
  lemma KeyInjective(s: Subscription, t: Subscription)
    requires ':' !in s.channel && ':' !in t.channel
    ensures Key(s) == Key(t) <==> s.channel == t.channel && Target(s) == Target(t)
  {
    KeyText(s);
    KeyText(t);
    if |s.channel| < |t.channel| {
      ShorterChannel(s, t);
    } else if |t.channel| < |s.channel| {
      ShorterChannel(t, s);
    } else if Key(s) == Key(t) {
      assert s.channel == Key(s)[..|s.channel|] == t.channel;
      assert Target(s) != "" ==> Target(s) == Key(s)[|s.channel| + 1..];
      assert Target(t) != "" ==> Target(t) == Key(t)[|t.channel| + 1..];
    }
  }

  lemma ShorterChannel(s: Subscription, t: Subscription)
    requires ':' !in t.channel && |s.channel| < |t.channel|
    ensures Key(s) != Key(t)
  {
    KeyText(s);
    KeyText(t);
    assert Key(t)[|s.channel|] == t.channel[|s.channel|] && t.channel[|s.channel|] in t.channel;
  }

  lemma KeyText(s: Subscription)
    ensures Key(s) == s.channel + (if Target(s) == "" then "" else ":" + Target(s))
  {
    assert s.channel + "" == s.channel;
  }

  datatype Callback = Callback(name: string)

  // A routed subscription: its callbacks by handle id, and its connection.
  datatype Info<C> = Info(subscription: Subscription, callbacks: map<int, Callback>, connection: C)

  lemma InsertThenDelete<V>(m: map<string, V>, k: string, v: V)
    requires k !in m
    ensures m[k := v] - {k} == m
  {
  }

  predicate CallsBack<C>(subs: map<string, Info<C>>, k: string, id: int) {
    k in subs && id in subs[k].callbacks
  }

  // Giving up a handle drops its key: the callbacks of all other handles survive
  // exactly when the key has no other one.
  lemma OthersSurviveIff<C>(subs: map<string, Info<C>>, key: string, id: int)
    ensures (forall k, i :: CallsBack(subs, k, i) && (k != key || i != id) ==> CallsBack(subs - {key}, k, i)) <==>
            (key in subs ==> subs[key].callbacks.Keys <= {id})
  {
    var others := forall k, i :: CallsBack(subs, k, i) && (k != key || i != id) ==> CallsBack(subs - {key}, k, i);
    if others && key in subs {
      forall i | i in subs[key].callbacks ensures i == id {
        assert CallsBack(subs, key, i) && !CallsBack(subs - {key}, key, i);
      }
    }
  }

  // ----- Rerouting -----

  // Every key of one connection on another.
  function Moved<C(==)>(subs: map<string, Info<C>>, from: C, to: C): map<string, Info<C>> {
    map k <- subs :: if subs[k].connection == from then subs[k].(connection := to) else subs[k]
  }

  // What one connection carries.
  function OwnedBy<C(==)>(subs: map<string, Info<C>>, c: C): map<string, Subscription> {
    map k <- subs | subs[k].connection == c :: subs[k].subscription
  }

  // The move when some keys are still to come.
  function PartlyMoved<C(==)>(subs: map<string, Info<C>>, from: C, to: C, todo: set<string>): map<string, Info<C>> {
    map k <- subs ::
      if subs[k].connection == from && k !in todo then subs[k].(connection := to) else subs[k]
  }

  function PartlyOwned<C(==)>(subs: map<string, Info<C>>, c: C, todo: set<string>): map<string, Subscription> {
    map k <- subs | subs[k].connection == c && k !in todo :: subs[k].subscription
  }

  lemma MoveOne<C>(subs: map<string, Info<C>>, from: C, to: C, todo: set<string>, k: string)
    requires k in todo && from != to
    requires forall key <- subs :: subs[key].connection != to
    ensures var now, later := PartlyMoved(subs, from, to, todo), PartlyMoved(subs, from, to, todo - {k});
            var listed, next := PartlyOwned(subs, from, todo), PartlyOwned(subs, from, todo - {k});
            if k in now && now[k].connection == from
            then later == now[k := now[k].(connection := to)] && next == listed[k := now[k].subscription]
            else later == now && next == listed
  {
  }

  lemma NothingMoved<C>(subs: map<string, Info<C>>, from: C, to: C, todo: set<string>)
    requires forall k <- subs | subs[k].connection == from :: k in todo
    ensures PartlyMoved(subs, from, to, todo) == subs
    ensures PartlyOwned(subs, from, todo) == map[]
  {
  }

  lemma MoveAll<C>(subs: map<string, Info<C>>, from: C, to: C, todo: set<string>)
    requires todo == {}
    ensures PartlyMoved(subs, from, to, todo) == Moved(subs, from, to)
    ensures PartlyOwned(subs, from, todo) == OwnedBy(subs, from)
  {
  }

  function Position<C(==)>(pool: seq<C>, c: C): (i: nat)
    requires c in pool
    ensures i < |pool| && pool[i] == c
  {
    if pool[0] == c then 0 else 1 + Position(pool[1..], c)
  }

  function Successor<C(==)>(c: C, before: seq<C>, after: seq<C>): C
    requires |after| == |before|
  {
    if c in before then after[Position(before, c)] else c
  }

  // Every key of a pooled connection on what stands at its place now.
  function Rerouted<C(==)>(subs: map<string, Info<C>>, before: seq<C>, after: seq<C>): map<string, Info<C>>
    requires |after| == |before|
  {
    map k <- subs :: subs[k].(connection := Successor(subs[k].connection, before, after))
  }

  lemma PositionOfMember<C>(pool: seq<C>, i: nat)
    requires Distinct(pool) && i < |pool|
    ensures Position(pool, pool[i]) == i
  {
  }

  lemma NothingToReroute<C>(subs: map<string, Info<C>>, pool: seq<C>)
    ensures Rerouted(subs, pool, pool) == subs
  {
  }

  // Replacing one more connection moves exactly its keys.
  lemma OneMoreReplaced<C>(subs: map<string, Info<C>>, before: seq<C>, now: seq<C>, i: nat, c: C)
    requires |now| == |before| && i < |before| && now[i] == before[i]
    requires Distinct(before) && Distinct(now)
    requires forall j :: 0 <= j < |now| ==> now[j] == before[j] || now[j] !in before
    requires forall k <- subs :: subs[k].connection in before || subs[k].connection !in now
    ensures Moved(Rerouted(subs, before, now), before[i], c) == Rerouted(subs, before, now[i := c])
    ensures OwnedBy(Rerouted(subs, before, now), before[i]) == OwnedBy(subs, before[i])
  {
    forall k <- subs
      ensures Successor(subs[k].connection, before, now) == before[i] <==> subs[k].connection == before[i]
    {
      PositionOfMember(before, i);
    }
  }

  // Nothing stays on a connection that lost its place, nothing else moves.
  lemma NothingLeftBehind<C>(subs: map<string, Info<C>>, before: seq<C>, after: seq<C>, k: string)
    requires |after| == |before| && Distinct(before) && k in subs
    requires forall i :: 0 <= i < |after| ==> after[i] == before[i] || after[i] !in before
    ensures var was, now := subs[k], Rerouted(subs, before, after)[k];
            now.subscription == was.subscription && now.callbacks == was.callbacks &&
            (now.connection in before ==> now.connection in after) &&
            (was.connection !in before || was.connection in after ==> now == was)
  {
    var c := subs[k].connection;
    if c in before && c in after {
      var j :| 0 <= j < |after| && after[j] == c;
      PositionOfMember(before, j);
    }
  }

  // ----- Choosing a connection -----

  datatype Load = Load(connected: bool, count: nat)

  predicate HasRoom(l: Load, maxSubscriptions: int) {
    l.connected && l.count < maxSubscriptions
  }

  // None of the first n connections has room.
  predicate NoRoom(loads: seq<Load>, maxSubscriptions: int, n: nat) {
    forall i :: 0 <= i < n && i < |loads| ==> !HasRoom(loads[i], maxSubscriptions)
  }

  // The first of the least loaded live connections, or the first of all when none is live.
  predicate IsLeastLoaded(loads: seq<Load>, i: nat) {
    i < |loads| &&
    (if loads[i].connected
     then forall j :: 0 <= j < |loads| && loads[j].connected ==>
            loads[i].count <= loads[j].count && (j < i ==> loads[i].count < loads[j].count)
     else i == 0 && forall j :: 0 <= j < |loads| ==> !loads[j].connected)
  }

  predicate MayCreate(loads: seq<Load>, maxConnections: int, maxSubscriptions: int) {
    NoRoom(loads, maxSubscriptions, |loads|) && |loads| < maxConnections
  }

  // The first connection with room; without one, and without room for another
  // connection, the least loaded.
  predicate IsChosen(loads: seq<Load>, maxConnections: int, maxSubscriptions: int, i: nat) {
    i < |loads| &&
    if HasRoom(loads[i], maxSubscriptions)
    then NoRoom(loads, maxSubscriptions, i)
    else NoRoom(loads, maxSubscriptions, |loads|) && |loads| >= maxConnections && IsLeastLoaded(loads, i)
  }

  // What the choice does for a new subscription: it goes to the first live
  // connection with a place; when there is none, to a live one that carries no
  // more than any other, if any connection is live.
  lemma ChosenServes(loads: seq<Load>, maxConnections: int, maxSubscriptions: int, i: nat)
    requires IsChosen(loads, maxConnections, maxSubscriptions, i)
    ensures i < |loads|
    ensures (exists j :: 0 <= j < |loads| && loads[j].connected && loads[j].count < maxSubscriptions) ==>
              && loads[i].connected && loads[i].count < maxSubscriptions
              && forall j :: 0 <= j < i ==> !loads[j].connected || loads[j].count >= maxSubscriptions
    ensures (forall j :: 0 <= j < |loads| ==> !loads[j].connected || loads[j].count >= maxSubscriptions) ==>
              && |loads| >= maxConnections
              && (forall j :: 0 <= j < |loads| && loads[j].connected ==>
                    loads[i].connected && loads[i].count <= loads[j].count)
              && (forall j :: 0 <= j < i && loads[j].connected ==> loads[i].count < loads[j].count)
              && (loads[i].connected || i == 0)
  {
    if j :| 0 <= j < |loads| && loads[j].connected && loads[j].count < maxSubscriptions {
      assert HasRoom(loads[j], maxSubscriptions);
    }
  }

  // And a new connection may be made exactly when no live one has a place and the
  // pool is smaller than its cap.
  lemma CreatesExactly(loads: seq<Load>, maxConnections: int, maxSubscriptions: int)
    ensures MayCreate(loads, maxConnections, maxSubscriptions) <==>
            |loads| < maxConnections &&
            forall j :: 0 <= j < |loads| ==> !loads[j].connected || loads[j].count >= maxSubscriptions
  {
    if MayCreate(loads, maxConnections, maxSubscriptions) {
      forall j | 0 <= j < |loads| ensures !loads[j].connected || loads[j].count >= maxSubscriptions {
        assert !HasRoom(loads[j], maxSubscriptions);
      }
    }
  }

  // There is exactly one answer.
  lemma ChoiceIsUnique(loads: seq<Load>, maxConnections: int, maxSubscriptions: int, i: nat, j: nat)
    requires IsChosen(loads, maxConnections, maxSubscriptions, i)
    ensures IsChosen(loads, maxConnections, maxSubscriptions, j) <==> i == j
    ensures !MayCreate(loads, maxConnections, maxSubscriptions)
  {
  }
}
