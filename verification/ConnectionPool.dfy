// The connection pool: subscriptions routed over connections that come and go.
module ConnectionPool {
  import opened Basics
  import opened RoutingTable

  // A connection and the subscriptions listed on it. A connection that was lost
  // is never restored: it is replaced.
  class Connection {
    var connected: bool
    var subscriptions: map<string, Subscription>

    constructor ()
      ensures connected && subscriptions == map[]
    {
      connected, subscriptions := true, map[];
    }

    method AddSubscription(key: string, sub: Subscription)
      modifies this`subscriptions
      ensures subscriptions == old(subscriptions)[key := sub]
    {
      subscriptions := subscriptions[key := sub];
    }

    method RemoveSubscription(key: string)
      modifies this`subscriptions
      ensures subscriptions == old(subscriptions) - {key}
    {
      subscriptions := subscriptions - {key};
    }

    method Disconnect()
      modifies this`connected
      ensures !connected
    {
      connected := false;
    }
  }

  datatype Handle = Handle(id: int, key: string)

  // Crashed: the call goes on with a nil connection, which ends the program.
  datatype Outcome = Subscribed(handle: Handle) | DialFailed | SendFailed | Crashed

  ghost function LoadOf(c: Connection): Load
    reads c
  {
    Load(c.connected, |c.subscriptions|)
  }

  ghost function Loads(pool: seq<Connection>): (loads: seq<Load>)
    reads set c | c in pool
    ensures |loads| == |pool|
    ensures forall i :: 0 <= i < |pool| ==> loads[i] == LoadOf(pool[i])
  {
    if pool == [] then []
    else
      assert forall c <- pool[1..] :: c in pool;
      [LoadOf(pool[0])] + Loads(pool[1..])
  }

  class PoolManager {
    const maxConnections: int
    const maxSubscriptions: int
    var connections: seq<Connection>
    var subscriptions: map<string, Info<Connection>>
    var callbackIDSeq: int
    // Every connection ever made, pooled or not.
    ghost var wrappers: set<Connection>

    ghost predicate Pooled()
      reads this`connections, this`wrappers
    {
      Distinct(connections) && forall c <- connections :: c in wrappers
    }

    // Every routed key is listed on its connection.
    ghost predicate RoutesListed()
      reads this`subscriptions, this`wrappers, wrappers
    {
      forall k <- subscriptions ::
        var info := subscriptions[k];
        info.connection in wrappers && Key(info.subscription) == k &&
        k in info.connection.subscriptions && info.connection.subscriptions[k] == info.subscription
    }

    // A live connection lists nothing but the keys routed to it.
    ghost predicate ListingsRouted()
      reads this`subscriptions, this`wrappers, wrappers
    {
      forall c <- wrappers | c.connected ::
        forall k <- c.subscriptions :: k in subscriptions && subscriptions[k].connection == c
    }

    ghost predicate Valid()
      reads this, wrappers
    {
      Pooled() && RoutesListed() && ListingsRouted()
    }

    constructor (maxConnections: int, maxSubscriptions: int)
      ensures Valid() && wrappers == {}
      ensures this.maxConnections == maxConnections && this.maxSubscriptions == maxSubscriptions
      ensures connections == [] && subscriptions == map[]
    {
      this.maxConnections, this.maxSubscriptions := maxConnections, maxSubscriptions;
      connections, subscriptions, callbackIDSeq, wrappers := [], map[], 0, {};
    }

    method CreateConnection(dialed: bool) returns (c: Connection?)
      requires Valid()
      modifies this`wrappers
      ensures Valid()
      ensures if dialed then c != null && fresh(c) && c.connected && c.subscriptions == map[] &&
                             wrappers == old(wrappers) + {c}
              else c == null && wrappers == old(wrappers)
    {
      c := null;
      if dialed {
        c := new Connection();
        wrappers := wrappers + {c};
      }
    }

    // Starting puts the first connection into the pool.
    method Start(dialed: bool) returns (ok: bool)
      requires Valid() && connections == []
      modifies this`wrappers, this`connections
      ensures Valid() && ok == dialed
      ensures if ok then |connections| == 1 && fresh(connections[0]) && connections[0].connected &&
                         connections[0].subscriptions == map[] && wrappers == old(wrappers) + {connections[0]}
              else connections == [] && wrappers == old(wrappers)
    {
      var c := CreateConnection(dialed);
      ok := c != null;
      if c != null {
        connections := connections + [c];
      }
    }

    // None, that is the end of the pool, for an empty pool.
    method LeastLoadedConnection() returns (i: nat)
      ensures if connections == [] then i == |connections| else IsLeastLoaded(Loads(connections), i)
    {
      var selected, n := -1, 0;
      while n < |connections|
        invariant 0 <= n <= |connections| && -1 <= selected < n
        invariant selected == -1 ==> forall j :: 0 <= j < n ==> !connections[j].connected
        invariant selected >= 0 ==> connections[selected].connected
        invariant selected >= 0 ==>
                    forall j :: 0 <= j < n && connections[j].connected ==>
                      |connections[selected].subscriptions| <= |connections[j].subscriptions| &&
                      (j < selected ==> |connections[selected].subscriptions| < |connections[j].subscriptions|)
      {
        if connections[n].connected &&
           (selected == -1 || |connections[n].subscriptions| < |connections[selected].subscriptions|) {
          selected := n;
        }
        n := n + 1;
      }
      i := if selected == -1 then 0 else selected;
    }

    method FirstWithRoom() returns (i: nat)
      ensures i <= |connections|
      ensures forall j :: 0 <= j < i ==> !HasRoom(LoadOf(connections[j]), maxSubscriptions)
      ensures i < |connections| ==> HasRoom(LoadOf(connections[i]), maxSubscriptions)
    {
      i := 0;
      while i < |connections| && !(connections[i].connected && |connections[i].subscriptions| < maxSubscriptions)
        invariant i <= |connections|
        invariant forall j :: 0 <= j < i ==> !HasRoom(LoadOf(connections[j]), maxSubscriptions)
      {
        i := i + 1;
      }
    }

    ghost predicate Offers(c: Connection)
      reads this`connections, set c | c in connections
    {
      exists i: nat :: IsChosen(Loads(connections), maxConnections, maxSubscriptions, i) && c == connections[i]
    }

    ghost predicate MayGrow()
      reads this`connections, set c | c in connections
    {
      MayCreate(Loads(connections), maxConnections, maxSubscriptions)
    }

    ghost predicate OffersLive()
      reads this`connections, set c | c in connections
    {
      exists i: nat ::
        IsChosen(Loads(connections), maxConnections, maxSubscriptions, i) && connections[i].connected
    }

    // An empty pool that may not grow has no connection to offer.
    ghost predicate Stuck()
      reads this`connections
    {
      connections == [] && maxConnections <= 0
    }

    // The pooled connection to use, or none.
    method Search() returns (i: nat)
      ensures i <= |connections|
      ensures i < |connections| ==> IsChosen(Loads(connections), maxConnections, maxSubscriptions, i)
      ensures i == |connections| <==> MayGrow() || Stuck()
    {
      i := FirstWithRoom();
      if i == |connections| >= maxConnections {
        i := LeastLoadedConnection();
      }
    }

    // A pooled connection, or a new one, which is not put into the pool; none when
    // the dial fails, and none, without a failure, when the pool is stuck.
    method AcquireConnection(dialed: bool) returns (c: Connection?, failed: bool)
      requires Valid()
      modifies this`wrappers
      ensures Valid() && old(wrappers) <= wrappers
      ensures failed <==> old(MayGrow()) && !dialed
      ensures c == null <==> failed || Stuck()
      ensures wrappers == old(wrappers) + if c == null then {} else {c}
      ensures |wrappers| == |old(wrappers)| + if old(MayGrow()) && dialed then 1 else 0
      ensures c != null && c !in old(wrappers) ==>
                old(MayGrow()) && fresh(c) && c.connected && c.subscriptions == map[]
      ensures c != null && c in old(wrappers) ==>
                old(Offers(c)) && (c.connected ==> old(OffersLive()))
    {
      var i := Search();
      failed := false;
      if i < |connections| {
        c := connections[i];
      } else if |connections| < maxConnections {
        c := CreateConnection(dialed);
        failed := c == null;
      } else {
        c := null;
      }
    }

    method Join(key: string, id: int, callback: Callback)
      requires Valid() && key in subscriptions
      modifies this`subscriptions
      ensures Valid()
      ensures var info := old(subscriptions)[key];
              subscriptions ==
              old(subscriptions)[key := info.(callbacks := info.callbacks[id := callback])]
    {
      var info := subscriptions[key];
      subscriptions := subscriptions[key := info.(callbacks := info.callbacks[id := callback])];
    }

    // Routes a new key to a connection; a live one has to accept the request.
    method RouteTo(conn: Connection, sub: Subscription, id: int, callback: Callback, sent: bool) returns (ok: bool)
      requires Valid() && conn in wrappers && Key(sub) !in subscriptions
      modifies this`subscriptions, conn`subscriptions
      ensures Valid() && ok == (sent || !conn.connected)
      ensures ok ==>
                subscriptions == old(subscriptions)[Key(sub) := Info(sub, map[id := callback], conn)] &&
                conn.subscriptions == old(conn.subscriptions)[Key(sub) := sub]
      ensures !ok ==> subscriptions == old(subscriptions) && conn.subscriptions == old(conn.subscriptions)
    {
      ok := sent || !conn.connected;
      if ok {
        Admit(conn, sub, id, callback);
      } else {
        InsertThenDelete(subscriptions, Key(sub), Info(sub, map[id := callback], conn));
        InsertRoute(conn, sub, id, callback);
        RollBack(Key(sub));
      }
    }

    method Admit(conn: Connection, sub: Subscription, id: int, callback: Callback)
      requires Valid() && conn in wrappers && Key(sub) !in subscriptions
      modifies this`subscriptions, conn`subscriptions
      ensures Valid()
      ensures subscriptions == old(subscriptions)[Key(sub) := Info(sub, map[id := callback], conn)]
      ensures conn.subscriptions == old(conn.subscriptions)[Key(sub) := sub]
    {
      InsertRoute(conn, sub, id, callback);
      conn.AddSubscription(Key(sub), sub);
    }

    method InsertRoute(conn: Connection, sub: Subscription, id: int, callback: Callback)
      modifies this`subscriptions
      ensures subscriptions == old(subscriptions)[Key(sub) := Info(sub, map[id := callback], conn)]
    {
      subscriptions := subscriptions[Key(sub) := Info(sub, map[id := callback], conn)];
    }

    method RollBack(key: string)
      modifies this`subscriptions
      ensures subscriptions == old(subscriptions) - {key}
    {
      subscriptions := subscriptions - {key};
    }

    // A new key is routed to the acquired connection and listed there, unless
    // the dial or the send fails: then the table is as before.
    method SubscribeNew(sub: Subscription, id: int, callback: Callback, dialed: bool, sent: bool)
      returns (r: Outcome, conn: Connection?)
      requires Valid() && Key(sub) !in subscriptions
      modifies this`wrappers, this`subscriptions, wrappers
      ensures Valid() && old(wrappers) <= wrappers && fresh(wrappers - old(wrappers))
      ensures |wrappers| == |old(wrappers)| + if old(MayGrow()) && dialed then 1 else 0
      ensures forall c <- wrappers | c !in old(wrappers) :: c.connected
      ensures conn == null <==> r.DialFailed? || r.Crashed?
      ensures conn != null ==>
                && (r.Subscribed? <==> sent || !conn.connected)
                && if conn in old(wrappers) then old(Offers(conn)) && (conn.connected ==> old(OffersLive()))
                   else conn.connected && old(MayGrow())
      ensures if r.Subscribed?
              then r.handle == Handle(id, Key(sub)) &&
                   subscriptions == old(subscriptions)[Key(sub) := Info(sub, map[id := callback], conn)]
              else subscriptions == old(subscriptions)
      ensures r.DialFailed? <==> old(MayGrow()) && !dialed
      ensures r.Crashed? <==> Stuck()
      ensures forall c <- old(wrappers) | c != conn :: unchanged(c)
      ensures conn in old(wrappers) ==>
                conn.connected == old(conn.connected) &&
                conn.subscriptions ==
                if r.Subscribed? then old(conn.subscriptions)[Key(sub) := sub] else old(conn.subscriptions)
    {
      var failed;
      conn, failed := AcquireConnection(dialed);
      if conn == null {
        r := if failed then DialFailed else Crashed;
      } else {
        var ok := RouteTo(conn, sub, id, callback, sent);
        r := if ok then Subscribed(Handle(id, Key(sub))) else SendFailed;
      }
    }

    // A second callback for a routed key joins it; a new key gets a connection.
    method Subscribe(sub: Subscription, callback: Callback, dialed: bool, sent: bool) returns (r: Outcome)
      requires Valid()
      modifies this`wrappers, this`subscriptions, this`callbackIDSeq, wrappers
      ensures Valid() && old(wrappers) <= wrappers && fresh(wrappers - old(wrappers))
      ensures callbackIDSeq == old(callbackIDSeq) + 1
      ensures r.Subscribed? ==> r.handle == Handle(callbackIDSeq, Key(sub)) && Key(sub) in subscriptions
      ensures Key(sub) in old(subscriptions) ==>
                r.Subscribed? && wrappers == old(wrappers) &&
                var info := old(subscriptions)[Key(sub)];
                subscriptions ==
                old(subscriptions)[Key(sub) := info.(callbacks := info.callbacks[callbackIDSeq := callback])]
      ensures Key(sub) !in old(subscriptions) && r.Subscribed? ==>
                var c := subscriptions[Key(sub)].connection;
                subscriptions == old(subscriptions)[Key(sub) := Info(sub, map[callbackIDSeq := callback], c)] &&
                (sent || !c.connected) &&
                if c in old(wrappers) then old(Offers(c)) else c.connected && old(MayGrow())
      ensures r.DialFailed? <==> Key(sub) !in old(subscriptions) && old(MayGrow()) && !dialed
      ensures r.Crashed? <==> Key(sub) !in old(subscriptions) && Stuck()
      ensures r.SendFailed? ==>
                Key(sub) !in old(subscriptions) && !sent && (old(MayGrow()) || old(OffersLive()))
      ensures |wrappers| ==
              |old(wrappers)| + if Key(sub) !in old(subscriptions) && old(MayGrow()) && dialed then 1 else 0
      ensures forall c <- wrappers | c !in old(wrappers) :: c.connected
      ensures !r.Subscribed? ==> subscriptions == old(subscriptions)
      ensures forall c <- old(wrappers) ::
                c.connected == old(c.connected) &&
                c.subscriptions ==
                if r.Subscribed? && Key(sub) !in old(subscriptions) && c == subscriptions[Key(sub)].connection
                then old(c.subscriptions)[Key(sub) := sub] else old(c.subscriptions)
    {
      var id := callbackIDSeq + 1;
      if Key(sub) in subscriptions {
        Join(Key(sub), id, callback);
        r := Subscribed(Handle(id, Key(sub)));
      } else {
        var conn;
        r, conn := SubscribeNew(sub, id, callback, dialed, sent);
      }
      callbackIDSeq := id;
    }

    // Giving up any handle of a key drops the key with all its callbacks; a lost
    // connection keeps its listing.
    method Unsubscribe(handle: Handle)
      requires Valid()
      modifies this`subscriptions, wrappers
      ensures Valid()
      ensures subscriptions == old(subscriptions) - {handle.key}
      ensures forall c <- wrappers ::
                c.connected == old(c.connected) &&
                c.subscriptions ==
                if handle.key in old(subscriptions) && c == old(subscriptions)[handle.key].connection && c.connected
                then old(c.subscriptions) - {handle.key} else old(c.subscriptions)
    {
      var key := handle.key;
      if key !in subscriptions {
        return;
      }
      var conn := subscriptions[key].connection;
      subscriptions := subscriptions - {key};
      if conn.connected {
        conn.RemoveSubscription(key);
      }
    }

    // Moves exactly the keys routed to the old connection; entries it lists for
    // keys that are gone or routed elsewhere are skipped.
    method MigrateAndResubscribe(oldConn: Connection, newConn: Connection)
      requires RoutesListed()
      requires oldConn in wrappers && newConn != oldConn && newConn.subscriptions == map[]
      requires forall k <- subscriptions :: subscriptions[k].connection != newConn
      modifies this`subscriptions, newConn`subscriptions
      ensures subscriptions == Moved(old(subscriptions), oldConn, newConn)
      ensures newConn.subscriptions == OwnedBy(old(subscriptions), oldConn)
    {
      var todo := oldConn.subscriptions.Keys;
      ghost var before := subscriptions;
      NothingMoved(before, oldConn, newConn, todo);
      while todo != {}
        invariant todo <= oldConn.subscriptions.Keys
        invariant oldConn.subscriptions == old(oldConn.subscriptions)
        invariant subscriptions == PartlyMoved(before, oldConn, newConn, todo)
        invariant newConn.subscriptions == PartlyOwned(before, oldConn, todo)
        decreases |todo|
      {
        var key :| key in todo;
        MoveOne(before, oldConn, newConn, todo, key);
        todo := todo - {key};
        if key in subscriptions && subscriptions[key].connection == oldConn {
          var info := subscriptions[key];
          subscriptions := subscriptions[key := info.(connection := newConn)];
          newConn.AddSubscription(key, info.subscription);
        }
      }
      MoveAll(before, oldConn, newConn, todo);
    }

    // What a repair that got through the first n places leaves behind: lost
    // connections there are replaced, the others stand.
    ghost predicate Replaced(before: seq<Connection>, n: nat)
      reads this`connections, set c | c in before, set c | c in connections
    {
      |connections| == |before| && n <= |before| &&
      (forall i :: 0 <= i < n && before[i].connected ==> connections[i] == before[i]) &&
      (forall i :: 0 <= i < n && !before[i].connected ==> connections[i].connected && connections[i] !in before) &&
      (forall i :: n <= i < |before| ==> connections[i] == before[i])
    }

    // A new connection lists what its predecessor carried.
    ghost predicate Inherited(before: seq<Connection>, subs: map<string, Info<Connection>>)
      reads this`connections, set c | c in connections
    {
      |connections| == |before| &&
      forall i :: 0 <= i < |before| && connections[i] != before[i] ==>
        connections[i].subscriptions == OwnedBy(subs, before[i])
    }

    // Puts a new connection in the place of a lost one.
    method Replace(i: nat)
      requires Valid() && i < |connections| && !connections[i].connected
      modifies this`connections, this`wrappers, this`subscriptions
      ensures Valid() && |connections| == |old(connections)|
      ensures connections == old(connections)[i := connections[i]]
      ensures fresh(connections[i]) && wrappers == old(wrappers) + {connections[i]}
      ensures connections[i].connected
      ensures connections[i].subscriptions == OwnedBy(old(subscriptions), old(connections)[i])
      ensures subscriptions == Moved(old(subscriptions), old(connections)[i], connections[i])
    {
      var lost := connections[i];
      var c := new Connection();
      wrappers := wrappers + {c};
      connections := connections[i := c];
      MigrateAndResubscribe(lost, c);
    }

    ghost predicate AllLive()
      reads this`subscriptions, set k <- subscriptions :: subscriptions[k].connection
    {
      forall k <- subscriptions :: subscriptions[k].connection.connected
    }

    // After a full repair exactly the keys whose connection was live or pooled are live.
    lemma LiveExactly(before: seq<Connection>, subs: map<string, Info<Connection>>)
      requires Distinct(before) && Replaced(before, |before|)
      requires subscriptions == Rerouted(subs, before, connections)
      ensures AllLive() <==>
              forall k <- subs :: subs[k].connection.connected || subs[k].connection in before
    {
      assert subscriptions.Keys == subs.Keys;
      forall k <- subs
        ensures subscriptions[k].connection.connected <==>
                subs[k].connection.connected || subs[k].connection in before
      {
        var c := subs[k].connection;
        if c in before {
          assert before[Position(before, c)] == c;
        }
      }
    }

    ghost predicate Unpooled(before: seq<Connection>, subs: map<string, Info<Connection>>)
      reads this`connections
    {
      forall k <- subs :: subs[k].connection in before || subs[k].connection !in connections
    }

    // One more step of a repair that has got through the first i places.
    method ReplaceNext(i: nat, ghost before: seq<Connection>, ghost subs: map<string, Info<Connection>>)
      requires Valid() && i < |connections| && !connections[i].connected
      requires Distinct(before) && Replaced(before, i) && Inherited(before, subs) && Unpooled(before, subs)
      requires forall c <- before :: c in wrappers
      requires forall k <- subs :: subs[k].connection in wrappers
      requires subscriptions == Rerouted(subs, before, connections)
      modifies this`connections, this`wrappers, this`subscriptions
      ensures Valid() && old(wrappers) <= wrappers && fresh(wrappers - old(wrappers))
      ensures Replaced(before, i + 1) && Inherited(before, subs) && Unpooled(before, subs)
      ensures subscriptions == Rerouted(subs, before, connections)
    {
      ghost var now := connections;
      Replace(i);
      OneMoreReplaced(subs, before, now, i, connections[i]);
    }

    lemma OneMoreStands(before: seq<Connection>, i: nat)
      requires Replaced(before, i) && i < |connections| && connections[i].connected
      ensures Replaced(before, i + 1)
    {
    }

    // Each lost connection in turn, until a dial fails.
    method ReplaceLost(dials: seq<bool>) returns (reached: nat)
      requires Valid() && |dials| == |connections|
      modifies this`connections, this`wrappers, this`subscriptions
      ensures Valid() && old(wrappers) <= wrappers && fresh(wrappers - old(wrappers))
      ensures reached <= |dials|
      ensures reached < |dials| ==> !old(connections)[reached].connected && !dials[reached]
      ensures forall i :: 0 <= i < reached ==> old(connections)[i].connected || dials[i]
      ensures Replaced(old(connections), reached) && Inherited(old(connections), old(subscriptions))
      ensures subscriptions == Rerouted(old(subscriptions), old(connections), connections)
    {
      ghost var before, subs := connections, subscriptions;
      NothingToReroute(subs, before);
      reached := 0;
      while reached < |connections| && (connections[reached].connected || dials[reached])
        invariant Valid() && old(wrappers) <= wrappers && fresh(wrappers - old(wrappers))
        invariant Replaced(before, reached) && Inherited(before, subs) && Unpooled(before, subs)
        invariant subscriptions == Rerouted(subs, before, connections)
        invariant forall j :: 0 <= j < reached ==> before[j].connected || dials[j]
      {
        if connections[reached].connected {
          OneMoreStands(before, reached);
        } else {
          ReplaceNext(reached, before, subs);
        }
        reached := reached + 1;
      }
    }

    // Repairs the pool; fails at the first lost connection that cannot be redialled,
    // keeping the repairs made before it. Connections outside the pool are not looked at.
    method RepairConnections(dials: seq<bool>) returns (ok: bool, ghost reached: nat)
      requires Valid() && |dials| == |connections|
      modifies this`connections, this`wrappers, this`subscriptions
      ensures Valid() && old(wrappers) <= wrappers && fresh(wrappers - old(wrappers))
      ensures ok == (reached == |dials|)
      ensures !ok ==> reached < |dials| && !old(connections)[reached].connected && !dials[reached]
      ensures forall i :: 0 <= i < reached && i < |dials| ==> old(connections)[i].connected || dials[i]
      ensures Replaced(old(connections), reached) && Inherited(old(connections), old(subscriptions))
      ensures subscriptions == Rerouted(old(subscriptions), old(connections), connections)
      ensures ok ==>
                (AllLive() <==> forall k <- old(subscriptions) ::
                   old(subscriptions)[k].connection.connected || old(subscriptions)[k].connection in old(connections))
    {
      var n := ReplaceLost(dials);
      ok, reached := n == |connections|, n;
      if ok {
        LiveExactly(old(connections), old(subscriptions));
      }
    }

    // A connection is lost, in the pool or outside it.
    method Lose(c: Connection)
      requires Valid() && c in wrappers
      modifies c`connected
      ensures Valid() && !c.connected
    {
      c.Disconnect();
    }
  }
}
