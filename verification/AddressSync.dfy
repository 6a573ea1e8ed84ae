// The address loader as the mutable object it is.
module AddressSync {
  import opened Basics
  import opened GracePeriod

  // The subscription side: an address is on its list even when the call for it
  // fails, and a failure is only logged.
  class Subscriber {
    var subscribed: set<string>

    constructor ()
      ensures subscribed == {}
    {
      subscribed := {};
    }

    method SubscribeAddress(addr: string) returns (ok: bool)
      modifies this
      ensures subscribed == old(subscribed) + {addr}
    {
      subscribed := subscribed + {addr};
      ok := *;
    }

    method UnsubscribeAddress(addr: string) returns (ok: bool)
      modifies this
      ensures subscribed == old(subscribed) - {addr}
    {
      subscribed := subscribed - {addr};
      ok := *;
    }
  }

  class AddressLoader {
    const subscribers: seq<Subscriber>
    const removeGrace: int
    var lastAddrs: set<string>
    var pendingRemove: map<string, int>

    constructor (subscribers: seq<Subscriber>, removeGrace: int)
      requires Distinct(subscribers) && forall sub <- subscribers :: sub.subscribed == {}
      ensures this.subscribers == subscribers && this.removeGrace == removeGrace
      ensures forall sub <- subscribers :: View(sub) == EMPTY
    {
      this.subscribers := subscribers;
      this.removeGrace := removeGrace;
      lastAddrs, pendingRemove := {}, map[];
    }

    function View(sub: Subscriber): Loader
      reads this, sub
    {
      Loader(lastAddrs, pendingRemove, sub.subscribed)
    }

    // New addresses; pending ones that came back are no longer pending.
    method FindAdded(addrs: set<string>) returns (toAdd: set<string>)
      modifies this`pendingRemove
      ensures toAdd == addrs - lastAddrs
      ensures pendingRemove == old(pendingRemove) - addrs
    {
      toAdd := {};
      var todo := addrs;
      ghost var done := {};
      while todo != {}
        invariant todo !! done && todo + done == addrs
        invariant toAdd == done - lastAddrs
        invariant pendingRemove == old(pendingRemove) - done
        decreases todo
      {
        var addr :| addr in todo;
        todo, done := todo - {addr}, done + {addr};
        if addr !in lastAddrs {
          toAdd := toAdd + {addr};
        }
        if addr in pendingRemove {
          pendingRemove := pendingRemove - {addr};
        }
      }
    }

    method NoteMissing(addrs: set<string>, now: int)
      modifies this`pendingRemove
      ensures pendingRemove ==
        (map a | a in old(pendingRemove).Keys + (lastAddrs - addrs) ::
           if a in old(pendingRemove) then old(pendingRemove)[a] else now)
    {
      var todo := lastAddrs;
      ghost var done := {};
      ghost var before := pendingRemove;
      while todo != {}
        invariant todo !! done && todo + done == lastAddrs
        invariant pendingRemove ==
          (map a | a in before.Keys + (done - addrs) :: if a in before then before[a] else now)
        decreases todo
      {
        var addr :| addr in todo;
        todo, done := todo - {addr}, done + {addr};
        if addr !in addrs && addr !in pendingRemove {
          pendingRemove := pendingRemove[addr := now];
        }
      }
    }

    method TakeExpired(now: int) returns (toUnsubscribe: set<string>)
      modifies this`pendingRemove
      ensures toUnsubscribe ==
        (set a | a in old(pendingRemove) && now - old(pendingRemove)[a] >= removeGrace)
      ensures pendingRemove == old(pendingRemove) - toUnsubscribe
    {
      toUnsubscribe := {};
      var todo := pendingRemove.Keys;
      ghost var done := {};
      ghost var before := pendingRemove;
      while todo != {}
        invariant todo !! done && todo + done == before.Keys
        invariant toUnsubscribe == (set a | a in done && now - before[a] >= removeGrace)
        invariant pendingRemove == before - toUnsubscribe
        decreases todo
      {
        var addr :| addr in todo;
        todo, done := todo - {addr}, done + {addr};
        if now - pendingRemove[addr] >= removeGrace {
          toUnsubscribe := toUnsubscribe + {addr};
          pendingRemove := pendingRemove - {addr};
        }
      }
    }

    method SubscribeAll(addr: string)
      requires Distinct(subscribers)
      modifies subscribers
      ensures forall sub <- subscribers :: sub.subscribed == old(sub.subscribed) + {addr}
    {
      for i := 0 to |subscribers|
        invariant forall j :: 0 <= j < i ==> subscribers[j].subscribed == old(subscribers[j].subscribed) + {addr}
        invariant forall j :: i <= j < |subscribers| ==> subscribers[j].subscribed == old(subscribers[j].subscribed)
      {
        var ok := subscribers[i].SubscribeAddress(addr);
      }
    }

    method UnsubscribeAll(addr: string)
      requires Distinct(subscribers)
      modifies subscribers
      ensures forall sub <- subscribers :: sub.subscribed == old(sub.subscribed) - {addr}
    {
      for i := 0 to |subscribers|
        invariant forall j :: 0 <= j < i ==> subscribers[j].subscribed == old(subscribers[j].subscribed) - {addr}
        invariant forall j :: i <= j < |subscribers| ==> subscribers[j].subscribed == old(subscribers[j].subscribed)
      {
        var ok := subscribers[i].UnsubscribeAddress(addr);
      }
    }

    method CallSubscribers(toAdd: set<string>, toUnsubscribe: set<string>)
      requires Distinct(subscribers)
      modifies subscribers
      ensures forall sub <- subscribers :: sub.subscribed == old(sub.subscribed) + toAdd - toUnsubscribe
    {
      var todo := toAdd;
      while todo != {}
        invariant todo <= toAdd
        invariant forall sub <- subscribers :: sub.subscribed == old(sub.subscribed) + (toAdd - todo)
        decreases todo
      {
        var addr :| addr in todo;
        todo := todo - {addr};
        SubscribeAll(addr);
      }
      assert toAdd - {} == toAdd;
      todo := toUnsubscribe;
      while todo != {}
        invariant todo <= toUnsubscribe
        invariant forall sub <- subscribers :: sub.subscribed == old(sub.subscribed) + toAdd - (toUnsubscribe - todo)
        decreases todo
      {
        var addr :| addr in todo;
        todo := todo - {addr};
        UnsubscribeAll(addr);
      }
      assert toUnsubscribe - {} == toUnsubscribe;
    }

    // One reload; a failed query changes nothing and calls nobody.
    method LoadAndSync(result: Option<set<string>>, now: int) returns (ok: bool)
      requires Distinct(subscribers)
      modifies this`lastAddrs, this`pendingRemove, subscribers
      ensures ok <==> result.Some?
      ensures var known := Loader(old(lastAddrs), old(pendingRemove), {});
              var next := if ok then Sync(known, Load(now, result.value), removeGrace) else known;
              lastAddrs == next.lastAddrs && pendingRemove == next.pendingRemove
      ensures forall sub <- subscribers ::
                View(sub) == if ok then Sync(old(View(sub)), Load(now, result.value), removeGrace) else old(View(sub))
    {
      if result.None? {
        return false;
      }
      ghost var last, pending := lastAddrs, pendingRemove;
      var addrs := result.value;
      var toAdd := FindAdded(addrs);
      NoteMissing(addrs, now);
      assert forall subscribed :: pendingRemove == Missing(Loader(last, pending, subscribed), Load(now, addrs));
      var toUnsubscribe := TakeExpired(now);
      lastAddrs := addrs + pendingRemove.Keys;
      CallSubscribers(toAdd, toUnsubscribe);
      return true;
    }
  }
}
