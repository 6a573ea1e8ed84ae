// The order processor as the mutable object it is: every method is proved to
// do to the object's state exactly what the protocol's step does to its value.
module OrderProcessor {
  import opened Basics
  import opened Keys
  import opened Filters
  import opened OrderProtocol
  import opened Caches

  class PendingOrder {
    var aggregation: Aggregation
    var seenTids: set<int>
    const firstFillTime: int

    constructor (aggregation: Aggregation, firstFillTime: int)
      ensures Value() == Leg(aggregation, {}, firstFillTime)
    {
      this.aggregation := aggregation;
      this.firstFillTime := firstFillTime;
      seenTids := {};
    }

    function Value(): Leg
      reads this
    {
      Leg(aggregation, seenTids, firstFillTime)
    }
  }

  class Processor {
    const deduper: DedupCache
    const statusTracker: StatusTracker
    var pendingOrders: map<string, PendingOrder>
    var flushChan: seq<FlushReq>
    var dropped: seq<FlushReq>
    var published: seq<Publication>      // what the publisher has sent
    var persisted: seq<Aggregation>      // what persistOrder has handed to the batch writer
    ghost var accepted: seq<Accepted>

    ghost predicate Valid()
      reads this
    {
      && deduper.ttl == DEDUP_TTL && statusTracker.ttl == TRACKER_TTL
      && forall k, l :: k in pendingOrders && l in pendingOrders && k != l ==>
           pendingOrders[k] != pendingOrders[l]
    }

    function Legs(): map<string, Leg>
      reads this, pendingOrders.Values
    {
      map k | k in pendingOrders :: pendingOrders[k].Value()
    }

    ghost function View(now: int): Proc
      reads this, deduper, statusTracker, pendingOrders.Values
    {
      Proc(now, Legs(), statusTracker.entries, deduper.entries, flushChan, dropped,
           published, accepted, persisted)
    }

    constructor (deduper: DedupCache, statusTracker: StatusTracker)
      requires deduper.ttl == DEDUP_TTL && deduper.entries == map[]
      requires statusTracker.ttl == TRACKER_TTL && statusTracker.entries == map[]
      ensures Valid() && this.deduper == deduper && this.statusTracker == statusTracker
      ensures forall now :: View(now) == Init(now)
    {
      this.deduper := deduper;
      this.statusTracker := statusTracker;
      pendingOrders, flushChan, dropped := map[], [], [];
      published, persisted, accepted := [], [], [];
    }

    method CalculateWeightedAvg(fills: seq<Fill>) returns (totalSize: real, avgPx: real)
      ensures totalSize == SumSize(fills) && avgPx == WeightedAvg(fills)
    {
      totalSize := 0.0;
      var totalValue := 0.0;
      for i := 0 to |fills|
        invariant totalSize == SumSize(fills[..i]) && totalValue == SumValue(fills[..i])
      {
        assert fills[..i + 1][..i] == fills[..i];
        totalSize := totalSize + fills[i].sz;
        totalValue := totalValue + fills[i].sz * fills[i].px;
      }
      assert fills[..|fills|] == fills;
      if totalSize == 0.0 {
        return 0.0, 0.0;
      }
      avgPx := totalValue / totalSize;
    }

    method TriggerFlush(key: string, trigger: Trigger, status: string)
      requires Valid()
      modifies this`flushChan, this`dropped
      ensures Valid()
      ensures forall now :: View(now) == Request(old(View(now)), FlushReq(key, trigger, status))
    {
      if |flushChan| < FLUSH_CAPACITY {
        flushChan := flushChan + [FlushReq(key, trigger, status)];
      } else {
        dropped := dropped + [FlushReq(key, trigger, status)];
      }
    }

    method PersistOrder(agg: Aggregation)
      modifies this`persisted
      ensures persisted == old(persisted) + [agg]
    {
      persisted := persisted + [agg];
    }

    method CreateLeg(key: string, address: string, fill: Fill, direction: string, now: int)
      requires Valid() && key == OrderKey(address, fill.oid, direction) && key !in pendingOrders
      modifies this`pendingOrders, this`persisted, this`accepted
      ensures Valid() && fresh(pendingOrders.Values - old(pendingOrders.Values))
      ensures View(now) == StoreFill(old(View(now)), address, fill, direction)
    {
      var order := new PendingOrder(
        Aggregation(address, fill.oid, direction, [fill], fill.sz, fill.px, "open", Unix(now), false, now), now);
      pendingOrders := pendingOrders[key := order];
      accepted := accepted + [Accepted(key, fill)];
      PersistOrder(order.aggregation);
      assert Legs() == old(Legs())[key := NewLeg(address, fill, direction, now)];
    }

    method AppendFill(key: string, address: string, fill: Fill, direction: string, now: int)
      requires Valid() && key == OrderKey(address, fill.oid, direction) && key in pendingOrders
      modifies this`persisted, this`accepted, pendingOrders[key]
      ensures Valid()
      ensures View(now) == StoreFill(old(View(now)), address, fill, direction)
    {
      var pending := pendingOrders[key];
      ghost var leg := pending.Value();
      UpdateLeg(pending, fill, now);
      accepted := accepted + [Accepted(key, fill)];
      PersistOrder(pending.aggregation);
      assert Legs() == old(Legs())[key := AddFill(leg, fill, now)];
    }

    method UpdateLeg(pending: PendingOrder, fill: Fill, now: int)
      modifies pending
      ensures pending.Value() == AddFill(old(pending.Value()), fill, now)
    {
      pending.seenTids := pending.seenTids + {fill.tid};
      var fills := pending.aggregation.fills + [fill];
      var totalSize, avgPx := CalculateWeightedAvg(fills);
      pending.aggregation := pending.aggregation.(fills := fills, totalSize := totalSize,
        weightedAvgPx := avgPx, lastFillTime := Unix(now), updatedAt := now);
    }

    // Creates the leg, or appends to it; false when the leg already has the
    // fill's tid or was already sent.
    method Aggregate(key: string, address: string, fill: Fill, direction: string, now: int)
      returns (stored: bool)
      requires Valid() && key == OrderKey(address, fill.oid, direction)
      modifies this`pendingOrders, this`persisted, this`accepted, pendingOrders.Values
      ensures Valid() && fresh(pendingOrders.Values - old(pendingOrders.Values))
      ensures stored <==> old(key in pendingOrders ==>
                !pendingOrders[key].aggregation.signalSent && fill.tid !in pendingOrders[key].seenTids)
      ensures View(now) == if stored then StoreFill(old(View(now)), address, fill, direction)
                           else old(View(now))
    {
      if key !in pendingOrders {
        CreateLeg(key, address, fill, direction, now);
        return true;
      }
      var pending := pendingOrders[key];
      if pending.aggregation.signalSent || fill.tid in pending.seenTids {
        return false;
      }
      AppendFill(key, address, fill, direction, now);
      return true;
    }

    method HandleOrderFill(address: string, fill: Fill, direction: string, now: int)
      requires Valid()
      modifies this, statusTracker, pendingOrders.Values
      ensures Valid() && fresh(pendingOrders.Values - old(pendingOrders.Values))
      ensures View(now) == HandleFill(old(View(now)), address, fill, direction)
    {
      var key := OrderKey(address, fill.oid, direction);
      var seen := deduper.IsSeen(address, fill.oid, direction, now);
      if seen {
        return;
      }
      var status, marked := statusTracker.Find(address, fill.oid, now);
      ghost var before := View(now);
      var stored := Aggregate(key, address, fill, direction, now);
      assert stored <==> Accepts(before, key, fill);
      assert GetStatus(before.tracker, TrackKey(address, fill.oid), now) ==
             if marked then Some(status) else None;
      if stored && marked && status != "" {
        RequestFlush(key, address, fill.oid, status);
      }
    }

    // A terminal status asks for the leg's flush and is then forgotten.
    method RequestFlush(key: string, address: string, oid: int, status: string)
      requires Valid()
      modifies this`flushChan, this`dropped, statusTracker
      ensures Valid()
      ensures forall now ::
        View(now) == Untrack(Request(old(View(now)), FlushReq(key, ByStatus, status)), address, oid)
    {
      TriggerFlush(key, ByStatus, status);
      statusTracker.Remove(address, oid);
    }

    // Requests the flush of one leg, if it is pending.
    method NotifyLeg(address: string, oid: int, status: string, direction: string)
      requires Valid()
      modifies this`flushChan, this`dropped, statusTracker
      ensures Valid()
      ensures forall now :: var s := old(View(now));
        View(now) == if OrderKey(address, oid, direction) in s.pending
                     then Untrack(Request(s, FlushReq(OrderKey(address, oid, direction), ByStatus, status)),
                                  address, oid)
                     else s
    {
      var key := OrderKey(address, oid, direction);
      if key in pendingOrders {
        RequestFlush(key, address, oid, status);
      }
    }

    method NotifyLegs(address: string, oid: int, status: string, dirs: seq<string>, now: int)
      requires Valid()
      modifies this`flushChan, this`dropped, statusTracker
      ensures Valid()
      ensures View(now) == Notify(old(View(now)), address, oid, status, dirs)
    {
      for i := 0 to |dirs|
        invariant Valid()
        invariant Notify(View(now), address, oid, status, dirs[i..]) ==
                  Notify(old(View(now)), address, oid, status, dirs)
      {
        assert dirs[i..][1..] == dirs[i + 1..];
        NotifyLeg(address, oid, status, dirs[i]);
      }
    }

    method RecordStatus(address: string, oid: int, status: string, now: int)
      requires Valid()
      modifies statusTracker
      ensures Valid()
      ensures View(now) == OrderProtocol.Mark(old(View(now)), address, oid, status)
    {
      statusTracker.MarkStatus(address, oid, status, now);
    }

    method UpdateStatus(address: string, oid: int, status: string, direction: string, now: int)
      requires Valid()
      modifies this`flushChan, this`dropped, statusTracker
      ensures Valid()
      ensures View(now) == HandleStatus(old(View(now)), address, oid, status, direction)
    {
      if status == "open" || status == "triggered" {
        return;
      }
      RecordStatus(address, oid, status, now);
      var dirs := Directions(direction);
      NotifyLegs(address, oid, status, dirs, now);
    }

    method FlushOrder(key: string, status: string, publishOk: bool, now: int)
      requires Valid()
      modifies this, deduper, pendingOrders.Values
      ensures Valid()
      ensures View(now) == OrderProtocol.FlushOrder(old(View(now)), key, status, publishOk)
    {
      if key !in pendingOrders {
        return;
      }
      var pending := pendingOrders[key];
      if pending.aggregation.signalSent {
        return;
      }
      var signal := BuildSignal(pending.aggregation);
      if signal.None? || !publishOk {
        return;
      }
      SendLeg(key, status, signal.value, now);
    }

    method SendLeg(key: string, status: string, signal: Signal, now: int)
      requires Valid() && key in pendingOrders
      modifies this`published, this`persisted, this`pendingOrders, deduper, pendingOrders[key]
      ensures Valid()
      ensures View(now) == OrderProtocol.Record(old(View(now)), key, old(pendingOrders[key].aggregation.Key()), signal,
                SentRow(old(pendingOrders[key].aggregation), status, now))
    {
      MarkSent(key, status, signal, now);
      ForgetLeg(key);
    }

    // The leg under key becomes a sent row; the leg itself stays for the moment.
    method MarkSent(key: string, status: string, signal: Signal, now: int)
      requires Valid() && key in pendingOrders
      modifies this`published, this`persisted, deduper, pendingOrders[key]
      ensures Valid()
      ensures var sent := SentRow(old(pendingOrders[key].aggregation), status, now);
              && published == old(published) + [Publication(signal, sent, now)]
              && deduper.entries == old(deduper.entries)[sent.Key() := now + DEDUP_TTL]
              && persisted == old(persisted) + [sent]
      ensures Legs() - {key} == old(Legs()) - {key}
    {
      var pending := pendingOrders[key];
      pending.aggregation := pending.aggregation.(signalSent := true, orderStatus := status, updatedAt := now);
      published := published + [Publication(signal, pending.aggregation, now)];
      deduper.Mark(pending.aggregation.address, pending.aggregation.oid, pending.aggregation.direction, now);
      PersistOrder(pending.aggregation);
    }

    method ForgetLeg(key: string)
      requires Valid() && key in pendingOrders
      modifies this`pendingOrders, pendingOrders[key]
      ensures Valid() && pendingOrders == old(pendingOrders) - {key}
      ensures Legs() == old(Legs()) - {key}
    {
      var pending := pendingOrders[key];
      pendingOrders := pendingOrders - {key};
      pending.seenTids := {};
    }

    // Requests the flush of every timed-out leg, in whatever order the map
    // yields its keys.
    method ScanTimeoutOrders(now: int) returns (ghost order: seq<string>)
      requires Valid()
      modifies this`flushChan, this`dropped
      ensures Valid()
      ensures View(now) == Scan(old(View(now)), order)
      ensures (forall k :: k in order <==> k in pendingOrders) && |order| == |pendingOrders|
    {
      ghost var start := View(now);
      var keys := pendingOrders.Keys;
      order := [];
      while keys != {}
        invariant Valid() && keys <= pendingOrders.Keys
        invariant forall k :: k in order <==> k in pendingOrders && k !in keys
        invariant |order| + |keys| == |pendingOrders|
        invariant View(now) == Scan(start, order)
        decreases keys
      {
        var key :| key in keys;
        keys := keys - {key};
        var pending := pendingOrders[key];
        ScanSnoc(start, order, key);
        order := order + [key];
        if !pending.aggregation.signalSent && pending.firstFillTime < now - LEG_TIMEOUT {
          TriggerFlush(key, ByTimeout, "filled");
        }
      }
    }

    // The queue's worker handing over one message.
    method HandleMessage(msg: Event, now: int)
      requires Valid() && (msg.FillMsg? || msg.StatusMsg?)
      modifies this, statusTracker, pendingOrders.Values
      ensures Valid() && fresh(pendingOrders.Values - old(pendingOrders.Values))
      ensures View(now) == Step(old(View(now)), msg)
    {
      match msg
      case FillMsg(address, fill, direction) => HandleOrderFill(address, fill, direction, now);
      case StatusMsg(address, oid, status, direction) => UpdateStatus(address, oid, status, direction, now);
    }

    method TakeRequest(i: nat, now: int) returns (req: FlushReq)
      requires Valid() && i < |flushChan|
      modifies this`flushChan
      ensures Valid() && req == old(flushChan[i])
      ensures View(now) == old(View(now)).(flushChan := Without(old(flushChan), i))
    {
      req := flushChan[i];
      flushChan := Without(flushChan, i);
    }

    // One worker of the pool taking one request.
    method FlushWorker(i: nat, publishOk: bool, now: int)
      requires Valid() && i < |flushChan|
      modifies this, deduper, pendingOrders.Values
      ensures Valid()
      ensures View(now) == Step(old(View(now)), FlushAt(i, publishOk))
    {
      var req := TakeRequest(i, now);
      FlushOrder(req.key, req.status, publishOk, now);
    }
  }

  lemma {:induction false} ScanSnoc(s: Proc, order: seq<string>, key: string)
    ensures Scan(s, order + [key]) == Visit(Scan(s, order), key)
    decreases |order|
  {
    if order == [] {
      assert [] + [key] == [key] && [key][1..] == [];
    } else {
      assert (order + [key])[1..] == order[1..] + [key];
      ScanSnoc(Visit(s, order[0]), order[1..], key);
    }
  }
}
