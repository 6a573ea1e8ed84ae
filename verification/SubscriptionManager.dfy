// The subscription manager: what one WebSocket message of fills or of order
// updates does to the oid map, the message queue and the order processor, and
// what subscribing an address does to the pool.
module SubscriptionManager {
  import opened Filters
  import opened OrderProtocol
  import opened Pipeline
  import opened OrderProcessor
  import opened ReversalSplit
  import opened Broadcast
  import opened Schedules
  import opened RoutingTable
  import opened ConnectionPool

  // The machine's clock: any time may pass between two readings.
  class Clock {
    var now: int

    constructor (now: int)
      ensures this.now == now
    {
      this.now := now;
    }

    method Read() returns (t: int)
      modifies this
      ensures old(now) <= t == now
    {
      var elapsed: int := *;
      if elapsed > 0 {
        now := now + elapsed;
      }
      t := now;
    }
  }

  function FillsOf(addr: string): Subscription {
    Subscription("userFills", addr, "")
  }

  function UpdatesOf(addr: string): Subscription {
    Subscription("orderUpdates", addr, "")
  }

  lemma NamesDiffer(addr: string)
    ensures addr + "-fills" != addr + "-updates" && Key(FillsOf(addr)) != Key(UpdatesOf(addr))
  {
    assert |addr + "-fills"| != |addr + "-updates"|;
    assert Key(FillsOf(addr))[0] == 'u' && Key(UpdatesOf(addr))[0] == 'o';
  }

  lemma ChannelKeys(addr: string)
    requires addr != ""
    ensures Key(FillsOf(addr)) == "userFills:" + addr && Key(UpdatesOf(addr)) == "orderUpdates:" + addr
  {
    assert "userFills:" + addr == "userFills" + ":" + addr && "orderUpdates:" + addr == "orderUpdates" + ":" + addr;
  }

  lemma TwoRoutes<V>(a: map<string, V>, b: map<string, V>, c: map<string, V>, k: string, l: string)
    requires k != l && k in b && b - {k} == a - {k} && c - {l} == b - {l}
    ensures k in c && c[k] == b[k] && c - {k, l} == a - {k, l}
  {
    assert k in b - {l};
    assert (c - {l})[k] == c[k] && (b - {l})[k] == b[k];
    assert c - {k, l} == (c - {l}) - {k} && a - {k, l} == (a - {k}) - {l};
    assert (b - {l}) - {k} == (b - {k}) - {l};
  }

  lemma NothingLeft<V>(a: map<string, V>, b: map<string, V>, k: string, l: string)
    requires k !in a && l !in a && b - {k, l} == a - {k, l}
    ensures b - {k} - {l} == b - {k, l} == a
  {
  }

  function KeyOf(subs: map<string, Handle>, name: string): set<string> {
    if name in subs then {subs[name].key} else {}
  }

  // Whether a subscription could dial and send.
  datatype Network = Network(dialed: bool, sent: bool)

  class Manager {
    const pool: PoolManager
    const processor: Processor
    const clock: Clock
    var queue: seq<Queued>
    var oidToAddress: map<int, string>
    var addresses: set<string>
    var subs: map<string, Handle>
    // For each published signal the position of its sent row; the lag of the pipeline's events.
    ghost var sentRow: seq<nat>
    ghost const lag: nat
    ghost const started: int

    ghost predicate Valid()
      reads this`queue, processor
    {
      && processor.Valid()
      && forall k :: 0 <= k < |queue| ==> queue[k].msg.FillMsg? || queue[k].msg.StatusMsg?
    }

    constructor (pool: PoolManager, processor: Processor, clock: Clock, ghost lag: nat)
      requires processor.Valid() && processor.View(clock.now) == Init(clock.now)
      ensures Valid() && this.pool == pool && this.processor == processor && this.clock == clock
      ensures oidToAddress == map[] && addresses == {} && subs == map[] && View() == Start(clock.now, lag)
    {
      this.pool := pool;
      this.processor := processor;
      this.clock := clock;
      this.lag := lag;
      this.started := clock.now;
      queue, oidToAddress, addresses, subs, sentRow := [], map[], {}, map[], [];
    }

    // The queue and the processor; the table and restarts are not the manager's.
    ghost function View(): Pipe
      reads this`queue, this`sentRow, clock, processor, processor.deduper, processor.statusTracker,
            processor.pendingOrders.Values
    {
      Pipe(processor.View(clock.now), queue, map[], 0, {}, sentRow, {}, lag, started)
    }

    method ReadClock() returns (t: int, ghost elapsed: nat)
      modifies clock
      ensures t == clock.now == old(clock.now) + elapsed
      ensures View() == PipeStep(old(View()), Internal(Tick(elapsed)))
    {
      ghost var before := clock.now;
      t := clock.Read();
      elapsed := t - before;
    }

    method EnqueueMessage(msg: Event, now: int)
      requires Valid() && (msg.FillMsg? || msg.StatusMsg?) && now == clock.now
      modifies this`queue, processor, processor.statusTracker, processor.pendingOrders.Values
      ensures Valid() && fresh(processor.pendingOrders.Values - old(processor.pendingOrders.Values))
      ensures View() == Enqueue(old(View()), msg)
    {
      if |queue| < QUEUE_CAPACITY {
        queue := queue + [Queued(msg, now)];
      } else {
        HandleOne(msg, now);
      }
    }

    method HandleOne(msg: Event, now: int)
      requires Valid() && (msg.FillMsg? || msg.StatusMsg?) && now == clock.now
      modifies processor, processor.statusTracker, processor.pendingOrders.Values
      ensures Valid() && fresh(processor.pendingOrders.Values - old(processor.pendingOrders.Values))
      ensures View() == Advance(old(View()), msg)
    {
      ghost var before := processor.View(now);
      if msg.StatusMsg? {
        StatusIsQuiet(before, msg.address, msg.oid, msg.status, msg.direction);
      } else {
        FillEffect(before, msg.address, msg.fill, msg.direction);
      }
      processor.HandleMessage(msg, now);
    }

    // The queue's worker handing over the oldest message.
    method HandleNext() returns (ghost elapsed: nat)
      requires Valid() && queue != []
      modifies clock, this`queue, processor, processor.statusTracker, processor.pendingOrders.Values
      ensures Valid() && fresh(processor.pendingOrders.Values - old(processor.pendingOrders.Values))
      ensures View() == PipeStep(PipeStep(old(View()), Internal(Tick(elapsed))), PipeEvent.HandleNext)
    {
      var now;
      now, elapsed := ReadClock();
      var msg := TakeMessage();
      HandleOne(msg, now);
    }

    method TakeMessage() returns (msg: Event)
      requires Valid() && queue != []
      modifies this`queue
      ensures Valid() && msg == old(queue[0].msg) && (msg.FillMsg? || msg.StatusMsg?)
      ensures View() == old(View()).(queue := old(queue)[1..])
    {
      msg := queue[0].msg;
      queue := queue[1..];
    }

    // One flush worker taking any waiting request.
    method FlushNext(i: nat, publishOk: bool) returns (ghost elapsed: nat)
      requires Valid() && i < |processor.flushChan|
      modifies clock, this`sentRow, processor, processor.deduper, processor.pendingOrders.Values
      ensures Valid()
      ensures View() == PipeStep(PipeStep(old(View()), Internal(Tick(elapsed))), Internal(FlushAt(i, publishOk)))
    {
      var now;
      now, elapsed := ReadClock();
      FlushNow(i, publishOk, now);
    }

    method FlushNow(i: nat, publishOk: bool, now: int)
      requires Valid() && i < |processor.flushChan| && now == clock.now
      modifies this`sentRow, processor, processor.deduper, processor.pendingOrders.Values
      ensures Valid()
      ensures View() == Advance(old(View()), FlushAt(i, publishOk))
    {
      ghost var before, rows := |processor.published|, |processor.persisted|;
      processor.FlushWorker(i, publishOk, now);
      if |processor.published| > before {
        sentRow := sentRow + [rows];
      }
    }

    // One tick of the timeout scanner.
    method ScanTimeouts() returns (ghost elapsed: nat, ghost order: seq<string>)
      requires Valid()
      modifies clock, processor
      ensures Valid()
      ensures View() == PipeStep(PipeStep(old(View()), Internal(Tick(elapsed))), Internal(TimeoutScan(order)))
      ensures forall k :: k in order <==> k in processor.pendingOrders
    {
      var now;
      now, elapsed := ReadClock();
      ghost var before := processor.View(now);
      order := processor.ScanTimeoutOrders(now);
      ScanIsQuiet(before, order);
    }

    // One fill of one direction: skipped if its leg was already sent.
    method OfferFill(user: string, fill: Fill, at: int) returns (ghost elapsed: nat)
      requires Valid() && !TooOld(at, fill)
      modifies clock, this`queue, processor, processor.statusTracker, processor.pendingOrders.Values
      ensures Valid() && fresh(processor.pendingOrders.Values - old(processor.pendingOrders.Values))
      ensures View() == PipeStep(PipeStep(old(View()), Internal(Tick(elapsed))),
                                 PipeEvent.OfferFill(user, fill, fill.dir, at))
    {
      var now;
      now, elapsed := ReadClock();
      var seen := processor.deduper.IsSeen(user, fill.oid, fill.dir, now);
      if !seen {
        EnqueueMessage(FillMsg(user, fill, fill.dir), now);
      }
    }

    method OfferOne(user: string, fill: Fill, at: int) returns (ghost steps: seq<PipeEvent>)
      requires Valid() && !TooOld(at, fill)
      modifies clock, this`queue, processor, processor.statusTracker, processor.pendingOrders.Values
      ensures Valid() && fresh(processor.pendingOrders.Values - old(processor.pendingOrders.Values))
      ensures Offers(old(View()), View(), user, [fill], at, steps)
    {
      ghost var before := View();
      ghost var elapsed := OfferFill(user, fill, at);
      OffersOne(before, user, fill, at, elapsed);
      steps := [Internal(Tick(elapsed)), PipeEvent.OfferFill(user, fill, fill.dir, at)];
    }

    method OfferGroup(user: string, fills: seq<Fill>, at: int) returns (ghost steps: seq<PipeEvent>)
      requires Valid()
      requires forall f :: f in fills ==> !TooOld(at, f)
      modifies clock, this`queue, processor, processor.statusTracker, processor.pendingOrders.Values
      ensures Valid() && fresh(processor.pendingOrders.Values - old(processor.pendingOrders.Values))
      ensures Offers(old(View()), View(), user, fills, at, steps)
    {
      ghost var start := View();
      steps := [];
      for i := 0 to |fills|
        invariant Valid() && fresh(processor.pendingOrders.Values - old(processor.pendingOrders.Values))
        invariant Offers(start, View(), user, fills[..i], at, steps)
      {
        assert fills[i] in fills;
        ghost var before := View();
        ghost var more := OfferOne(user, fills[i], at);
        OffersNext(start, before, View(), user, at, fills, i, steps, more);
        steps := steps + more;
      }
      assert fills[..|fills|] == fills;
    }

    // One more direction of an order, the others being scheduled or still to do.
    method OfferMore(user: string, oid: int, grouped: map<string, seq<Fill>>, ghost todo: set<string>, dir: string,
                     at: int, ghost start: Pipe, ghost schedule: seq<Fill>, ghost steps: seq<PipeEvent>)
      returns (ghost later: seq<Fill>, ghost more: seq<PipeEvent>)
      requires Valid() && OwnGroups(grouped, oid, at)
      requires dir in grouped && dir !in todo && OfferedDirections(schedule, oid, grouped, todo + {dir})
      requires Offers(start, View(), user, schedule, at, steps)
      modifies clock, this`queue, processor, processor.statusTracker, processor.pendingOrders.Values
      ensures Valid() && fresh(processor.pendingOrders.Values - old(processor.pendingOrders.Values))
      ensures Offers(start, View(), user, later, at, more) && OfferedDirections(later, oid, grouped, todo)
    {
      ghost var before := View();
      ghost var own := OfferGroup(user, grouped[dir], at);
      OffersThen(start, before, View(), user, at, schedule, steps, grouped[dir], own);
      MoreDirections(schedule, oid, grouped, todo, dir);
      later, more := schedule + grouped[dir], steps + own;
    }

    // The groups of one order, direction by direction, in whatever order the map
    // yields the directions.
    method OfferDirections(user: string, oid: int, grouped: map<string, seq<Fill>>, at: int)
      returns (ghost schedule: seq<Fill>, ghost steps: seq<PipeEvent>)
      requires Valid() && OwnGroups(grouped, oid, at)
      modifies clock, this`queue, processor, processor.statusTracker, processor.pendingOrders.Values
      ensures Valid() && fresh(processor.pendingOrders.Values - old(processor.pendingOrders.Values))
      ensures Offers(old(View()), View(), user, schedule, at, steps)
      ensures OfferedDirections(schedule, oid, grouped, {})
    {
      var dirs := grouped.Keys;
      ghost var start := View();
      schedule, steps := [], [];
      NoDirections(oid, grouped, dirs);
      while dirs != {}
        invariant Valid() && fresh(processor.pendingOrders.Values - old(processor.pendingOrders.Values))
        invariant dirs <= grouped.Keys
        invariant Offers(start, View(), user, schedule, at, steps)
        invariant OfferedDirections(schedule, oid, grouped, dirs)
        decreases dirs
      {
        var dir :| dir in dirs;
        dirs := dirs - {dir};
        schedule, steps := OfferMore(user, oid, grouped, dirs, dir, at, start, schedule, steps);
      }
    }

    // All fills of one order, split into its directions.
    method OfferOrder(user: string, oid: int, fills: seq<Fill>, at: int)
      returns (ghost schedule: seq<Fill>, ghost steps: seq<PipeEvent>)
      requires Valid() && OwnAndFresh(fills, oid, at)
      modifies clock, this`queue, processor, processor.statusTracker, processor.pendingOrders.Values
      ensures Valid() && fresh(processor.pendingOrders.Values - old(processor.pendingOrders.Values))
      ensures Offers(old(View()), View(), user, schedule, at, steps)
      ensures OneOrder(schedule, oid, fills)
    {
      var grouped := SplitReversedOrder(fills);
      GroupsAreOwn(fills, oid, at);
      schedule, steps := OfferDirections(user, oid, grouped, at);
      AllDirections(schedule, oid, fills);
    }

    // The fills that pass the age and coin filters, by order.
    method GroupByOid(fills: seq<Fill>, now: int) returns (orderGroups: map<int, seq<Fill>>)
      ensures orderGroups == ByOid(Filter(fills, Passing(now))) && OwnOrders(orderGroups, now)
    {
      OrderGroupsPass(fills, now);
      orderGroups := map[];
      for i := 0 to |fills|
        invariant orderGroups == ByOid(Filter(fills[..i], Passing(now)))
      {
        var fill := fills[i];
        assert fills[..i + 1] == fills[..i] + [fill];
        FilterSnoc(fills[..i], fill, Passing(now));
        if Millis(now) - fill.time > MAX_FILL_AGE || ForeignCoin(fill.coin) {
          assert Filter(fills[..i], Passing(now)) + [] == Filter(fills[..i], Passing(now));
        } else {
          ByOidSnoc(Filter(fills[..i], Passing(now)), fill);
          orderGroups := orderGroups[fill.oid :=
            (if fill.oid in orderGroups then orderGroups[fill.oid] else []) + [fill]];
        }
      }
      assert fills[..|fills|] == fills;
    }

    // One order's group: its oid maps to the user from now on.
    method ProcessOrder(user: string, oid: int, fills: seq<Fill>, at: int)
      returns (ghost schedule: seq<Fill>, ghost steps: seq<PipeEvent>)
      requires Valid() && OwnAndFresh(fills, oid, at)
      modifies clock, this`queue, this`oidToAddress, processor, processor.statusTracker, processor.pendingOrders.Values
      ensures Valid() && fresh(processor.pendingOrders.Values - old(processor.pendingOrders.Values))
      ensures Offers(old(View()), View(), user, schedule, at, steps)
      ensures OneOrder(schedule, oid, fills)
      ensures oidToAddress == old(oidToAddress)[oid := user]
    {
      oidToAddress := oidToAddress[oid := user];
      schedule, steps := OfferOrder(user, oid, fills, at);
    }

    // One more order, the others being scheduled or still to do.
    method ProcessMore(user: string, orderGroups: map<int, seq<Fill>>, ghost todo: set<int>, oid: int, at: int,
                       ghost start: Pipe, ghost schedule: seq<Fill>, ghost steps: seq<PipeEvent>)
      returns (ghost later: seq<Fill>, ghost more: seq<PipeEvent>)
      requires Valid() && oid in orderGroups && oid !in todo && OwnAndFresh(orderGroups[oid], oid, at)
      requires OfferedOrders(schedule, orderGroups, todo + {oid})
      requires Offers(start, View(), user, schedule, at, steps)
      modifies clock, this`queue, this`oidToAddress, processor, processor.statusTracker, processor.pendingOrders.Values
      ensures Valid() && fresh(processor.pendingOrders.Values - old(processor.pendingOrders.Values))
      ensures Offers(start, View(), user, later, at, more) && OfferedOrders(later, orderGroups, todo)
      ensures oidToAddress == old(oidToAddress)[oid := user]
    {
      ghost var before := View();
      ghost var own, taken := ProcessOrder(user, oid, orderGroups[oid], at);
      OffersThen(start, before, View(), user, at, schedule, steps, own, taken);
      MoreOrders(schedule, orderGroups, todo, oid, own);
      later, more := schedule + own, steps + taken;
    }

    // Every order group, in whatever order the map yields the oids.
    method OfferGroups(user: string, orderGroups: map<int, seq<Fill>>, at: int)
      returns (ghost schedule: seq<Fill>, ghost steps: seq<PipeEvent>)
      requires Valid() && OwnOrders(orderGroups, at)
      modifies clock, this`queue, this`oidToAddress, processor, processor.statusTracker, processor.pendingOrders.Values
      ensures Valid() && fresh(processor.pendingOrders.Values - old(processor.pendingOrders.Values))
      ensures Offers(old(View()), View(), user, schedule, at, steps)
      ensures OfferedOrders(schedule, orderGroups, {})
      ensures oidToAddress == Remap(old(oidToAddress), orderGroups.Keys, user)
    {
      var oids := orderGroups.Keys;
      ghost var start, owners := View(), oidToAddress;
      ghost var done := {};
      schedule, steps := [], [];
      NothingOffered(orderGroups, oids);
      RemapMore(owners, {}, 0, user);
      while oids != {}
        invariant Valid() && fresh(processor.pendingOrders.Values - old(processor.pendingOrders.Values))
        invariant oids !! done && oids + done == orderGroups.Keys
        invariant Offers(start, View(), user, schedule, at, steps)
        invariant oidToAddress == Remap(owners, done, user)
        invariant OfferedOrders(schedule, orderGroups, oids)
        decreases oids
      {
        SomeOid(oids);
        var oid :| oid in oids;
        oids := oids - {oid};
        RemapMore(owners, done, oid, user);
        done := done + {oid};
        schedule, steps := ProcessMore(user, orderGroups, oids, oid, at, start, schedule, steps);
      }
    }

    // One userFills message: the clock is read once for the age filter and again
    // for every dedup check.  Some schedule that keeps every leg's fills in their
    // order of arrival is offered, and every order seen maps to the user.
    method HandleWsOrderFills(user: string, fills: seq<Fill>)
      returns (at: int, ghost elapsed: nat, ghost schedule: seq<Fill>, ghost steps: seq<PipeEvent>)
      requires Valid()
      modifies clock, this`queue, this`oidToAddress, processor, processor.statusTracker, processor.pendingOrders.Values
      ensures Valid() && fresh(processor.pendingOrders.Values - old(processor.pendingOrders.Values))
      ensures at == old(clock.now) + elapsed
      ensures Offers(PipeStep(old(View()), Internal(Tick(elapsed))), View(), user, schedule, at, steps)
      ensures Respects(schedule, Expand(Filter(fills, Passing(at)))) && OffersExactly(schedule, fills, at)
      ensures oidToAddress == Remap(old(oidToAddress), ByOid(Filter(fills, Passing(at))).Keys, user)
      ensures OwnersOfOffered(oidToAddress, old(oidToAddress), fills, at, user)
    {
      at, elapsed := ReadClock();
      ghost var owners := oidToAddress;
      schedule, steps := ProcessFills(user, fills, at);
      MessageOffers(schedule, fills, at);
      MessageOwners(owners, fills, at, user);
    }

    // The fills that pass the filters at its reading.
    method ProcessFills(user: string, fills: seq<Fill>, at: int)
      returns (ghost schedule: seq<Fill>, ghost steps: seq<PipeEvent>)
      requires Valid()
      modifies clock, this`queue, this`oidToAddress, processor, processor.statusTracker, processor.pendingOrders.Values
      ensures Valid() && fresh(processor.pendingOrders.Values - old(processor.pendingOrders.Values))
      ensures Offers(old(View()), View(), user, schedule, at, steps)
      ensures Respects(schedule, Expand(Filter(fills, Passing(at))))
      ensures oidToAddress == Remap(old(oidToAddress), ByOid(Filter(fills, Passing(at))).Keys, user)
    {
      var orderGroups := GroupByOid(fills, at);
      schedule, steps := OfferGroups(user, orderGroups, at);
      WholeSchedule(schedule, Filter(fills, Passing(at)));
    }

    // One order of an orderUpdates message.
    method HandleUpdate(user: string, order: Update) returns (ghost steps: seq<PipeEvent>)
      requires Valid()
      modifies clock, this`queue, this`oidToAddress, processor, processor.statusTracker, processor.pendingOrders.Values
      ensures Valid() && fresh(processor.pendingOrders.Values - old(processor.pendingOrders.Values))
      ensures UpdateDone(old(View()), View(), old(oidToAddress), oidToAddress, addresses, user, order, steps)
    {
      steps := [];
      if ForeignCoin(order.coin) || order.oid !in oidToAddress {
        return;
      }
      var addr := oidToAddress[order.oid];
      if user != addr || NonTerminal(order.status) || addr !in addresses {
        return;
      }
      steps := EnqueueStatus(addr, order.oid, order.status);
      oidToAddress := oidToAddress - {order.oid};
    }

    method EnqueueStatus(addr: string, oid: int, status: string) returns (ghost steps: seq<PipeEvent>)
      requires Valid()
      modifies clock, this`queue, processor, processor.statusTracker, processor.pendingOrders.Values
      ensures Valid() && fresh(processor.pendingOrders.Values - old(processor.pendingOrders.Values))
      ensures Reports(old(View()), View(), [StatusMsg(addr, oid, status, "")], steps)
    {
      ghost var before := View();
      var now;
      ghost var elapsed;
      now, elapsed := ReadClock();
      EnqueueMessage(StatusMsg(addr, oid, status, ""), now);
      ReportsOne(before, elapsed, addr, oid, status);
      steps := [Internal(Tick(elapsed)), OfferStatus(addr, oid, status)];
    }

    // One orderUpdates message, in the callback of one subscribed user: it is one
    // stretch of the broadcast, and reports what the broadcast says it reports.
    method HandleWsOrderUpdates(user: string, orders: seq<Update>) returns (ghost steps: seq<PipeEvent>)
      requires Valid()
      modifies clock, this`queue, this`oidToAddress, processor, processor.statusTracker, processor.pendingOrders.Values
      ensures Valid() && fresh(processor.pendingOrders.Values - old(processor.pendingOrders.Values))
      ensures CallbackDone(old(View()), View(), old(oidToAddress), oidToAddress, addresses, user, orders, steps)
    {
      ghost var start, owners := View(), oidToAddress;
      steps := [];
      CallbackBegins(start, owners, addresses, user);
      for i := 0 to |orders|
        invariant Valid() && fresh(processor.pendingOrders.Values - old(processor.pendingOrders.Values))
        invariant CallbackDone(start, View(), owners, oidToAddress, addresses, user, orders[..i], steps)
      {
        ghost var before, now := View(), oidToAddress;
        ghost var more := HandleUpdate(user, orders[i]);
        CallbackGrows(start, before, View(), owners, now, oidToAddress, addresses, user, orders, i, steps, more);
        steps := steps + more;
      }
      assert orders[..|orders|] == orders;
    }

    // One subscription, of which the manager sees the handle and its own key.
    method Open(sub: Subscription, name: string, network: Network) returns (r: Outcome)
      requires pool.Valid()
      modifies pool, pool.wrappers
      ensures pool.Valid() && pool.connections == old(pool.connections) && fresh(pool.wrappers - old(pool.wrappers))
      ensures pool.subscriptions - {Key(sub)} == old(pool.subscriptions) - {Key(sub)}
      ensures if r.Subscribed?
              then Has(r.handle, sub)
              else pool.subscriptions == old(pool.subscriptions) && Key(sub) !in pool.subscriptions
      ensures network.dialed && network.sent && !pool.Stuck() ==> r.Subscribed?
      ensures r.Crashed? ==> pool.Stuck()
    {
      r := pool.Subscribe(sub, Callback(name), network.dialed, network.sent);
    }

    // Both subscriptions of an address; the first is given up if the second fails.
    method OpenBoth(addr: string, fills: Network, updates: Network)
      returns (ok: bool, crashed: bool, first: Handle, second: Handle)
      requires pool.Valid()
      modifies pool, pool.wrappers
      ensures pool.Valid() && pool.connections == old(pool.connections) && fresh(pool.wrappers - old(pool.wrappers))
      ensures ok ==>
                && Has(first, FillsOf(addr)) && Has(second, UpdatesOf(addr))
                && pool.subscriptions - {Key(FillsOf(addr)), Key(UpdatesOf(addr))} ==
                   old(pool.subscriptions) - {Key(FillsOf(addr)), Key(UpdatesOf(addr))}
      ensures !ok && !crashed ==> pool.subscriptions == old(pool.subscriptions) - {Key(FillsOf(addr))}
      ensures fills.dialed && fills.sent && updates.dialed && updates.sent && !pool.Stuck() ==> ok
      ensures crashed ==> !ok && pool.Stuck()
    {
      NamesDiffer(addr);
      ghost var start := pool.subscriptions;
      var r := Open(FillsOf(addr), addr + "-fills", fills);
      first := if r.Subscribed? then r.handle else Handle(0, "");
      ok, crashed, second := false, r.Crashed?, first;
      if r.Subscribed? {
        ghost var half := pool.subscriptions;
        r := Open(UpdatesOf(addr), addr + "-updates", updates);
        TwoRoutes(start, half, pool.subscriptions, Key(FillsOf(addr)), Key(UpdatesOf(addr)));
        if r.Subscribed? {
          ok, second := true, r.handle;
        } else if r.Crashed? {
          crashed := true;
        } else {
          pool.Unsubscribe(first);
        }
      }
    }

    // An address is on the list from the first call on, also when it could not be
    // subscribed: a later call then does nothing.
    method SubscribeAddress(addr: string, fills: Network, updates: Network) returns (ok: bool, crashed: bool)
      requires pool.Valid()
      modifies this`addresses, this`subs, pool, pool.wrappers
      ensures pool.Valid() && pool.connections == old(pool.connections) && fresh(pool.wrappers - old(pool.wrappers))
      ensures addresses == old(addresses) + {addr}
      ensures addr in old(addresses) ==> ok && subs == old(subs) && pool.subscriptions == old(pool.subscriptions)
      ensures ok && addr !in old(addresses) ==>
                && Listed(FillsOf(addr), addr + "-fills") && Listed(UpdatesOf(addr), addr + "-updates")
                && subs == old(subs)[addr + "-fills" := subs[addr + "-fills"]][addr + "-updates" := subs[addr + "-updates"]]
                && pool.subscriptions - {Key(FillsOf(addr)), Key(UpdatesOf(addr))} ==
                   old(pool.subscriptions) - {Key(FillsOf(addr)), Key(UpdatesOf(addr))}
      ensures !ok ==> subs == old(subs)
      ensures !ok && !crashed ==> pool.subscriptions == old(pool.subscriptions) - {Key(FillsOf(addr))}
      ensures fills.dialed && fills.sent && updates.dialed && updates.sent && !pool.Stuck() ==> ok
      ensures crashed ==> !ok && pool.Stuck()
    {
      if addr in addresses {
        return true, false;
      }
      addresses := addresses + {addr};
      var first, second;
      ok, crashed, first, second := OpenBoth(addr, fills, updates);
      if ok {
        NamesDiffer(addr);
        subs := subs[addr + "-fills" := first][addr + "-updates" := second];
      }
    }

    ghost predicate Has(h: Handle, sub: Subscription)
      reads pool`subscriptions
    {
      h.key == Key(sub) && h.key in pool.subscriptions && h.id in pool.subscriptions[h.key].callbacks
    }

    // A handle of the subscription is on record, and its callback in the pool.
    ghost predicate Listed(sub: Subscription, name: string)
      reads this`subs, pool`subscriptions
    {
      name in subs && Has(subs[name], sub)
    }

    method GiveUp(name: string)
      requires pool.Valid()
      modifies this`subs, pool`subscriptions, pool.wrappers
      ensures pool.Valid() && subs == old(subs) - {name}
      ensures pool.subscriptions ==
              old(pool.subscriptions) - KeyOf(old(subs), name)
    {
      if name in subs {
        pool.Unsubscribe(subs[name]);
        subs := subs - {name};
      }
    }

    // Removing an address gives up its two handles, and forgets the owner of every
    // order, not only its own: the parameter of the range callback shadows the address.
    method UnsubscribeAddress(addr: string)
      requires pool.Valid()
      modifies this`addresses, this`subs, this`oidToAddress, pool`subscriptions, pool.wrappers
      ensures pool.Valid() && addresses == old(addresses) - {addr}
      ensures addr !in old(addresses) ==> subs == old(subs) && pool.subscriptions == old(pool.subscriptions)
      ensures addr in old(addresses) ==>
                && subs == old(subs) - {addr + "-fills", addr + "-updates"}
                && pool.subscriptions ==
                   old(pool.subscriptions) - KeyOf(old(subs), addr + "-fills") - KeyOf(old(subs), addr + "-updates")
      ensures oidToAddress == if addr in old(addresses) then map[] else old(oidToAddress)
    {
      if addr !in addresses {
        return;
      }
      addresses := addresses - {addr};
      NamesDiffer(addr);
      GiveUp(addr + "-fills");
      GiveUp(addr + "-updates");
      ForgetOwners();
    }

    method ForgetOwners()
      modifies this`oidToAddress
      ensures oidToAddress == map[]
    {
      var oids := oidToAddress.Keys;
      while oids != {}
        invariant oidToAddress.Keys == oids
        decreases oids
      {
        SomeOid(oids);
        var oid :| oid in oids;
        oids := oids - {oid};
        oidToAddress := oidToAddress - {oid};
      }
    }
  }

  // Unsubscribing undoes a subscription of keys nobody else has, except that the
  // owners of all orders are gone.
  method SubscribedAndBack(m: Manager, addr: string, fills: Network, updates: Network) returns (ok: bool)
    requires m.pool.Valid() && addr !in m.addresses && addr + "-fills" !in m.subs && addr + "-updates" !in m.subs
    requires Key(FillsOf(addr)) !in m.pool.subscriptions && Key(UpdatesOf(addr)) !in m.pool.subscriptions
    modifies m`addresses, m`subs, m`oidToAddress, m.pool, m.pool.wrappers
    ensures m.pool.Valid()
    ensures fills.dialed && fills.sent && updates.dialed && updates.sent && !old(m.pool.Stuck()) ==> ok
    ensures ok ==>
              && m.addresses == old(m.addresses) && m.subs == old(m.subs)
              && m.pool.subscriptions == old(m.pool.subscriptions) && m.oidToAddress == map[]
  {
    var crashed;
    NamesDiffer(addr);
    ok, crashed := m.SubscribeAddress(addr, fills, updates);
    if ok {
      NothingLeft(old(m.pool.subscriptions), m.pool.subscriptions, Key(FillsOf(addr)), Key(UpdatesOf(addr)));
      NothingLeft(old(m.subs), m.subs, addr + "-fills", addr + "-updates");
      m.UnsubscribeAddress(addr);
    }
  }

  // A subscription that failed is not tried again: a second call succeeds without
  // subscribing anything, whatever the network does then.
  method FailureIsKept(m: Manager, addr: string, fills: Network, updates: Network, later: Network)
    returns (ok: bool, crashed: bool, again: bool)
    requires m.pool.Valid() && addr !in m.addresses
    modifies m`addresses, m`subs, m.pool, m.pool.wrappers
    ensures !ok && !crashed ==>
              && again && addr in m.addresses && m.subs == old(m.subs)
              && m.pool.subscriptions == old(m.pool.subscriptions) - {Key(FillsOf(addr))}
  {
    again := false;
    ok, crashed := m.SubscribeAddress(addr, fills, updates);
    if !ok && !crashed {
      var ended;
      again, ended := m.SubscribeAddress(addr, later, later);
    }
  }

  lemma SomeOid(oids: set<int>)
    ensures oids != {} ==> exists oid :: oid in oids
  {
    if forall oid :: oid !in oids {
      assert oids == set oid | oid in oids;
    }
  }
}
