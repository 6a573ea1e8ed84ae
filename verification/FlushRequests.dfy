// Who asks for a leg to be flushed: a fill whose order's status came first, a
// status that finds the leg pending, and otherwise only the timeout scan.
module FlushRequests {
  import opened Keys
  import opened OrderProtocol
  import opened OrderProjection

  // The order has a terminal status on record, not yet used up or expired.
  predicate Remembered(s: Proc, address: string, oid: int) {
    var order := TrackKey(address, oid);
    order in s.tracker && s.now <= s.tracker[order].expires && s.tracker[order].status != ""
  }

  // With room in the channel an accepted fill is flushed at once if and only if
  // its order's status is remembered; the record is then used up.
  lemma FlushedAtOnceIff(s: Proc, address: string, fill: Fill, direction: string)
    requires Accepts(s, OrderKey(address, fill.oid, direction), fill) && |s.flushChan| < FLUSH_CAPACITY
    ensures var t := HandleFill(s, address, fill, direction);
            && (|t.flushChan| > |s.flushChan| <==> Remembered(s, address, fill.oid))
            && (Remembered(s, address, fill.oid) ==>
                  t.flushChan == s.flushChan + [FlushReq(OrderKey(address, fill.oid, direction), ByStatus,
                                                         s.tracker[TrackKey(address, fill.oid)].status)] &&
                  !Remembered(t, address, fill.oid))
            && (!Remembered(s, address, fill.oid) ==> t.flushChan == s.flushChan && t.tracker == s.tracker)
  {
  }

  lemma {:induction false} NobodyToNotify(s: Proc, address: string, oid: int, status: string, dirs: seq<string>)
    requires s.pending == map[]
    ensures Notify(s, address, oid, status, dirs) == s
    decreases |dirs|
  {
    if dirs != [] {
      NobodyToNotify(s, address, oid, status, dirs[1..]);
    }
  }

  // ----- A reversed order whose status came first -----

  // The status, then one fill of each of the order's two legs.
  function Reversed(a: string, f: Fill, d: string, g: Fill, e: string, status: string): seq<Event> {
    [StatusMsg(a, f.oid, status, ""), FillMsg(a, f, d), FillMsg(a, g, e)]
  }

  lemma LegKeysDiffer(a: string, o: int, d: string, e: string)
    requires d != e
    ensures OrderKey(a, o, d) != OrderKey(a, o, e)
  {
    assert OrderKey(a, o, d)[|LegPrefix(a, o)|..] == d && OrderKey(a, o, e)[|LegPrefix(a, o)|..] == e;
  }

  lemma RunThree(s: Proc, x: Event, y: Event, z: Event)
    ensures Run(s, [x, y, z]) == Step(Step(Step(s, x), y), z)
  {
    assert [x, y, z][..2] == [x, y] && [x, y][..1] == [x] && [x][..0] == [];
    assert Run(s, [x]) == Step(s, x);
    assert Run(s, [x, y]) == Step(Step(s, x), y);
  }

  lemma StatusOnly(now: int, a: string, o: int, status: string)
    requires !NonTerminal(status)
    ensures Step(Init(now), StatusMsg(a, o, status, "")) == OrderProtocol.Mark(Init(now), a, o, status)
  {
    NobodyToNotify(OrderProtocol.Mark(Init(now), a, o, status), a, o, status, Directions(""));
  }

  // Only the first leg's flush is requested; the second leg is pending with
  // nothing on record that would flush it.
  lemma ReversedSecondLegWaits(now: int, a: string, f: Fill, d: string, g: Fill, e: string, status: string, plain: bool)
    requires g.oid == f.oid && d != e && !NonTerminal(status) && status != ""
    ensures var s := Run(Init(now), Reversed(a, f, d, g, e, status));
            && s.flushChan == [FlushReq(OrderKey(a, f.oid, d), ByStatus, status)] && s.tracker == map[]
            && OrderKey(a, f.oid, e) in s.pending && s.pending[OrderKey(a, f.oid, e)].agg.fills == [g]
            && Waiting(s, Order(a, f.oid, plain), e)
  {
    RunThree(Init(now), StatusMsg(a, f.oid, status, ""), FillMsg(a, f, d), FillMsg(a, g, e));
    StatusOnly(now, a, f.oid, status);
    FirstLeg(OrderProtocol.Mark(Init(now), a, f.oid, status), a, f, d, status);
    LegKeysDiffer(a, f.oid, d, e);
    SecondLeg(Step(OrderProtocol.Mark(Init(now), a, f.oid, status), FillMsg(a, f, d)), a, f, d, g, e, status, plain);
  }

  predicate FirstLegOnly(s: Proc, a: string, f: Fill, d: string, status: string) {
    && s.flushChan == [FlushReq(OrderKey(a, f.oid, d), ByStatus, status)]
    && s.pending.Keys == {OrderKey(a, f.oid, d)} && s.tracker == map[] && s.dedup == map[]
  }

  lemma FirstLeg(s: Proc, a: string, f: Fill, d: string, status: string)
    requires s == OrderProtocol.Mark(Init(s.now), a, f.oid, status) && status != ""
    ensures FirstLegOnly(Step(s, FillMsg(a, f, d)), a, f, d, status)
  {
  }

  lemma SecondLeg(s: Proc, a: string, f: Fill, d: string, g: Fill, e: string, status: string, plain: bool)
    requires FirstLegOnly(s, a, f, d, status) && g.oid == f.oid
    requires OrderKey(a, f.oid, d) != OrderKey(a, f.oid, e)
    ensures var t := Step(s, FillMsg(a, g, e));
            && t.flushChan == s.flushChan && t.tracker == map[]
            && OrderKey(a, f.oid, e) in t.pending && t.pending[OrderKey(a, f.oid, e)].agg.fills == [g]
            && Waiting(t, Order(a, f.oid, plain), e)
  {
  }

  // ----- What requests a leg from then on -----

  predicate EndsOrder(e: Event, w: Order) {
    e.StatusMsg? && e.address == w.address && e.oid == w.oid && !NonTerminal(e.status)
  }

  // Every request of the order that is in t but not in s is the timeout scan's.
  predicate OnlyTimeouts(s: Proc, t: Proc, w: Order) {
    forall r :: r in t.flushChan && Owned(r.key, w) ==> r in s.flushChan || r.trigger == ByTimeout
  }

  lemma {:induction false} NotifyForeign(s: Proc, address: string, oid: int, status: string, dirs: seq<string>,
                                         w: Order)
    requires WellNamed(w) && (address != w.address || oid != w.oid)
    requires forall i :: 0 <= i < |dirs| ==> Named(address, oid, dirs[i], w.plain)
    requires TrackKey(w.address, w.oid) !in s.tracker
    ensures var t := Notify(s, address, oid, status, dirs);
            TrackKey(w.address, w.oid) !in t.tracker && forall r :: r in t.flushChan && Owned(r.key, w) ==> r in s.flushChan
    decreases |dirs|
  {
    if dirs != [] {
      var key := OrderKey(address, oid, dirs[0]);
      KeyDecidesOwner(w, address, oid, dirs[0]);
      var s1 := if key in s.pending
                then Untrack(Request(s, FlushReq(key, ByStatus, status)), address, oid) else s;
      NotifyForeign(s1, address, oid, status, dirs[1..], w);
    }
  }

  lemma {:induction false} ScanRequests(s: Proc, order: seq<string>, w: Order)
    ensures OnlyTimeouts(s, Scan(s, order), w) && Scan(s, order).tracker == s.tracker
    decreases |order|
  {
    if order != [] {
      ScanRequests(Visit(s, order[0]), order[1..], w);
    }
  }

  lemma FillRequests(s: Proc, address: string, fill: Fill, direction: string, w: Order)
    requires WellNamed(w) && Named(address, fill.oid, direction, w.plain) && TrackKey(w.address, w.oid) !in s.tracker
    ensures var t := HandleFill(s, address, fill, direction);
            TrackKey(w.address, w.oid) !in t.tracker && forall r :: r in t.flushChan && Owned(r.key, w) ==> r in s.flushChan
  {
    KeyDecidesOwner(w, address, fill.oid, direction);
  }

  lemma StepRequests(s: Proc, e: Event, w: Order)
    requires WellNamed(w) && NamedEvent(e, w.plain) && !EndsOrder(e, w) && TrackKey(w.address, w.oid) !in s.tracker
    ensures TrackKey(w.address, w.oid) !in Step(s, e).tracker && OnlyTimeouts(s, Step(s, e), w)
    ensures !e.TimeoutScan? ==>
              forall r :: r in Step(s, e).flushChan && Owned(r.key, w) ==> r in s.flushChan
  {
    match e
    case FillMsg(address, fill, direction) => FillRequests(s, address, fill, direction, w);
    case StatusMsg(address, oid, status, direction) =>
      if !NonTerminal(status) {
        TrackKeyDecidesOwner(address, oid, w);
        if w.plain {
          DirectionsAreFree(direction);
        }
        NotifyForeign(OrderProtocol.Mark(s, address, oid, status), address, oid, status, Directions(direction), w);
      }
    case TimeoutScan(order) => ScanRequests(s, order, w);
    case _ =>
  }

  // Until a terminal status of the order arrives, only the timeout scan
  // requests one of its legs.
  lemma {:induction false} RunRequests(s: Proc, es: seq<Event>, w: Order)
    requires WellNamed(w) && TrackKey(w.address, w.oid) !in s.tracker
    requires forall i :: 0 <= i < |es| ==> NamedEvent(es[i], w.plain) && !EndsOrder(es[i], w)
    ensures TrackKey(w.address, w.oid) !in Run(s, es).tracker && OnlyTimeouts(s, Run(s, es), w)
  {
    if es != [] {
      RunRequests(s, es[..|es| - 1], w);
      StepRequests(Run(s, es[..|es| - 1]), es[|es| - 1], w);
    }
  }

  // A pending leg with no flush under way and no status on record.
  predicate Waiting(s: Proc, w: Order, d: string) {
    && OrderKey(w.address, w.oid, d) in s.pending && TrackKey(w.address, w.oid) !in s.tracker
    && forall r :: r in s.flushChan ==> r.key != OrderKey(w.address, w.oid, d)
  }

  lemma StepWaits(s: Proc, e: Event, w: Order, d: string)
    requires WellNamed(w) && Named(w.address, w.oid, d, w.plain) && Waiting(s, w, d)
    requires NamedEvent(e, w.plain) && !EndsOrder(e, w) && !e.TimeoutScan?
    ensures Waiting(Step(s, e), w, d)
  {
    var key := OrderKey(w.address, w.oid, d);
    StepRequests(s, e, w);
    KeyDecidesOwner(w, w.address, w.oid, d);
    match e
    case FillMsg(address, fill, direction) => FillEffect(s, address, fill, direction);
    case StatusMsg(address, oid, status, direction) => StatusIsQuiet(s, address, oid, status, direction);
    case FlushAt(i, _) =>
      if i < |s.flushChan| {
        assert s.flushChan[i] in s.flushChan;
      }
    case _ =>
  }

  lemma {:induction false} RunWaits(s: Proc, es: seq<Event>, w: Order, d: string)
    requires WellNamed(w) && Named(w.address, w.oid, d, w.plain) && Waiting(s, w, d)
    requires forall i :: 0 <= i < |es| ==> NamedEvent(es[i], w.plain) && !EndsOrder(es[i], w) && !es[i].TimeoutScan?
    ensures Waiting(Run(s, es), w, d)
  {
    if es != [] {
      RunWaits(s, es[..|es| - 1], w, d);
      StepWaits(Run(s, es[..|es| - 1]), es[|es| - 1], w, d);
    }
  }

  // The second leg of a reversed order whose status came first stays pending
  // through everything but a timeout scan or another terminal status.
  lemma SecondLegNeedsTimeout(now: int, w: Order, f: Fill, d: string, g: Fill, e: string, status: string,
                              es: seq<Event>)
    requires WellNamed(w) && Named(w.address, w.oid, e, w.plain) && f.oid == g.oid == w.oid
    requires d != e && !NonTerminal(status) && status != ""
    requires forall i :: 0 <= i < |es| ==> NamedEvent(es[i], w.plain) && !EndsOrder(es[i], w) && !es[i].TimeoutScan?
    ensures OrderKey(w.address, w.oid, e) in
            Run(Run(Init(now), Reversed(w.address, f, d, g, e, status)), es).pending
  {
    ReversedSecondLegWaits(now, w.address, f, d, g, e, status, w.plain);
    RunWaits(Run(Init(now), Reversed(w.address, f, d, g, e, status)), es, w, e);
  }
}
