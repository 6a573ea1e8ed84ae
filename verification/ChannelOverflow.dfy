// A reachable full flush channel: one order's leg, asked for by scan after scan,
// crowds out the request of another order.
module ChannelOverflow {
  import opened Keys
  import opened Filters
  import opened OrderProtocol
  import opened OrderProjection

  function Scans(n: nat, key: string): seq<Event> {
    if n == 0 then [] else Scans(n - 1, key) + [TimeoutScan([key])]
  }

  function Copies(n: nat, req: FlushReq): seq<FlushReq> {
    if n == 0 then [] else Copies(n - 1, req) + [req]
  }

  // One leg is pending and timed out, and asked for n times; nothing else is on.
  predicate Crowded(s: Proc, key: string, n: nat) {
    && s.pending.Keys == {key} && TimedOut(s, key) && s.tracker == map[] && s.dedup == map[]
    && s.flushChan == Copies(n, FlushReq(key, ByTimeout, "filled")) && s.dropped == []
  }

  lemma {:induction false} CopiesLength(n: nat, req: FlushReq)
    ensures |Copies(n, req)| == n && forall r :: r in Copies(n, req) ==> r == req
  {
    if n > 0 {
      CopiesLength(n - 1, req);
    }
  }

  lemma ScanOne(s: Proc, key: string, n: nat)
    requires Crowded(s, key, n) && n < FLUSH_CAPACITY
    ensures Crowded(Step(s, TimeoutScan([key])), key, n + 1)
  {
    CopiesLength(n, FlushReq(key, ByTimeout, "filled"));
    assert [key][1..] == [];
    assert Scan(s, [key]) == Scan(Visit(s, key), []);
  }

  lemma {:induction false} ScanMany(s: Proc, key: string, n: nat)
    requires Crowded(s, key, 0) && n <= FLUSH_CAPACITY
    ensures Crowded(Run(s, Scans(n, key)), key, n)
  {
    if n > 0 {
      ScanMany(s, key, n - 1);
      RunNext(s, Scans(n - 1, key), TimeoutScan([key]));
      ScanOne(Run(s, Scans(n - 1, key)), key, n - 1);
    }
  }

  // A fill of one order, its timeout, and as many scans as the channel holds.
  function Filling(b: string, f: Fill, d: string): seq<Event> {
    [FillMsg(b, f, d), Tick(LEG_TIMEOUT + 1)] + Scans(FLUSH_CAPACITY, OrderKey(b, f.oid, d))
  }

  lemma FillsUp(now: int, b: string, f: Fill, d: string)
    ensures Crowded(Run(Init(now), Filling(b, f, d)), OrderKey(b, f.oid, d), FLUSH_CAPACITY)
  {
    var first := [FillMsg(b, f, d), Tick(LEG_TIMEOUT + 1)];
    assert first[..1] == [FillMsg(b, f, d)] && first[..1][..0] == [];
    assert Run(Init(now), first[..1]) == Step(Init(now), first[0]);
    RunParts(Init(now), first, Scans(FLUSH_CAPACITY, OrderKey(b, f.oid, d)));
    ScanMany(Run(Init(now), first), OrderKey(b, f.oid, d), FLUSH_CAPACITY);
  }

  // The other order's fill, and then its terminal status.
  function Overflow(b: string, f: Fill, d: string, w: Order, g: Fill, e: string): seq<Event> {
    Filling(b, f, d) + [FillMsg(w.address, g, e)]
  }

  predicate OwnLegWaits(s: Proc, w: Order, e: string) {
    && OrderKey(w.address, w.oid, e) in s.pending && |s.flushChan| == FLUSH_CAPACITY && s.dropped == []
    && forall r :: r in s.flushChan ==> !Owned(r.key, w)
  }

  lemma OwnLegArrives(s: Proc, key: string, w: Order, g: Fill, e: string)
    requires Crowded(s, key, FLUSH_CAPACITY) && !Owned(key, w) && g.oid == w.oid
    ensures OwnLegWaits(Step(s, FillMsg(w.address, g, e)), w, e)
  {
    CopiesLength(FLUSH_CAPACITY, FlushReq(key, ByTimeout, "filled"));
  }

  lemma {:induction false} NoneOwned(reqs: seq<FlushReq>, w: Order)
    requires forall r :: r in reqs ==> !Owned(r.key, w)
    ensures Filter(reqs, OwnReq(w)) == []
  {
    if reqs != [] {
      NoneOwned(reqs[..|reqs| - 1], w);
      assert reqs[|reqs| - 1] in reqs;
    }
  }

  lemma {:induction false} ScansAreNamed(n: nat, key: string, plain: bool)
    ensures forall i :: 0 <= i < |Scans(n, key)| ==> NamedEvent(Scans(n, key)[i], plain)
  {
    if n > 0 {
      ScansAreNamed(n - 1, key, plain);
    }
  }

  lemma OverflowIsNamed(b: string, f: Fill, d: string, w: Order, g: Fill, e: string)
    requires Named(b, f.oid, d, w.plain) && Named(w.address, w.oid, e, w.plain) && g.oid == w.oid
    ensures forall i :: 0 <= i < |Overflow(b, f, d, w, g, e)| ==> NamedEvent(Overflow(b, f, d, w, g, e)[i], w.plain)
  {
    ScansAreNamed(FLUSH_CAPACITY, OrderKey(b, f.oid, d), w.plain);
  }

  // Up to here nothing is dropped, and the order's part of the state is what the
  // order does alone.
  lemma UpToTheStatus(now: int, b: string, f: Fill, d: string, w: Order, g: Fill, e: string)
    requires WellNamed(w) && Named(b, f.oid, d, w.plain) && Named(w.address, w.oid, e, w.plain)
    requires (b != w.address || f.oid != w.oid) && g.oid == w.oid
    ensures var es := Overflow(b, f, d, w, g, e);
            && OwnLegWaits(Run(Init(now), es), w, e)
            && Slice(Run(Init(now), es), w) == Run(Init(now), Project(Init(now), es, w))
  {
    var es := Overflow(b, f, d, w, g, e);
    FillsUp(now, b, f, d);
    KeyDecidesOwner(w, b, f.oid, d);
    RunNext(Init(now), Filling(b, f, d), FillMsg(w.address, g, e));
    OwnLegArrives(Run(Init(now), Filling(b, f, d)), OrderKey(b, f.oid, d), w, g, e);
    OverflowIsNamed(b, f, d, w, g, e);
    assert Drops(Run(Init(now), es), w) == 0;
    Projection(now, es, w);
  }

  // The status finds the leg, and its request finds no room.
  lemma StatusIsDropped(s: Proc, w: Order, e: string, status: string)
    requires OwnLegWaits(s, w, e) && WellNamed(w) && Named(w.address, w.oid, e, w.plain)
    requires !NonTerminal(status) && e != ""
    ensures var report := StatusMsg(w.address, w.oid, status, e);
            Filter(Step(s, report).flushChan, OwnReq(w)) == [] && |Step(Slice(s, w), report).flushChan| == 1
  {
    NoneOwned(s.flushChan, w);
    KeyDecidesOwner(w, w.address, w.oid, e);
    NotifyOne(OrderProtocol.Mark(s, w.address, w.oid, status), w.address, w.oid, status, e);
    NotifyOne(OrderProtocol.Mark(Slice(s, w), w.address, w.oid, status), w.address, w.oid, status, e);
  }

  lemma NotifyOne(s: Proc, address: string, oid: int, status: string, e: string)
    ensures Notify(s, address, oid, status, [e]) ==
            var key := OrderKey(address, oid, e);
            if key in s.pending then Untrack(Request(s, FlushReq(key, ByStatus, status)), address, oid) else s
  {
    assert [e][1..] == [];
  }

  // So the projection fails on this run of two orders: alone the order has its
  // request waiting, here it has none.
  lemma OverflowBreaksProjection(now: int, b: string, f: Fill, d: string, w: Order, g: Fill, e: string, status: string)
    requires WellNamed(w) && Named(b, f.oid, d, w.plain) && Named(w.address, w.oid, e, w.plain)
    requires (b != w.address || f.oid != w.oid) && g.oid == w.oid && !NonTerminal(status) && e != ""
    ensures var es := Overflow(b, f, d, w, g, e) + [StatusMsg(w.address, w.oid, status, e)];
            Slice(Run(Init(now), es), w) != Run(Init(now), Project(Init(now), es, w))
  {
    var before, last := Overflow(b, f, d, w, g, e), StatusMsg(w.address, w.oid, status, e);
    var s, own := Run(Init(now), before), Project(Init(now), before, w);
    UpToTheStatus(now, b, f, d, w, g, e);
    StatusIsDropped(s, w, e, status);
    RunNext(Init(now), before, last);
    ProjectNext(Init(now), before, last, w);
    RunNext(Init(now), own, last);
  }

  lemma ProjectNext(s: Proc, es: seq<Event>, e: Event, w: Order)
    ensures Project(s, es + [e], w) == Project(s, es, w) + ProjectEvent(Run(s, es), e, w)
  {
    assert (es + [e])[..|es|] == es;
  }
}
