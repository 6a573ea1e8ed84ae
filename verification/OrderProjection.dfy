// Orders do not interfere: what a run does to one (address, oid) is what the
// order's own messages, with the clock and the scans, do on their own.
module OrderProjection {
  import opened Keys
  import opened Filters
  import opened OrderProtocol
  import opened OrderInvariants

  // An order, and how its keys are told from those of other orders: by addresses
  // without '-', or, for a plain order, by an oid that is not negative and
  // directions without '-': then the prefix alone does not tell (see
  // DashedAddressesShadow), but what follows it does.
  datatype Order = Order(address: string, oid: int, plain: bool)

  predicate Owned(key: string, w: Order) {
    LegPrefix(w.address, w.oid) <= key &&
    (w.plain ==> Free(key[|LegPrefix(w.address, w.oid)|..], '-'))
  }

  predicate Named(address: string, oid: int, direction: string, plain: bool) {
    if plain then oid >= 0 && Free(direction, '-') else Free(address, '-')
  }

  predicate WellNamed(w: Order) {
    if w.plain then w.oid >= 0 else Free(w.address, '-')
  }

  // A leg key of a named order is owned by exactly that order.
  lemma KeyDecidesOwner(w: Order, address: string, oid: int, direction: string)
    requires WellNamed(w) && Named(address, oid, direction, w.plain)
    ensures Owned(OrderKey(address, oid, direction), w) <==> address == w.address && oid == w.oid
  {
    var key, prefix := OrderKey(address, oid, direction), LegPrefix(w.address, w.oid);
    if w.plain {
      if Owned(key, w) {
        CutPrefix(prefix, key);
        OrderKeyInjectiveOnOids(w.address, w.oid, key[|prefix|..], address, oid, direction);
      }
      if address == w.address && oid == w.oid {
        assert key[|prefix|..] == direction;
      }
    } else {
      PrefixDecidesOwner(w.address, w.oid, address, oid, direction);
    }
  }

  lemma DirectionsAreFree(direction: string)
    requires Free(direction, '-')
    ensures forall i :: 0 <= i < |Directions(direction)| ==> Free(Directions(direction)[i], '-')
  {
    assert Free("Open Long", '-') && Free("Open Short", '-') && Free("Close Long", '-');
    assert Free("Close Short", '-') && Free("Buy", '-') && Free("Sell", '-');
  }

  function OwnReq(w: Order): FlushReq -> bool {
    (r: FlushReq) => Owned(r.key, w)
  }

  function OwnPublication(w: Order): Publication -> bool {
    (p: Publication) => Owned(p.agg.Key(), w)
  }

  function OwnAccepted(w: Order): Accepted -> bool {
    (x: Accepted) => Owned(x.key, w)
  }

  function OwnRow(w: Order): Aggregation -> bool {
    (x: Aggregation) => Owned(x.Key(), w)
  }

  function OwnKey(w: Order): string -> bool {
    (k: string) => Owned(k, w)
  }

  function OwnLegs<V>(m: map<string, V>, w: Order): map<string, V> {
    map k | k in m && Owned(k, w) :: m[k]
  }

  function Only<V>(m: map<string, V>, key: string): map<string, V> {
    map k | k in m && k == key :: m[k]
  }

  // The part of the state that belongs to one order.
  function Slice(s: Proc, w: Order): Proc {
    Proc(s.now, OwnLegs(s.pending, w), Only(s.tracker, TrackKey(w.address, w.oid)), OwnLegs(s.dedup, w),
         Filter(s.flushChan, OwnReq(w)), Filter(s.dropped, OwnReq(w)),
         Filter(s.published, OwnPublication(w)),
         Filter(s.accepted, OwnAccepted(w)), Filter(s.writes, OwnRow(w)))
  }

  // The same event as the order alone sees it.
  function ProjectEvent(s: Proc, e: Event, w: Order): seq<Event> {
    match e
    case FillMsg(address, fill, _) => if address == w.address && fill.oid == w.oid then [e] else []
    case StatusMsg(address, oid, _, _) => if address == w.address && oid == w.oid then [e] else []
    case FlushAt(i, ok) =>
      if i < |s.flushChan| && Owned(s.flushChan[i].key, w)
      then [FlushAt(|Filter(s.flushChan[..i], OwnReq(w))|, ok)] else []
    case TimeoutScan(order) => [TimeoutScan(Filter(order, OwnKey(w)))]
    case Tick(_) => [e]
  }

  function Project(s: Proc, es: seq<Event>, w: Order): seq<Event> {
    if es == [] then []
    else Project(s, es[..|es| - 1], w) +
         ProjectEvent(Run(s, es[..|es| - 1]), es[|es| - 1], w)
  }

  predicate NamedEvent(e: Event, plain: bool) {
    match e
    case FillMsg(address, fill, direction) => Named(address, fill.oid, direction, plain)
    case StatusMsg(address, oid, _, direction) => Named(address, oid, direction, plain)
    case _ => true
  }

  // How many of the order's own flush requests a full channel has dropped.
  function Drops(s: Proc, w: Order): nat {
    |Filter(s.dropped, OwnReq(w))|
  }

  // ----- Slices of the elementary updates -----

  lemma OwnReqSnoc(reqs: seq<FlushReq>, req: FlushReq, w: Order)
    ensures Filter(reqs + [req], OwnReq(w)) ==
            if Owned(req.key, w) then Filter(reqs, OwnReq(w)) + [req] else Filter(reqs, OwnReq(w))
  {
    FilterSnoc(reqs, req, OwnReq(w));
  }

  lemma SliceRequest(s: Proc, req: FlushReq, w: Order)
    requires Drops(Request(s, req), w) == Drops(s, w)
    ensures Slice(Request(s, req), w) ==
            if Owned(req.key, w) then Request(Slice(s, w), req) else Slice(s, w)
  {
    OwnReqSnoc(s.dropped, req, w);
    if |s.flushChan| < FLUSH_CAPACITY {
      SliceQueued(s, req, w);
    } else {
      assert !Owned(req.key, w);
    }
  }

  lemma SliceQueued(s: Proc, req: FlushReq, w: Order)
    ensures var t := s.(flushChan := s.flushChan + [req]);
            var own := Slice(s, w);
            Slice(t, w) ==
            if Owned(req.key, w) then own.(flushChan := own.flushChan + [req]) else own
  {
    OwnReqSnoc(s.flushChan, req, w);
  }

  lemma OnlyUpdate<V>(m: map<string, V>, k: string, v: V, key: string)
    ensures Only(m[k := v], key) == if k == key then Only(m, key)[k := v] else Only(m, key)
    ensures Only(m - {k}, key) == if k == key then Only(m, key) - {k} else Only(m, key)
  {
  }

  lemma TrackKeyDecidesOwner(address: string, oid: int, w: Order)
    requires WellNamed(w) && Named(address, oid, "", w.plain)
    ensures TrackKey(address, oid) == TrackKey(w.address, w.oid) <==> address == w.address && oid == w.oid
  {
    if TrackKey(address, oid) == TrackKey(w.address, w.oid) {
      if w.plain {
        TrackKeyInjectiveOnOids(address, oid, w.address, w.oid);
      } else {
        TrackKeyInjective(address, oid, w.address, w.oid);
      }
    }
  }

  lemma SliceUntrack(s: Proc, address: string, oid: int, w: Order)
    requires WellNamed(w) && Named(address, oid, "", w.plain)
    ensures Slice(Untrack(s, address, oid), w) ==
            if address == w.address && oid == w.oid then Untrack(Slice(s, w), w.address, w.oid) else Slice(s, w)
  {
    TrackKeyDecidesOwner(address, oid, w);
    OnlyUpdate(s.tracker, TrackKey(address, oid), Tracked("", 0), TrackKey(w.address, w.oid));
  }

  lemma SliceMark(s: Proc, address: string, oid: int, status: string, w: Order)
    requires WellNamed(w) && Named(address, oid, "", w.plain)
    ensures Slice(Mark(s, address, oid, status), w) ==
            if address == w.address && oid == w.oid then Mark(Slice(s, w), w.address, w.oid, status) else Slice(s, w)
  {
    TrackKeyDecidesOwner(address, oid, w);
    OnlyUpdate(s.tracker, TrackKey(address, oid), Tracked(status, s.now + TRACKER_TTL), TrackKey(w.address, w.oid));
  }

  lemma OwnLegsUpdate<V>(m: map<string, V>, k: string, v: V, w: Order)
    ensures OwnLegs(m[k := v], w) ==
            if Owned(k, w) then OwnLegs(m, w)[k := v] else OwnLegs(m, w)
    ensures OwnLegs(m - {k}, w) ==
            if Owned(k, w) then OwnLegs(m, w) - {k} else OwnLegs(m, w)
  {
  }

  lemma SliceStore(s: Proc, address: string, fill: Fill, direction: string, w: Order)
    requires forall k :: k in s.pending ==> s.pending[k].agg.Key() == k
    requires WellNamed(w) && Named(address, fill.oid, direction, w.plain)
    ensures Slice(StoreFill(s, address, fill, direction), w) ==
            if address == w.address && fill.oid == w.oid
            then StoreFill(Slice(s, w), address, fill, direction) else Slice(s, w)
  {
    var key := OrderKey(address, fill.oid, direction);
    var t := StoreFill(s, address, fill, direction);
    KeyDecidesOwner(w, address, fill.oid, direction);
    OwnLegsUpdate(s.pending, key, t.pending[key], w);
    FilterSnoc(s.accepted, Accepted(key, fill), OwnAccepted(w));
    FilterSnoc(s.writes, t.pending[key].agg, OwnRow(w));
    assert t.pending[key].agg.Key() == key;
  }

  lemma OwnPublicationSnoc(log: seq<Publication>, p: Publication, key: string, w: Order)
    requires p.agg.Key() == key
    ensures Filter(log + [p], OwnPublication(w)) ==
            if Owned(key, w) then Filter(log, OwnPublication(w)) + [p] else Filter(log, OwnPublication(w))
  {
    FilterSnoc(log, p, OwnPublication(w));
  }

  lemma OwnRowSnoc(rows: seq<Aggregation>, row: Aggregation, key: string, w: Order)
    requires row.Key() == key
    ensures Filter(rows + [row], OwnRow(w)) ==
            if Owned(key, w) then Filter(rows, OwnRow(w)) + [row] else Filter(rows, OwnRow(w))
  {
    FilterSnoc(rows, row, OwnRow(w));
  }

  // The two halves of recording a signal: its logs, its mark and its leg.
  function Logged(s: Proc, p: Publication, row: Aggregation): Proc {
    s.(published := s.published + [p], writes := s.writes + [row])
  }

  function Released(s: Proc, key: string): Proc {
    s.(dedup := s.dedup[key := s.now + DEDUP_TTL], pending := s.pending - {key})
  }

  lemma SliceLogged(s: Proc, p: Publication, row: Aggregation, key: string, w: Order)
    requires p.agg.Key() == key && row.Key() == key
    ensures Slice(Logged(s, p, row), w) == if Owned(key, w) then Logged(Slice(s, w), p, row) else Slice(s, w)
  {
    OwnPublicationSnoc(s.published, p, key, w);
    OwnRowSnoc(s.writes, row, key, w);
  }

  lemma SliceReleased(s: Proc, key: string, w: Order)
    requires key in s.pending
    ensures Slice(Released(s, key), w) == if Owned(key, w) then Released(Slice(s, w), key) else Slice(s, w)
  {
    OwnLegsUpdate(s.pending, key, s.pending[key], w);
    OwnLegsUpdate(s.dedup, key, s.now + DEDUP_TTL, w);
  }

  lemma SliceRecord(s: Proc, key: string, signal: Signal, sent: Aggregation, w: Order)
    requires key in s.pending && sent.Key() == key
    ensures Slice(Record(s, key, key, signal, sent), w) ==
            if Owned(key, w) then Record(Slice(s, w), key, key, signal, sent) else Slice(s, w)
  {
    var p := Publication(signal, sent, s.now);
    SliceLogged(Released(s, key), p, sent, key, w);
    SliceReleased(s, key, w);
    RecordInHalves(s, key, signal, sent);
    RecordInHalves(Slice(s, w), key, signal, sent);
  }

  lemma RecordInHalves(s: Proc, key: string, signal: Signal, sent: Aggregation)
    ensures Record(s, key, key, signal, sent) == Logged(Released(s, key), Publication(signal, sent, s.now), sent)
  {
  }

  lemma SlicePublish(s: Proc, key: string, status: string, w: Order)
    requires Publishes(s, key, true) && s.pending[key].agg.Key() == key
    ensures Slice(Publish(s, key, status), w) ==
            if Owned(key, w) then Publish(Slice(s, w), key, status) else Slice(s, w)
  {
    var agg := s.pending[key].agg;
    SliceRecord(s, key, BuildSignal(agg).value, SentRow(agg, status, s.now), w);
  }

  // ----- Slices of the steps -----

  lemma SliceAccepts(s: Proc, address: string, fill: Fill, direction: string, w: Order)
    requires WellNamed(w) && Named(address, fill.oid, direction, w.plain)
    requires address == w.address && fill.oid == w.oid
    ensures var key := OrderKey(address, fill.oid, direction);
            var own := Slice(s, w);
            && (Accepts(own, key, fill) <==> Accepts(s, key, fill))
            && GetStatus(own.tracker, TrackKey(address, fill.oid), s.now) ==
               GetStatus(s.tracker, TrackKey(address, fill.oid), s.now)
  {
    KeyDecidesOwner(w, address, fill.oid, direction);
  }

  lemma SliceFill(s: Proc, address: string, fill: Fill, direction: string, w: Order)
    requires forall k :: k in s.pending ==> s.pending[k].agg.Key() == k
    requires WellNamed(w) && Named(address, fill.oid, direction, w.plain)
    requires Drops(HandleFill(s, address, fill, direction), w) == Drops(s, w)
    ensures Slice(HandleFill(s, address, fill, direction), w) ==
            if address == w.address && fill.oid == w.oid
            then HandleFill(Slice(s, w), address, fill, direction) else Slice(s, w)
  {
    var key := OrderKey(address, fill.oid, direction);
    if address == w.address && fill.oid == w.oid {
      SliceAccepts(s, address, fill, direction, w);
    }
    if Accepts(s, key, fill) {
      SliceStore(s, address, fill, direction, w);
      var marked := GetStatus(s.tracker, TrackKey(address, fill.oid), s.now);
      if marked.Some? && marked.value != "" {
        SliceAutoFlush(StoreFill(s, address, fill, direction), address, fill.oid, direction, marked.value, w);
      }
    }
  }

  lemma SliceAutoFlush(s: Proc, address: string, oid: int, direction: string, status: string, w: Order)
    requires WellNamed(w) && Named(address, oid, direction, w.plain)
    requires Drops(Request(s, FlushReq(OrderKey(address, oid, direction), ByStatus, status)), w) == Drops(s, w)
    ensures var req := FlushReq(OrderKey(address, oid, direction), ByStatus, status);
            Slice(Untrack(Request(s, req), address, oid), w) ==
            if address == w.address && oid == w.oid
            then Untrack(Request(Slice(s, w), req), w.address, w.oid) else Slice(s, w)
  {
    var req := FlushReq(OrderKey(address, oid, direction), ByStatus, status);
    KeyDecidesOwner(w, address, oid, direction);
    SliceRequest(s, req, w);
    SliceUntrack(Request(s, req), address, oid, w);
  }

  lemma RequestDrops(s: Proc, req: FlushReq, w: Order)
    ensures Drops(Request(s, req), w) >= Drops(s, w)
  {
    FilterSnoc(s.dropped, req, OwnReq(w));
  }

  lemma NotifyDrops(s: Proc, address: string, oid: int, status: string, dirs: seq<string>, w: Order)
    ensures Drops(Notify(s, address, oid, status, dirs), w) >= Drops(s, w)
    decreases |dirs|
  {
    if dirs != [] {
      var key := OrderKey(address, oid, dirs[0]);
      var s1 := if key in s.pending
                then Untrack(Request(s, FlushReq(key, ByStatus, status)), address, oid) else s;
      RequestDrops(s, FlushReq(key, ByStatus, status), w);
      NotifyDrops(s1, address, oid, status, dirs[1..], w);
    }
  }

  lemma {:induction false} SliceNotify(s: Proc, address: string, oid: int, status: string, dirs: seq<string>,
                                       w: Order)
    requires WellNamed(w) && forall i :: 0 <= i < |dirs| ==> Named(address, oid, dirs[i], w.plain)
    requires Drops(Notify(s, address, oid, status, dirs), w) == Drops(s, w)
    ensures Slice(Notify(s, address, oid, status, dirs), w) ==
            if address == w.address && oid == w.oid
            then Notify(Slice(s, w), address, oid, status, dirs) else Slice(s, w)
    decreases |dirs|
  {
    if dirs != [] {
      var key := OrderKey(address, oid, dirs[0]);
      KeyDecidesOwner(w, address, oid, dirs[0]);
      var s1 := if key in s.pending
                then Untrack(Request(s, FlushReq(key, ByStatus, status)), address, oid) else s;
      RequestDrops(s, FlushReq(key, ByStatus, status), w);
      NotifyDrops(s1, address, oid, status, dirs[1..], w);
      if key in s.pending {
        SliceAutoFlush(s, address, oid, dirs[0], status, w);
      }
      SliceNotify(s1, address, oid, status, dirs[1..], w);
    }
  }

  lemma SliceStatus(s: Proc, address: string, oid: int, status: string, direction: string, w: Order)
    requires WellNamed(w) && Named(address, oid, direction, w.plain)
    requires Drops(HandleStatus(s, address, oid, status, direction), w) == Drops(s, w)
    ensures Slice(HandleStatus(s, address, oid, status, direction), w) ==
            if address == w.address && oid == w.oid
            then HandleStatus(Slice(s, w), address, oid, status, direction) else Slice(s, w)
  {
    if !NonTerminal(status) {
      SliceMark(s, address, oid, status, w);
      if w.plain {
        DirectionsAreFree(direction);
      }
      SliceNotify(Mark(s, address, oid, status), address, oid, status, Directions(direction), w);
    }
  }

  lemma ScanDrops(s: Proc, order: seq<string>, w: Order)
    ensures Drops(Scan(s, order), w) >= Drops(s, w)
    decreases |order|
  {
    if order != [] {
      RequestDrops(s, FlushReq(order[0], ByTimeout, "filled"), w);
      ScanDrops(Visit(s, order[0]), order[1..], w);
    }
  }

  lemma SliceVisit(s: Proc, key: string, w: Order)
    requires Drops(Visit(s, key), w) == Drops(s, w)
    ensures Slice(Visit(s, key), w) == if Owned(key, w) then Visit(Slice(s, w), key) else Slice(s, w)
  {
    if TimedOut(s, key) {
      SliceRequest(s, FlushReq(key, ByTimeout, "filled"), w);
    }
  }

  lemma FilterHead(order: seq<string>, p: string -> bool)
    requires order != []
    ensures Filter(order, p) == (if p(order[0]) then [order[0]] else []) + Filter(order[1..], p)
  {
    assert order == [order[0]] + order[1..];
    FilterConcat([order[0]], order[1..], p);
    assert [order[0]][..0] == [];
  }

  lemma {:induction false} SliceScan(s: Proc, order: seq<string>, w: Order)
    requires Drops(Scan(s, order), w) == Drops(s, w)
    ensures Slice(Scan(s, order), w) == Scan(Slice(s, w), Filter(order, OwnKey(w)))
    decreases |order|
  {
    if order != [] {
      var key, rest := order[0], Filter(order[1..], OwnKey(w));
      RequestDrops(s, FlushReq(key, ByTimeout, "filled"), w);
      ScanDrops(Visit(s, key), order[1..], w);
      SliceVisit(s, key, w);
      SliceScan(Visit(s, key), order[1..], w);
      FilterHead(order, OwnKey(w));
      if Owned(key, w) {
        ScanHead(Slice(s, w), key, rest);
      } else {
        assert [] + rest == rest;
      }
    }
  }

  lemma ScanHead(s: Proc, key: string, rest: seq<string>)
    ensures Scan(s, [key] + rest) == Scan(Visit(s, key), rest)
  {
    assert ([key] + rest)[1..] == rest;
  }

  lemma SliceFlush(s: Proc, i: nat, ok: bool, w: Order)
    requires forall k :: k in s.pending ==> s.pending[k].agg.Key() == k
    requires i < |s.flushChan|
    ensures Slice(Step(s, FlushAt(i, ok)), w) ==
            if Owned(s.flushChan[i].key, w)
            then Step(Slice(s, w), FlushAt(|Filter(s.flushChan[..i], OwnReq(w))|, ok))
            else Slice(s, w)
  {
    var req := s.flushChan[i];
    var s1 := s.(flushChan := Without(s.flushChan, i));
    FilterWithout(s.flushChan, i, OwnReq(w));
    if Publishes(s1, req.key, ok) {
      SlicePublish(s1, req.key, req.status, w);
    }
  }

  // One step commutes with slicing.
  lemma SliceStep(s: Proc, e: Event, w: Order)
    requires forall k :: k in s.pending ==> s.pending[k].agg.Key() == k
    requires WellNamed(w) && NamedEvent(e, w.plain)
    requires Drops(Step(s, e), w) == Drops(s, w)
    ensures var own := ProjectEvent(s, e, w);
            |own| <= 1 &&
            Slice(Step(s, e), w) == if own == [] then Slice(s, w) else Step(Slice(s, w), own[0])
  {
    match e
    case FillMsg(address, fill, direction) => SliceFill(s, address, fill, direction, w);
    case StatusMsg(address, oid, status, direction) => SliceStatus(s, address, oid, status, direction, w);
    case FlushAt(i, ok) => if i < |s.flushChan| { SliceFlush(s, i, ok, w); }
    case TimeoutScan(order) => SliceScan(s, order, w);
    case Tick(_) =>
  }

  lemma StepDrops(s: Proc, e: Event, w: Order)
    ensures Drops(Step(s, e), w) >= Drops(s, w)
  {
    match e
    case FillMsg(address, fill, direction) => FillDrops(s, address, fill, direction, w);
    case StatusMsg(address, oid, status, direction) =>
      NotifyDrops(Mark(s, address, oid, status), address, oid, status, Directions(direction), w);
    case TimeoutScan(order) => ScanDrops(s, order, w);
    case _ =>
  }

  lemma FillDrops(s: Proc, address: string, fill: Fill, direction: string, w: Order)
    ensures Drops(HandleFill(s, address, fill, direction), w) >= Drops(s, w)
  {
    var key := OrderKey(address, fill.oid, direction);
    var marked := GetStatus(s.tracker, TrackKey(address, fill.oid), s.now);
    if marked.Some? {
      RequestDrops(StoreFill(s, address, fill, direction), FlushReq(key, ByStatus, marked.value), w);
    }
  }

  lemma {:induction false} RunDrops(s: Proc, es: seq<Event>, w: Order)
    ensures Drops(Run(s, es), w) >= Drops(s, w)
  {
    if es != [] {
      RunDrops(s, es[..|es| - 1], w);
      StepDrops(Run(s, es[..|es| - 1]), es[|es| - 1], w);
    }
  }

  lemma {:induction false} SliceRun(s: Proc, es: seq<Event>, w: Order)
    requires Inv(s) && WellNamed(w)
    requires forall i :: 0 <= i < |es| ==> NamedEvent(es[i], w.plain)
    requires Drops(Run(s, es), w) == Drops(s, w)
    ensures Slice(Run(s, es), w) == Run(Slice(s, w), Project(s, es, w))
  {
    if es != [] {
      var front, e := es[..|es| - 1], es[|es| - 1];
      var mid := Run(s, front);
      RunDrops(s, front, w);
      StepDrops(mid, e, w);
      SliceRun(s, front, w);
      RunKeepsInv(s, front);
      SliceNext(mid, e, Slice(s, w), Project(s, front, w), w);
    }
  }

  // One more step of the run is one more step of the projected run, or none.
  lemma SliceNext(mid: Proc, e: Event, s: Proc, before: seq<Event>, w: Order)
    requires Inv(mid) && WellNamed(w) && NamedEvent(e, w.plain) && Drops(Step(mid, e), w) == Drops(mid, w)
    requires Slice(mid, w) == Run(s, before)
    ensures Slice(Step(mid, e), w) == Run(s, before + ProjectEvent(mid, e, w))
  {
    forall k | k in mid.pending ensures mid.pending[k].agg.Key() == k {
      assert LegInvariant(mid, k);
    }
    SliceStep(mid, e, w);
    var own := ProjectEvent(mid, e, w);
    if own != [] {
      assert own == [own[0]];
      RunNext(s, before, own[0]);
    } else {
      assert before + own == before;
    }
  }

  // An event that belongs to the order, in a state with only the order's requests.
  predicate Concerns(s: Proc, e: Event, w: Order) {
    match e
    case FillMsg(address, fill, _) => address == w.address && fill.oid == w.oid
    case StatusMsg(address, oid, _, _) => address == w.address && oid == w.oid
    case FlushAt(i, _) => i < |s.flushChan| && Owned(s.flushChan[i].key, w)
    case TimeoutScan(order) => forall i :: 0 <= i < |order| ==> Owned(order[i], w)
    case Tick(_) => true
  }

  predicate OwnRun(s: Proc, es: seq<Event>, w: Order) {
    es == [] ||
    (OwnRun(s, es[..|es| - 1], w) && Concerns(Run(s, es[..|es| - 1]), es[|es| - 1], w))
  }

  lemma AtMostOne(s: Proc, e: Event, w: Order)
    ensures |ProjectEvent(s, e, w)| <= 1
  {
  }

  lemma ProjectedConcerns(s: Proc, e: Event, w: Order)
    ensures forall own :: own in ProjectEvent(s, e, w) ==> Concerns(Slice(s, w), own, w)
  {
    match e
    case FlushAt(i, _) => if i < |s.flushChan| { FilterWithout(s.flushChan, i, OwnReq(w)); }
    case TimeoutScan(order) => FilterSound(order, OwnKey(w));
    case _ =>
  }

  // The projected run consists of the order's own messages, flushes and scans.
  lemma {:induction false} OnlyOwnMessages(s: Proc, es: seq<Event>, w: Order)
    requires Inv(s) && WellNamed(w)
    requires forall i :: 0 <= i < |es| ==> NamedEvent(es[i], w.plain)
    requires Drops(Run(s, es), w) == Drops(s, w)
    ensures OwnRun(Slice(s, w), Project(s, es, w), w)
  {
    if es != [] {
      var front, e := es[..|es| - 1], es[|es| - 1];
      var mid, before := Run(s, front), Project(s, front, w);
      RunDrops(s, front, w);
      StepDrops(mid, e, w);
      OnlyOwnMessages(s, front, w);
      SliceRun(s, front, w);
      AtMostOne(mid, e, w);
      ProjectedConcerns(mid, e, w);
      var own := ProjectEvent(mid, e, w);
      if own != [] {
        assert own[0] in own && own == [own[0]];
        OwnRunSnoc(Slice(s, w), before, own[0], w);
      } else {
        assert before + own == before;
      }
    }
  }

  lemma OwnRunSnoc(s: Proc, es: seq<Event>, e: Event, w: Order)
    requires OwnRun(s, es, w) && Concerns(Run(s, es), e, w)
    ensures OwnRun(s, es + [e], w)
  {
    assert (es + [e])[..|es|] == es;
  }

  // On runs whose addresses have no '-', or whose oids are not negative and whose
  // directions have no '-', and as long as none of its own flush requests was
  // dropped, the state of one order after any run is the state of the projected
  // run, in which nothing of another order occurs.
  lemma Projection(now: int, es: seq<Event>, w: Order)
    requires WellNamed(w) && forall i :: 0 <= i < |es| ==> NamedEvent(es[i], w.plain)
    requires Drops(Run(Init(now), es), w) == 0
    ensures Slice(Run(Init(now), es), w) == Run(Init(now), Project(Init(now), es, w))
    ensures OwnRun(Init(now), Project(Init(now), es, w), w)
  {
    SliceRun(Init(now), es, w);
    OnlyOwnMessages(Init(now), es, w);
    assert Slice(Init(now), w) == Init(now);
  }

  // Why dropped requests have to be excluded: a full channel drops the order's
  // request, and alone the order would have queued it, unless everything that
  // waits is its own.
  lemma DroppedRequestShows(s: Proc, req: FlushReq, w: Order)
    requires Owned(req.key, w) && |s.flushChan| >= FLUSH_CAPACITY
    ensures Slice(Request(s, req), w) == Request(Slice(s, w), req) <==>
            |Filter(s.flushChan, OwnReq(w))| >= FLUSH_CAPACITY
  {
    FilterSnoc(s.dropped, req, OwnReq(w));
    var own := Slice(s, w);
    if |own.flushChan| < FLUSH_CAPACITY {
      assert |Request(own, req).flushChan| == |own.flushChan| + 1;
    }
  }
}
