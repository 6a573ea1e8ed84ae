// What holds in every reachable state of the order-leg protocol: legs are
// correctly aggregated, accepted fills are conserved, and signals of one leg
// are spaced by more than the dedup TTL.
module OrderInvariants {
  import opened Basics
  import opened Keys
  import opened Filters
  import opened OrderProtocol

  // ----- Leg aggregation -----

  predicate DistinctTids(fills: seq<Fill>) {
    forall i, j :: 0 <= i < j < |fills| ==> fills[i].tid != fills[j].tid
  }

  function Tids(fills: seq<Fill>): set<int> {
    set f | f in fills :: f.tid
  }

  predicate Totalled(agg: Aggregation) {
    && agg.fills != []
    && agg.totalSize == SumSize(agg.fills)
    && agg.weightedAvgPx == (if |agg.fills| == 1 then agg.fills[0].px else WeightedAvg(agg.fills))
    && DistinctTids(agg.fills[1..])
  }

  predicate Aggregated(leg: Leg) {
    Totalled(leg.agg) && leg.seenTids == Tids(leg.agg.fills[1..])
  }

  lemma SumsSnoc(fills: seq<Fill>, f: Fill)
    ensures SumSize(fills + [f]) == SumSize(fills) + f.sz
    ensures SumValue(fills + [f]) == SumValue(fills) + f.sz * f.px
  {
    assert (fills + [f])[..|fills|] == fills;
  }

  lemma {:induction false} SumsOfOne(f: Fill)
    ensures SumSize([f]) == f.sz && SumValue([f]) == f.sz * f.px
  {
    assert [f][..0] == [];
  }

  lemma NewLegAggregated(address: string, fill: Fill, direction: string, now: int)
    ensures Aggregated(NewLeg(address, fill, direction, now))
  {
    SumsOfOne(fill);
  }

  lemma AddFillAggregated(leg: Leg, fill: Fill, now: int)
    requires Aggregated(leg) && fill.tid !in leg.seenTids
    ensures Aggregated(AddFill(leg, fill, now))
  {
    var later := leg.agg.fills[1..];
    var grown := (leg.agg.fills + [fill])[1..];
    assert grown == later + [fill];
    forall i | 0 <= i < |later| ensures later[i].tid in leg.seenTids {
      assert later[i] in later;
    }
    assert Tids(grown) == Tids(later) + {fill.tid} by {
      assert forall f :: f in grown <==> f in later || f == fill;
      assert fill in grown;
    }
  }

  predicate NonNegative(fills: seq<Fill>) {
    forall i :: 0 <= i < |fills| ==> fills[i].sz >= 0.0
  }

  lemma {:induction false} SumSizeNonNegative(fills: seq<Fill>)
    requires NonNegative(fills)
    ensures SumSize(fills) >= 0.0
    ensures forall i :: 0 <= i < |fills| ==> fills[i].sz <= SumSize(fills)
  {
    if fills != [] {
      SumSizeNonNegative(fills[..|fills| - 1]);
      forall i | 0 <= i < |fills| ensures fills[i].sz <= SumSize(fills) {
        if i < |fills| - 1 {
          assert fills[..|fills| - 1][i].sz <= SumSize(fills[..|fills| - 1]);
        }
      }
    }
  }

  lemma ScaleMonotone(k: real, x: real, y: real)
    requires k >= 0.0 && x <= y
    ensures k * x <= k * y
  {
  }

  lemma Distribute(k: real, x: real, y: real)
    ensures k * (x + y) == k * x + y * k
  {
  }

  lemma BoundOneMore(lo: real, hi: real, size: real, value: real, sz: real, px: real)
    requires lo * size <= value <= hi * size && sz >= 0.0 && lo <= px <= hi
    ensures lo * (size + sz) <= value + sz * px <= hi * (size + sz)
  {
    ScaleMonotone(sz, lo, px);
    ScaleMonotone(sz, px, hi);
    Distribute(lo, size, sz);
    Distribute(hi, size, sz);
  }

  predicate WorthBetween(fills: seq<Fill>, lo: real, hi: real) {
    lo * SumSize(fills) <= SumValue(fills) <= hi * SumSize(fills)
  }

  // Prices bounded by lo and hi bound the traded value.
  lemma {:induction false} ValueBetween(fills: seq<Fill>, lo: real, hi: real)
    requires NonNegative(fills)
    requires forall i :: 0 <= i < |fills| ==> lo <= fills[i].px <= hi
    ensures WorthBetween(fills, lo, hi)
    decreases |fills|, 0
  {
    if fills != [] {
      ValueBetweenSnoc(fills[..|fills| - 1], fills[|fills| - 1], lo, hi);
      assert fills[..|fills| - 1] + [fills[|fills| - 1]] == fills;
    }
  }

  lemma {:induction false} ValueBetweenSnoc(front: seq<Fill>, last: Fill, lo: real, hi: real)
    requires NonNegative(front) && last.sz >= 0.0 && lo <= last.px <= hi
    requires forall i :: 0 <= i < |front| ==> lo <= front[i].px <= hi
    ensures WorthBetween(front + [last], lo, hi)
    decreases |front|, 1
  {
    ValueBetween(front, lo, hi);
    BoundOneMore(lo, hi, SumSize(front), SumValue(front), last.sz, last.px);
    SumsSnoc(front, last);
  }

  lemma {:induction false} ExtremePrices(fills: seq<Fill>) returns (least: nat, greatest: nat)
    requires fills != []
    ensures least < |fills| && greatest < |fills|
    ensures forall i :: 0 <= i < |fills| ==> fills[least].px <= fills[i].px <= fills[greatest].px
  {
    least, greatest := 0, 0;
    for i := 1 to |fills|
      invariant least < i && greatest < i
      invariant forall j :: 0 <= j < i ==> fills[least].px <= fills[j].px <= fills[greatest].px
    {
      if fills[i].px < fills[least].px { least := i; }
      if fills[i].px > fills[greatest].px { greatest := i; }
    }
  }

  // For sizes that are not negative and not all zero the leg's price is the
  // size-weighted mean, between its least and its greatest fill price.
  lemma WeightedMean(agg: Aggregation)
    requires Totalled(agg) && NonNegative(agg.fills) && agg.totalSize > 0.0
    ensures agg.weightedAvgPx * agg.totalSize == SumValue(agg.fills)
    ensures exists i, j ::
      0 <= i < |agg.fills| && 0 <= j < |agg.fills| &&
      agg.fills[i].px <= agg.weightedAvgPx <= agg.fills[j].px
  {
    var fills := agg.fills;
    var avg, total := agg.weightedAvgPx, agg.totalSize;
    if |fills| == 1 {
      assert fills == [fills[0]];
      SumsOfOne(fills[0]);
      assert fills[0].px <= avg <= fills[0].px;
    } else {
      var i, j := ExtremePrices(fills);
      ValueBetween(fills, fills[i].px, fills[j].px);
      assert avg == SumValue(fills) / total;
      DivideBounds(fills[i].px, SumValue(fills), fills[j].px, total);
      assert fills[i].px <= avg <= fills[j].px;
    }
  }

  lemma ScaleStrict(k: real, x: real, y: real)
    requires k > 0.0 && x < y
    ensures x * k < y * k
  {
  }

  lemma DivideBounds(lo: real, value: real, hi: real, total: real)
    requires total > 0.0 && lo * total <= value <= hi * total
    ensures lo <= value / total <= hi && value / total * total == value
  {
    var q := value / total;
    assert q * total == value;
    if q < lo {
      ScaleStrict(total, q, lo);
    }
    if hi < q {
      ScaleStrict(total, hi, q);
    }
  }

  // ----- Conservation -----

  function AcceptedFills(log: seq<Accepted>, key: string): seq<Fill> {
    if log == [] then []
    else AcceptedFills(log[..|log| - 1], key) +
         (if log[|log| - 1].key == key then [log[|log| - 1].fill] else [])
  }

  function PublishedFills(log: seq<Publication>, key: string): seq<Fill> {
    if log == [] then []
    else PublishedFills(log[..|log| - 1], key) +
         (if log[|log| - 1].agg.Key() == key then log[|log| - 1].agg.fills else [])
  }

  function PendingFills(s: Proc, key: string): seq<Fill> {
    if key in s.pending then s.pending[key].agg.fills else []
  }

  lemma AcceptedSnoc(log: seq<Accepted>, x: Accepted, key: string)
    ensures AcceptedFills(log + [x], key) == AcceptedFills(log, key) + if x.key == key then [x.fill] else []
  {
    assert (log + [x])[..|log|] == log;
  }

  lemma PublishedSnoc(log: seq<Publication>, p: Publication, key: string)
    ensures PublishedFills(log + [p], key) == PublishedFills(log, key) + if p.agg.Key() == key then p.agg.fills else []
  {
    assert (log + [p])[..|log|] == log;
  }

  // Every accepted fill of a leg key is, in order of acceptance, in exactly one
  // published signal of the key or in its pending leg.
  predicate Conserved(s: Proc, key: string) {
    AcceptedFills(s.accepted, key) == PublishedFills(s.published, key) + PendingFills(s, key)
  }

  // What a step can do to the fills of one key: nothing, accept one into the
  // pending leg, or publish the pending leg.
  predicate AcceptsOne(s: Proc, t: Proc, key: string, fill: Fill) {
    && AcceptedFills(t.accepted, key) == AcceptedFills(s.accepted, key) + [fill]
    && PendingFills(t, key) == PendingFills(s, key) + [fill]
    && PublishedFills(t.published, key) == PublishedFills(s.published, key)
  }

  predicate PublishesLeg(s: Proc, t: Proc, key: string) {
    && AcceptedFills(t.accepted, key) == AcceptedFills(s.accepted, key)
    && PublishedFills(t.published, key) == PublishedFills(s.published, key) + PendingFills(s, key)
    && PendingFills(t, key) == []
  }

  predicate LeavesFills(s: Proc, t: Proc, key: string) {
    && AcceptedFills(t.accepted, key) == AcceptedFills(s.accepted, key)
    && PublishedFills(t.published, key) == PublishedFills(s.published, key)
    && PendingFills(t, key) == PendingFills(s, key)
  }

  ghost predicate Moves(s: Proc, t: Proc, key: string) {
    LeavesFills(s, t, key) || (exists fill :: AcceptsOne(s, t, key, fill)) || PublishesLeg(s, t, key)
  }

  lemma MovesConserve(s: Proc, t: Proc, key: string)
    requires Moves(s, t, key) && Conserved(s, key)
    ensures Conserved(t, key)
  {
  }

  lemma StoreMoves(s: Proc, address: string, fill: Fill, direction: string, key: string)
    ensures var t := StoreFill(s, address, fill, direction);
            if key == OrderKey(address, fill.oid, direction) then AcceptsOne(s, t, key, fill) else LeavesFills(s, t, key)
  {
    AcceptedSnoc(s.accepted, Accepted(OrderKey(address, fill.oid, direction), fill), key);
  }

  lemma RecordMoves(s: Proc, key: string, mark: string, signal: Signal, sent: Aggregation, k: string)
    requires key in s.pending && sent.Key() == key && sent.fills == s.pending[key].agg.fills
    ensures var t := Record(s, key, mark, signal, sent);
            if k == key then PublishesLeg(s, t, k) else LeavesFills(s, t, k)
  {
    PublishedSnoc(s.published, Publication(signal, sent, s.now), k);
  }

  // ----- The invariant -----

  predicate LegInvariant(s: Proc, key: string)
    requires key in s.pending
  {
    var leg := s.pending[key];
    && leg.agg.Key() == key
    && !leg.agg.signalSent
    && leg.firstFillTime <= s.now
    && leg.agg.lastFillTime <= Unix(s.now)
    && Aggregated(leg)
  }

  // The mark outlives the TTL, unless that is over already; a leg pending under
  // the key began after it.
  predicate Marked(s: Proc, p: Publication) {
    var key := p.agg.Key();
    && p.at <= s.now
    && (p.at + DEDUP_TTL < s.now || (key in s.dedup && p.at + DEDUP_TTL <= s.dedup[key]))
    && (key in s.pending ==> p.at + DEDUP_TTL < s.pending[key].firstFillTime)
  }

  // Two signals of one key are more than the TTL apart, unless the mark of the
  // earlier one was forgotten.
  predicate SpacedExcept(log: seq<Publication>, forgotten: set<nat>) {
    forall i, j :: 0 <= i < j < |log| && i !in forgotten && log[i].agg.Key() == log[j].agg.Key() ==>
      log[i].at + DEDUP_TTL < log[j].at
  }

  // A published log entry: the signal was built from the very aggregation that
  // was persisted as sent, and that aggregation is a correct one.
  predicate WellPublished(p: Publication) {
    && p.agg.signalSent && p.agg.updatedAt == p.at
    && BuildSignal(p.agg) == Some(p.signal)
    && Totalled(p.agg)
  }

  // The invariant on legs and signals, when the marks of some signals were forgotten.
  predicate InvExcept(s: Proc, forgotten: set<nat>) {
    && (forall key :: key in s.pending ==> LegInvariant(s, key))
    && (forall i :: 0 <= i < |s.published| ==> WellPublished(s.published[i]))
    && (forall i :: 0 <= i < |s.published| && i !in forgotten ==> Marked(s, s.published[i]))
    && SpacedExcept(s.published, forgotten)
  }

  ghost predicate Inv(s: Proc) {
    InvExcept(s, {}) && forall key: string :: Conserved(s, key)
  }

  lemma QuietKeeps(s: Proc, t: Proc, forgotten: set<nat>)
    requires InvExcept(s, forgotten) && Quiet(s, t)
    ensures InvExcept(t, forgotten)
  {
    forall key | key in t.pending ensures LegInvariant(t, key) {
      assert LegInvariant(s, key);
    }
    forall i | 0 <= i < |t.published| && i !in forgotten ensures Marked(t, t.published[i]) {
      assert Marked(s, s.published[i]);
    }
  }

  lemma TickKeeps(s: Proc, elapsed: nat, forgotten: set<nat>)
    requires InvExcept(s, forgotten)
    ensures InvExcept(Step(s, Tick(elapsed)), forgotten)
  {
    var t := Step(s, Tick(elapsed));
    forall key | key in t.pending ensures LegInvariant(t, key) {
      assert LegInvariant(s, key);
    }
    forall i | 0 <= i < |t.published| && i !in forgotten ensures Marked(t, t.published[i]) {
      assert Marked(s, s.published[i]);
    }
  }

  lemma StoredLeg(s: Proc, address: string, fill: Fill, direction: string)
    requires var key := OrderKey(address, fill.oid, direction);
             (key in s.pending ==> LegInvariant(s, key)) && Accepts(s, key, fill)
    ensures LegInvariant(StoreFill(s, address, fill, direction), OrderKey(address, fill.oid, direction))
  {
    var key := OrderKey(address, fill.oid, direction);
    if key in s.pending {
      AddFillAggregated(s.pending[key], fill, s.now);
    } else {
      NewLegAggregated(address, fill, direction, s.now);
    }
  }

  lemma StoreKeeps(s: Proc, address: string, fill: Fill, direction: string, forgotten: set<nat>)
    requires InvExcept(s, forgotten) && Accepts(s, OrderKey(address, fill.oid, direction), fill)
    ensures InvExcept(StoreFill(s, address, fill, direction), forgotten)
  {
    var t := StoreFill(s, address, fill, direction);
    var key := OrderKey(address, fill.oid, direction);
    assert key in s.pending ==> LegInvariant(s, key);
    StoredLeg(s, address, fill, direction);
    forall k | k in t.pending ensures LegInvariant(t, k) {
      if k != key {
        assert LegInvariant(s, k);
      }
    }
    forall i | 0 <= i < |t.published| && i !in forgotten ensures Marked(t, t.published[i]) {
      // A mark that no longer suppresses the key has expired.
      assert Marked(s, s.published[i]);
    }
  }

  lemma PublishedEntry(s: Proc, key: string, status: string)
    requires key in s.pending && LegInvariant(s, key) && Publishes(s, key, true)
    ensures var t := Publish(s, key, status);
            && t.published[|s.published|].agg.Key() == key
            && Marked(t, t.published[|s.published|]) && WellPublished(t.published[|s.published|])
  {
    var sent := SentRow(s.pending[key].agg, status, s.now);
    assert Totalled(sent);
  }

  lemma PublishKeeps(s: Proc, key: string, status: string, forgotten: set<nat>)
    requires InvExcept(s, forgotten) && Publishes(s, key, true)
    ensures InvExcept(Publish(s, key, status), forgotten)
  {
    var t := Publish(s, key, status);
    var n := |s.published|;
    assert LegInvariant(s, key);
    PublishedEntry(s, key, status);
    forall k | k in t.pending ensures LegInvariant(t, k) {
      assert LegInvariant(s, k);
    }
    forall i | 0 <= i < |t.published|
      ensures WellPublished(t.published[i]) && (i !in forgotten ==> Marked(t, t.published[i]))
    {
      if i < n {
        assert WellPublished(s.published[i]) && (i !in forgotten ==> Marked(s, s.published[i]));
      }
    }
    forall i, j | 0 <= i < j < |t.published| && i !in forgotten && t.published[i].agg.Key() == t.published[j].agg.Key()
      ensures t.published[i].at + DEDUP_TTL < t.published[j].at
    {
      if j == n {
        assert Marked(s, s.published[i]);
      }
    }
  }

  lemma FlushKeeps(s: Proc, i: nat, publishOk: bool, forgotten: set<nat>)
    requires InvExcept(s, forgotten)
    ensures InvExcept(Step(s, FlushAt(i, publishOk)), forgotten)
  {
    if i < |s.flushChan| {
      var req := s.flushChan[i];
      var s1 := s.(flushChan := Without(s.flushChan, i));
      QuietKeeps(s, s1, forgotten);
      if Publishes(s1, req.key, publishOk) {
        PublishKeeps(s1, req.key, req.status, forgotten);
      }
    }
  }

  lemma StepKeeps(s: Proc, e: Event, forgotten: set<nat>)
    requires InvExcept(s, forgotten)
    ensures InvExcept(Step(s, e), forgotten)
  {
    match e
    case FillMsg(address, fill, direction) =>
      FillEffect(s, address, fill, direction);
      if Accepts(s, OrderKey(address, fill.oid, direction), fill) {
        StoreKeeps(s, address, fill, direction, forgotten);
        QuietKeeps(StoreFill(s, address, fill, direction), Step(s, e), forgotten);
      }
    case StatusMsg(address, oid, status, direction) =>
      StatusIsQuiet(s, address, oid, status, direction);
      QuietKeeps(s, Step(s, e), forgotten);
    case FlushAt(i, publishOk) => FlushKeeps(s, i, publishOk, forgotten);
    case TimeoutScan(order) =>
      ScanIsQuiet(s, order);
      QuietKeeps(s, Step(s, e), forgotten);
    case Tick(elapsed) => TickKeeps(s, elapsed, forgotten);
  }

  lemma FlushMoves(s: Proc, i: nat, publishOk: bool, key: string)
    requires forall k :: k in s.pending ==> s.pending[k].agg.Key() == k
    ensures Moves(s, Step(s, FlushAt(i, publishOk)), key)
  {
    if i < |s.flushChan| {
      var req := s.flushChan[i];
      var s1 := s.(flushChan := Without(s.flushChan, i));
      if Publishes(s1, req.key, publishOk) {
        var agg := s.pending[req.key].agg;
        RecordMoves(s1, req.key, agg.Key(), BuildSignal(agg).value, SentRow(agg, req.status, s.now), key);
      }
    }
  }

  lemma QuietMoves(s: Proc, t: Proc, u: Proc, key: string)
    requires Moves(s, t, key) && Quiet(t, u)
    ensures Moves(s, u, key)
  {
    if fill :| AcceptsOne(s, t, key, fill) {
      assert AcceptsOne(s, u, key, fill);
    }
  }

  lemma StepMoves(s: Proc, e: Event, key: string)
    requires forall k :: k in s.pending ==> s.pending[k].agg.Key() == k
    ensures Moves(s, Step(s, e), key)
  {
    match e
    case FillMsg(address, fill, direction) =>
      FillEffect(s, address, fill, direction);
      if Accepts(s, OrderKey(address, fill.oid, direction), fill) {
        StoreMoves(s, address, fill, direction, key);
        QuietMoves(s, StoreFill(s, address, fill, direction), Step(s, e), key);
      }
    case StatusMsg(address, oid, status, direction) => StatusIsQuiet(s, address, oid, status, direction);
    case FlushAt(i, publishOk) => FlushMoves(s, i, publishOk, key);
    case TimeoutScan(order) => ScanIsQuiet(s, order);
    case Tick(elapsed) =>
  }

  lemma LegsUnderTheirKeys(s: Proc, forgotten: set<nat>)
    requires InvExcept(s, forgotten)
    ensures forall k :: k in s.pending ==> s.pending[k].agg.Key() == k
  {
    forall k | k in s.pending ensures s.pending[k].agg.Key() == k {
      assert LegInvariant(s, k);
    }
  }

  lemma StepKeepsInv(s: Proc, e: Event)
    requires Inv(s)
    ensures Inv(Step(s, e))
  {
    StepKeeps(s, e, {});
    LegsUnderTheirKeys(s, {});
    forall key: string ensures Conserved(Step(s, e), key) {
      assert Conserved(s, key);
      StepMoves(s, e, key);
      MovesConserve(s, Step(s, e), key);
    }
  }

  lemma {:induction false} RunKeepsInv(s: Proc, es: seq<Event>)
    requires Inv(s)
    ensures Inv(Run(s, es))
  {
    if es != [] {
      RunKeepsInv(s, es[..|es| - 1]);
      StepKeepsInv(Run(s, es[..|es| - 1]), es[|es| - 1]);
    }
  }

  // ----- Main results over runs from the initial state -----

  lemma Reachable(now: int, es: seq<Event>)
    ensures Inv(Run(Init(now), es))
  {
    RunKeepsInv(Init(now), es);
  }

  // Two signals of one leg key are always more than the dedup TTL apart.
  lemma SignalSpacing(now: int, es: seq<Event>, i: nat, j: nat)
    requires i < j < |Run(Init(now), es).published|
    requires var log := Run(Init(now), es).published; log[i].agg.Key() == log[j].agg.Key()
    ensures var log := Run(Init(now), es).published; log[i].at + DEDUP_TTL < log[j].at
  {
    Reachable(now, es);
  }

  lemma {:induction false} SumsOfConcat(a: seq<Fill>, b: seq<Fill>)
    ensures SumSize(a + b) == SumSize(a) + SumSize(b)
    ensures SumValue(a + b) == SumValue(a) + SumValue(b)
    decreases |b|
  {
    if b == [] {
      assert a + b == a;
    } else {
      var front, last := b[..|b| - 1], b[|b| - 1];
      SumsOfConcat(a, front);
      SumsSnoc(a + front, last);
      SumsSnoc(front, last);
      assert a + b == (a + front) + [last] && b == front + [last];
    }
  }

  function PublishedSize(log: seq<Publication>, key: string): real {
    if log == [] then 0.0
    else PublishedSize(log[..|log| - 1], key) +
         (if log[|log| - 1].agg.Key() == key then log[|log| - 1].signal.size else 0.0)
  }

  function PublishedValue(log: seq<Publication>, key: string): real {
    if log == [] then 0.0
    else PublishedValue(log[..|log| - 1], key) +
         (if log[|log| - 1].agg.Key() == key
          then log[|log| - 1].signal.size * log[|log| - 1].signal.price else 0.0)
  }

  function PendingSize(s: Proc, key: string): real {
    if key in s.pending then s.pending[key].agg.totalSize else 0.0
  }

  function PendingValue(s: Proc, key: string): real {
    if key in s.pending then s.pending[key].agg.totalSize * s.pending[key].agg.weightedAvgPx else 0.0
  }

  lemma LegValue(agg: Aggregation)
    requires Totalled(agg) && NonNegative(agg.fills)
    ensures agg.totalSize * agg.weightedAvgPx == SumValue(agg.fills)
  {
    SumSizeNonNegative(agg.fills);
    if agg.totalSize > 0.0 {
      WeightedMean(agg);
    } else {
      AllZeroValue(agg.fills);
    }
  }

  lemma {:induction false} AllZeroValue(fills: seq<Fill>)
    requires NonNegative(fills) && SumSize(fills) == 0.0
    ensures SumValue(fills) == 0.0
  {
    if fills != [] {
      SumSizeNonNegative(fills[..|fills| - 1]);
      AllZeroValue(fills[..|fills| - 1]);
    }
  }

  lemma NonNegativeParts(a: seq<Fill>, b: seq<Fill>)
    requires NonNegative(a + b)
    ensures NonNegative(a) && NonNegative(b)
  {
    forall i | 0 <= i < |a| ensures a[i].sz >= 0.0 { assert (a + b)[i] == a[i]; }
    forall i | 0 <= i < |b| ensures b[i].sz >= 0.0 { assert (a + b)[|a| + i] == b[i]; }
  }

  lemma {:induction false} PublishedSizes(log: seq<Publication>, key: string)
    requires forall i :: 0 <= i < |log| ==> WellPublished(log[i])
    ensures SumSize(PublishedFills(log, key)) == PublishedSize(log, key)
  {
    if log != [] {
      var front, p := log[..|log| - 1], log[|log| - 1];
      PublishedSizes(front, key);
      assert WellPublished(p);
      SumsOfConcat(PublishedFills(front, key), if p.agg.Key() == key then p.agg.fills else []);
    }
  }

  lemma PublicationValue(p: Publication)
    requires WellPublished(p) && NonNegative(p.agg.fills)
    ensures Worth(p)
  {
    LegValue(p.agg);
  }

  // The entry's signal carries the traded value of its fills.
  predicate Worth(p: Publication) {
    SumValue(p.agg.fills) == p.signal.size * p.signal.price
  }

  lemma {:induction false} PublishedValues(log: seq<Publication>, key: string)
    requires forall i :: 0 <= i < |log| && log[i].agg.Key() == key ==> Worth(log[i])
    ensures SumValue(PublishedFills(log, key)) == PublishedValue(log, key)
  {
    if log != [] {
      var front, p := log[..|log| - 1], log[|log| - 1];
      PublishedValues(front, key);
      SumsOfConcat(PublishedFills(front, key), if p.agg.Key() == key then p.agg.fills else []);
    }
  }

  lemma {:induction false} PublishedParts(log: seq<Publication>, key: string, i: nat)
    requires NonNegative(PublishedFills(log, key))
    requires i < |log| && log[i].agg.Key() == key
    ensures NonNegative(log[i].agg.fills)
  {
    var front, p := log[..|log| - 1], log[|log| - 1];
    var own := if p.agg.Key() == key then p.agg.fills else [];
    assert log == front + [p];
    PublishedSnoc(front, p, key);
    NonNegativeParts(PublishedFills(front, key), own);
    if i < |front| {
      assert front[i] == log[i];
      PublishedParts(front, key, i);
    } else {
      assert own == log[i].agg.fills;
    }
  }

  lemma PendingSums(s: Proc, key: string)
    requires key in s.pending ==> Totalled(s.pending[key].agg)
    ensures SumSize(PendingFills(s, key)) == PendingSize(s, key)
    ensures NonNegative(PendingFills(s, key)) ==> SumValue(PendingFills(s, key)) == PendingValue(s, key)
  {
    if key in s.pending {
      if NonNegative(PendingFills(s, key)) {
        LegValue(s.pending[key].agg);
      }
    }
  }

  lemma PublishedWorth(log: seq<Publication>, key: string)
    requires forall i :: 0 <= i < |log| ==> WellPublished(log[i])
    requires NonNegative(PublishedFills(log, key))
    ensures SumValue(PublishedFills(log, key)) == PublishedValue(log, key)
  {
    forall i | 0 <= i < |log| && log[i].agg.Key() == key ensures Worth(log[i]) {
      PublishedParts(log, key, i);
      PublicationValue(log[i]);
    }
    PublishedValues(log, key);
  }

  lemma AddUp(sent: seq<Fill>, open: seq<Fill>, size: real, value: real, openSize: real, openValue: real)
    requires SumSize(sent) == size && SumSize(open) == openSize
    requires NonNegative(sent) ==> SumValue(sent) == value
    requires NonNegative(open) ==> SumValue(open) == openValue
    ensures SumSize(sent + open) == size + openSize
    ensures NonNegative(sent + open) ==> SumValue(sent + open) == value + openValue
  {
    SumsOfConcat(sent, open);
    if NonNegative(sent + open) {
      NonNegativeParts(sent, open);
    }
  }

  // Per leg key: the sizes (and, for sizes that are not negative, the traded
  // value) of all accepted fills are those of its signals plus its pending leg,
  // fill for fill.
  lemma Conservation(now: int, es: seq<Event>, key: string)
    ensures var s := Run(Init(now), es);
            var fills := AcceptedFills(s.accepted, key);
            && fills == PublishedFills(s.published, key) + PendingFills(s, key)
            && SumSize(fills) == PublishedSize(s.published, key) + PendingSize(s, key)
            && (NonNegative(fills) ==>
                  SumValue(fills) == PublishedValue(s.published, key) + PendingValue(s, key))
  {
    Reachable(now, es);
    var s := Run(Init(now), es);
    assert Conserved(s, key);
    if key in s.pending {
      assert LegInvariant(s, key);
    }
    PendingSums(s, key);
    PublishedSizes(s.published, key);
    var sent, open := PublishedFills(s.published, key), PendingFills(s, key);
    if NonNegative(sent) {
      PublishedWorth(s.published, key);
    }
    AddUp(sent, open, PublishedSize(s.published, key), PublishedValue(s.published, key),
          PendingSize(s, key), PendingValue(s, key));
  }

  // A pending leg leaves only by being published, and it is published whole.
  lemma LegLeavesOnlyByPublication(s: Proc, e: Event, key: string)
    requires key in s.pending && key !in Step(s, e).pending
    ensures e.FlushAt? && e.publishOk && e.index < |s.flushChan| && s.flushChan[e.index].key == key
    ensures |Step(s, e).published| == |s.published| + 1
    ensures Step(s, e).published[|s.published|].agg ==
              SentRow(s.pending[key].agg, s.flushChan[e.index].status, s.now)
  {
    match e
    case FillMsg(address, fill, direction) => FillEffect(s, address, fill, direction);
    case StatusMsg(address, oid, status, direction) => StatusIsQuiet(s, address, oid, status, direction);
    case TimeoutScan(order) => ScanIsQuiet(s, order);
    case _ =>
  }

  // A flush whose publication succeeds takes the leg if and only if its
  // direction has a market.
  lemma FlushSucceedsExactlyOnMappedDirections(s: Proc, i: nat)
    requires Inv(s) && i < |s.flushChan| && s.flushChan[i].key in s.pending
    ensures var key := s.flushChan[i].key;
            key !in Step(s, FlushAt(i, true)).pending <==> s.pending[key].agg.direction in DIRECTIONS
  {
    assert LegInvariant(s, s.flushChan[i].key);
    FlushTakes(s, i);
    SignalIffMapped(s.pending[s.flushChan[i].key].agg);
  }

  lemma FlushTakes(s: Proc, i: nat)
    requires i < |s.flushChan| && s.flushChan[i].key in s.pending
    ensures var key := s.flushChan[i].key;
            key !in Step(s, FlushAt(i, true)).pending <==> Publishes(s, key, true)
  {
  }

  lemma SignalIffMapped(agg: Aggregation)
    requires agg.fills != []
    ensures BuildSignal(agg).Some? <==> agg.direction in DIRECTIONS
  {
    MappedDirections(agg.direction);
  }

  lemma StepKeepsUnmapped(s: Proc, e: Event, key: string)
    requires key in s.pending && Market(s.pending[key].agg.direction).None?
    ensures key in Step(s, e).pending && Step(s, e).pending[key].agg.direction == s.pending[key].agg.direction
  {
    match e
    case FillMsg(address, fill, direction) => FillEffect(s, address, fill, direction);
    case StatusMsg(address, oid, status, direction) => StatusIsQuiet(s, address, oid, status, direction);
    case TimeoutScan(order) => ScanIsQuiet(s, order);
    case _ =>
  }

  // A leg whose direction has no market stays pending through every run.
  lemma {:induction false} UnmappedLegStays(s: Proc, es: seq<Event>, key: string)
    requires key in s.pending && s.pending[key].agg.direction !in DIRECTIONS
    ensures key in Run(s, es).pending && Run(s, es).pending[key].agg.direction == s.pending[key].agg.direction
  {
    if es != [] {
      UnmappedLegStays(s, es[..|es| - 1], key);
      MappedDirections(s.pending[key].agg.direction);
      StepKeepsUnmapped(Run(s, es[..|es| - 1]), es[|es| - 1], key);
    }
  }

  lemma MappedDirections(direction: string)
    ensures Market(direction).Some? <==> direction in DIRECTIONS
  {
    assert DIRECTIONS[0] == "Open Long" && DIRECTIONS[1] == "Open Short";
    assert DIRECTIONS[2] == "Close Long" && DIRECTIONS[3] == "Close Short";
    assert DIRECTIONS[4] == "Buy" && DIRECTIONS[5] == "Sell";
  }

  // Aggregation in every reachable state.
  lemma LegsAreAggregated(now: int, es: seq<Event>, key: string)
    requires key in Run(Init(now), es).pending
    ensures Aggregated(Run(Init(now), es).pending[key])
    ensures Run(Init(now), es).pending[key].agg.Key() == key
  {
    Reachable(now, es);
    assert LegInvariant(Run(Init(now), es), key);
  }

  // ----- Redelivered fills -----

  // A fill whose tid the pending leg holds already is accepted again exactly
  // when that tid is the first fill's and has not been repeated yet.
  lemma RepeatAcceptedIff(s: Proc, key: string, fill: Fill)
    requires Inv(s) && key in s.pending && !Live(s.dedup, key, s.now)
    requires exists i :: 0 <= i < |s.pending[key].agg.fills| && s.pending[key].agg.fills[i].tid == fill.tid
    ensures var fills := s.pending[key].agg.fills;
            Accepts(s, key, fill) <==>
            fill.tid == fills[0].tid && forall k :: 1 <= k < |fills| ==> fills[k].tid != fill.tid
  {
    assert LegInvariant(s, key);
    SeenIff(s.pending[key], fill.tid);
  }

  // A delivered fill is accepted, and stored, exactly when its leg's key bears no
  // mark and the pending leg, if there is one, has no fill after its first with
  // the same tid; otherwise nothing changes at all.
  lemma AcceptedIff(s: Proc, address: string, fill: Fill, direction: string)
    requires Inv(s)
    ensures var key, t := OrderKey(address, fill.oid, direction), Step(s, FillMsg(address, fill, direction));
            if (key in s.dedup && s.now <= s.dedup[key]) ||
               (key in s.pending &&
                exists k :: 1 <= k < |s.pending[key].agg.fills| && s.pending[key].agg.fills[k].tid == fill.tid)
            then t == s
            else t.accepted == s.accepted + [Accepted(key, fill)] && key in t.pending &&
                 t.pending[key].agg.fills == (if key in s.pending then s.pending[key].agg.fills else []) + [fill]
  {
    var key := OrderKey(address, fill.oid, direction);
    if key in s.pending {
      assert LegInvariant(s, key);
      SeenIff(s.pending[key], fill.tid);
    }
    FillEffect(s, address, fill, direction);
  }

  // What an accepted fill leaves: a leg that keeps its identity and the time of its
  // first fill, or begins with it now, is open, and was last updated now; it is
  // persisted as it is, and no other leg changes.
  lemma AcceptedLeg(s: Proc, address: string, fill: Fill, direction: string)
    requires Inv(s) && Step(s, FillMsg(address, fill, direction)).accepted != s.accepted
    ensures var key, t := OrderKey(address, fill.oid, direction), Step(s, FillMsg(address, fill, direction));
            && t.pending.Keys == s.pending.Keys + {key} && t.pending - {key} == s.pending - {key}
            && t.writes == s.writes + [t.pending[key].agg]
            && t.now == s.now && t.dedup == s.dedup && t.published == s.published
            && var leg := t.pending[key];
               && leg.agg.lastFillTime == s.now / 1_000_000_000 && leg.agg.updatedAt == s.now && !leg.agg.signalSent
               && if key in s.pending
                  then var was := s.pending[key];
                       && leg.firstFillTime == was.firstFillTime && leg.agg.orderStatus == was.agg.orderStatus
                       && leg.agg.address == was.agg.address && leg.agg.oid == was.agg.oid
                       && leg.agg.direction == was.agg.direction && leg.seenTids == was.seenTids + {fill.tid}
                  else && leg.firstFillTime == s.now && leg.agg.orderStatus == "open"
                       && leg.agg.address == address && leg.agg.oid == fill.oid && leg.agg.direction == direction
                       && leg.seenTids == {}
  {
    var key := OrderKey(address, fill.oid, direction);
    FillEffect(s, address, fill, direction);
    if key in s.pending {
      assert LegInvariant(s, key);
    }
  }

  lemma SeenIff(leg: Leg, tid: int)
    requires Aggregated(leg)
    ensures tid in leg.seenTids <==> exists k :: 1 <= k < |leg.agg.fills| && leg.agg.fills[k].tid == tid
  {
    var fills, later := leg.agg.fills, leg.agg.fills[1..];
    if tid in leg.seenTids {
      var f :| f in later && f.tid == tid;
      var k :| 0 <= k < |later| && later[k] == f;
      assert fills[k + 1] == f;
    }
    if k :| 1 <= k < |fills| && fills[k].tid == tid {
      assert later[k - 1] == fills[k] && fills[k] in later;
    }
  }

  // Whatever is accepted into a pending leg is counted into its size.
  lemma AcceptedIsCounted(s: Proc, address: string, fill: Fill, direction: string)
    requires var key := OrderKey(address, fill.oid, direction);
             Inv(s) && key in s.pending && Accepts(s, key, fill)
    ensures var key := OrderKey(address, fill.oid, direction);
            var t := HandleFill(s, address, fill, direction);
            && key in t.pending && t.pending[key].agg.fills == s.pending[key].agg.fills + [fill]
            && t.pending[key].agg.totalSize == s.pending[key].agg.totalSize + fill.sz
  {
    var fills := s.pending[OrderKey(address, fill.oid, direction)].agg.fills;
    assert LegInvariant(s, OrderKey(address, fill.oid, direction));
    FillEffect(s, address, fill, direction);
    assert (fills + [fill])[..|fills|] == fills;
  }

  // So the fill that creates a leg, delivered again, doubles the leg's size;
  // delivered a third time it is ignored.
  lemma FirstFillCountsTwice(now: int, a: string, f: Fill, d: string)
    ensures var twice := Run(Init(now), [FillMsg(a, f, d), FillMsg(a, f, d)]);
            var key := OrderKey(a, f.oid, d);
            && key in twice.pending && twice.pending[key].agg.fills == [f, f]
            && twice.pending[key].agg.totalSize == f.sz + f.sz
            && Step(twice, FillMsg(a, f, d)) == twice
  {
    var e, key := FillMsg(a, f, d), OrderKey(a, f.oid, d);
    assert [e, e][..1] == [e] && [e][..0] == [];
    assert Run(Init(now), [e]) == Step(Init(now), e);
    assert Run(Init(now), [e, e]) == Step(Step(Init(now), e), e);
    Reachable(now, [e]);
    Reachable(now, [e, e]);
    var once, twice := Step(Init(now), e), Run(Init(now), [e, e]);
    assert once.pending[key].agg.fills == [f];
    AcceptedIsCounted(once, a, f, d);
    assert LegInvariant(twice, key);
    SeenIff(twice.pending[key], f.tid);
  }
}
