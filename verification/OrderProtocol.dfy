// The order-leg protocol of the order processor as a timed state machine:
// what one handled message, one flush, one timeout scan does to the pending
// legs, the status tracker, the dedup cache, the flush channel and the log of
// published signals.  Clock readings are nanoseconds; a fill's own stamp is
// milliseconds; LastFillTime is seconds, as in the source.
module OrderProtocol {
  import opened Basics
  import opened Keys
  import opened Filters

  const MILLI: int := 1_000_000
  const SECOND: int := 1_000_000_000
  const DEDUP_TTL: int := 1_800_000_000_000    // 30 min
  const TRACKER_TTL: int := 600_000_000_000    // 10 min
  const LEG_TIMEOUT: int := 300_000_000_000    // 5 min
  const FLUSH_CAPACITY: nat := 1000

  function Millis(t: int): int { t / MILLI }

  function Unix(t: int): int { t / SECOND }

  datatype Fill = Fill(
    coin: string, px: real, sz: real, dir: string, time: int,
    startPosition: real, oid: int, tid: int)

  datatype Aggregation = Aggregation(
    address: string, oid: int, direction: string,
    fills: seq<Fill>, totalSize: real, weightedAvgPx: real,
    orderStatus: string, lastFillTime: int, signalSent: bool, updatedAt: int)
  {
    function Key(): string { OrderKey(address, oid, direction) }
  }

  datatype Leg = Leg(agg: Aggregation, seenTids: set<int>, firstFillTime: int)

  datatype Trigger = ByStatus | ByTimeout

  datatype FlushReq = FlushReq(key: string, trigger: Trigger, status: string)

  datatype Tracked = Tracked(status: string, expires: int)

  datatype Signal = Signal(
    address: string, assetType: string, direction: string, side: string,
    size: real, price: real, timestamp: int)

  // One entry of the published log: the signal, the aggregation persisted as
  // sent with it, and when it was sent.
  datatype Publication = Publication(signal: Signal, agg: Aggregation, at: int)

  datatype Accepted = Accepted(key: string, fill: Fill)

  datatype Proc = Proc(
    now: int,
    pending: map<string, Leg>,
    tracker: map<string, Tracked>,
    dedup: map<string, int>,
    flushChan: seq<FlushReq>,
    dropped: seq<FlushReq>,
    published: seq<Publication>,
    accepted: seq<Accepted>,
    writes: seq<Aggregation>)

  function Init(now: int): Proc {
    Proc(now, map[], map[], map[], [], [], [], [], [])
  }

  // ----- TTL caches: an entry is found up to and including its expiry -----

  predicate Live(dedup: map<string, int>, key: string, now: int) {
    key in dedup && now <= dedup[key]
  }

  function GetStatus(tracker: map<string, Tracked>, key: string, now: int): Option<string> {
    if key in tracker && now <= tracker[key].expires then Some(tracker[key].status) else None
  }

  // ----- Aggregation -----

  function SumSize(fills: seq<Fill>): real {
    if fills == [] then 0.0 else SumSize(fills[..|fills| - 1]) + fills[|fills| - 1].sz
  }

  function SumValue(fills: seq<Fill>): real {
    if fills == [] then 0.0
    else SumValue(fills[..|fills| - 1]) + fills[|fills| - 1].sz * fills[|fills| - 1].px
  }

  function WeightedAvg(fills: seq<Fill>): real {
    if SumSize(fills) == 0.0 then 0.0 else SumValue(fills) / SumSize(fills)
  }

  function NewLeg(address: string, fill: Fill, direction: string, now: int): Leg {
    Leg(Aggregation(address, fill.oid, direction, [fill], fill.sz, fill.px, "open",
                    Unix(now), false, now),
        {}, now)
  }

  function AddFill(leg: Leg, fill: Fill, now: int): Leg {
    var fills := leg.agg.fills + [fill];
    leg.(agg := leg.agg.(fills := fills, totalSize := SumSize(fills),
                         weightedAvgPx := WeightedAvg(fills),
                         lastFillTime := Unix(now), updatedAt := now),
         seenTids := leg.seenTids + {fill.tid})
  }

  // ----- Flush requests -----

  function Request(s: Proc, req: FlushReq): Proc {
    if |s.flushChan| < FLUSH_CAPACITY then s.(flushChan := s.flushChan + [req])
    else s.(dropped := s.dropped + [req])
  }

  function Untrack(s: Proc, address: string, oid: int): Proc {
    s.(tracker := s.tracker - {TrackKey(address, oid)})
  }

  // ----- One handled fill -----

  predicate Accepts(s: Proc, key: string, fill: Fill) {
    && !Live(s.dedup, key, s.now)
    && (key in s.pending ==>
          !s.pending[key].agg.signalSent && fill.tid !in s.pending[key].seenTids)
  }

  function StoreFill(s: Proc, address: string, fill: Fill, direction: string): Proc {
    var key := OrderKey(address, fill.oid, direction);
    var leg := if key in s.pending then AddFill(s.pending[key], fill, s.now)
               else NewLeg(address, fill, direction, s.now);
    s.(pending := s.pending[key := leg],
       accepted := s.accepted + [Accepted(key, fill)],
       writes := s.writes + [leg.agg])
  }

  function HandleFill(s: Proc, address: string, fill: Fill, direction: string): Proc {
    var key := OrderKey(address, fill.oid, direction);
    if !Accepts(s, key, fill) then s
    else
      var s1 := StoreFill(s, address, fill, direction);
      var marked := GetStatus(s.tracker, TrackKey(address, fill.oid), s.now);
      if marked.Some? && marked.value != ""
      then Untrack(Request(s1, FlushReq(key, ByStatus, marked.value)), address, fill.oid)
      else s1
  }

  // ----- One handled order status -----

  const DIRECTIONS: seq<string> :=
    ["Open Long", "Open Short", "Close Long", "Close Short", "Buy", "Sell"]

  function Notify(s: Proc, address: string, oid: int, status: string, dirs: seq<string>): Proc
    decreases |dirs|
  {
    if dirs == [] then s
    else
      var key := OrderKey(address, oid, dirs[0]);
      var s1 := if key in s.pending
                then Untrack(Request(s, FlushReq(key, ByStatus, status)), address, oid)
                else s;
      Notify(s1, address, oid, status, dirs[1..])
  }

  function Directions(direction: string): seq<string> {
    if direction == "" then DIRECTIONS else [direction]
  }

  predicate NonTerminal(status: string) {
    status == "open" || status == "triggered"
  }

  function Mark(s: Proc, address: string, oid: int, status: string): Proc {
    s.(tracker := s.tracker[TrackKey(address, oid) := Tracked(status, s.now + TRACKER_TTL)])
  }

  function HandleStatus(s: Proc, address: string, oid: int, status: string, direction: string): Proc {
    if NonTerminal(status) then s
    else Notify(Mark(s, address, oid, status), address, oid, status, Directions(direction))
  }

  // ----- One flush -----

  function Market(direction: string): Option<(string, string, string)> {
    match direction
    case "Open Long" => Some(("futures", "open", "LONG"))
    case "Open Short" => Some(("futures", "open", "SHORT"))
    case "Close Long" => Some(("futures", "close", "LONG"))
    case "Close Short" => Some(("futures", "close", "SHORT"))
    case "Buy" => Some(("spot", "open", "LONG"))
    case "Sell" => Some(("spot", "close", "LONG"))
    case _ => None
  }

  function BuildSignal(agg: Aggregation): Option<Signal> {
    var market := Market(agg.direction);
    if agg.fills == [] || market.None? then None
    else Some(Signal(agg.address, market.value.0, market.value.1, market.value.2,
                     agg.totalSize, agg.weightedAvgPx, agg.fills[0].time))
  }

  predicate Publishes(s: Proc, key: string, publishOk: bool) {
    && key in s.pending && !s.pending[key].agg.signalSent
    && BuildSignal(s.pending[key].agg).Some? && publishOk
  }

  function SentRow(agg: Aggregation, status: string, now: int): Aggregation {
    agg.(signalSent := true, orderStatus := status, updatedAt := now)
  }

  // A signal goes out: it is logged, marked, persisted as sent, and its leg is gone.
  function Record(s: Proc, key: string, mark: string, signal: Signal, sent: Aggregation): Proc {
    s.(published := s.published + [Publication(signal, sent, s.now)],
       dedup := s.dedup[mark := s.now + DEDUP_TTL],
       writes := s.writes + [sent],
       pending := s.pending - {key})
  }

  function Publish(s: Proc, key: string, status: string): Proc
    requires Publishes(s, key, true)
  {
    var agg := s.pending[key].agg;
    Record(s, key, agg.Key(), BuildSignal(agg).value, SentRow(agg, status, s.now))
  }

  function FlushOrder(s: Proc, key: string, status: string, publishOk: bool): Proc {
    if Publishes(s, key, publishOk) then Publish(s, key, status) else s
  }

  // ----- Timeout scan, visiting the pending legs in some order -----

  predicate TimedOut(s: Proc, key: string) {
    key in s.pending && !s.pending[key].agg.signalSent &&
    s.pending[key].firstFillTime < s.now - LEG_TIMEOUT
  }

  function Visit(s: Proc, key: string): Proc {
    if TimedOut(s, key) then Request(s, FlushReq(key, ByTimeout, "filled")) else s
  }

  function Scan(s: Proc, order: seq<string>): Proc
    decreases |order|
  {
    if order == [] then s else Scan(Visit(s, order[0]), order[1..])
  }

  // ----- Events and runs -----

  datatype Event =
    | FillMsg(address: string, fill: Fill, direction: string)
    | StatusMsg(address: string, oid: int, status: string, direction: string)
    | FlushAt(index: nat, publishOk: bool)
    | TimeoutScan(order: seq<string>)
    | Tick(elapsed: nat)

  function Step(s: Proc, e: Event): Proc {
    match e
    case FillMsg(address, fill, direction) => HandleFill(s, address, fill, direction)
    case StatusMsg(address, oid, status, direction) => HandleStatus(s, address, oid, status, direction)
    case FlushAt(i, publishOk) =>
      // The channel feeds a pool of workers, so any waiting request may run next.
      if i < |s.flushChan|
      then FlushOrder(s.(flushChan := Without(s.flushChan, i)),
                      s.flushChan[i].key, s.flushChan[i].status, publishOk)
      else s
    case TimeoutScan(order) => Scan(s, order)
    case Tick(elapsed) => s.(now := s.now + elapsed)
  }

  function Run(s: Proc, es: seq<Event>): Proc {
    if es == [] then s else Step(Run(s, es[..|es| - 1]), es[|es| - 1])
  }

  lemma RunNext(s: Proc, es: seq<Event>, e: Event)
    ensures Run(s, es + [e]) == Step(Run(s, es), e)
  {
    assert (es + [e])[..|es|] == es;
  }

  lemma {:induction false} RunParts(s: Proc, a: seq<Event>, b: seq<Event>)
    ensures Run(s, a + b) == Run(Run(s, a), b)
    decreases |b|
  {
    if b == [] {
      assert a + b == a;
    } else {
      assert (a + b)[..|a + b| - 1] == a + b[..|b| - 1];
      RunParts(s, a, b[..|b| - 1]);
    }
  }

  // ----- Frames: what each step leaves alone -----

  // Nothing but the tracker and the flush channel moved.
  predicate Quiet(s: Proc, t: Proc) {
    && t.now == s.now && t.pending == s.pending && t.dedup == s.dedup
    && t.published == s.published && t.accepted == s.accepted && t.writes == s.writes
  }

  lemma NotifyIsQuiet(s: Proc, address: string, oid: int, status: string, dirs: seq<string>)
    ensures Quiet(s, Notify(s, address, oid, status, dirs))
    decreases |dirs|
  {
    if dirs != [] {
      var key := OrderKey(address, oid, dirs[0]);
      var s1 := if key in s.pending
                then Untrack(Request(s, FlushReq(key, ByStatus, status)), address, oid) else s;
      NotifyIsQuiet(s1, address, oid, status, dirs[1..]);
    }
  }

  lemma StatusIsQuiet(s: Proc, address: string, oid: int, status: string, direction: string)
    ensures Quiet(s, HandleStatus(s, address, oid, status, direction))
  {
    if !NonTerminal(status) {
      NotifyIsQuiet(Mark(s, address, oid, status), address, oid, status, Directions(direction));
    }
  }

  lemma ScanIsQuiet(s: Proc, order: seq<string>)
    ensures Quiet(s, Scan(s, order)) && Scan(s, order).tracker == s.tracker
    decreases |order|
  {
    if order != [] {
      ScanIsQuiet(Visit(s, order[0]), order[1..]);
    }
  }

  // A handled fill either changes nothing or stores the fill in its leg.
  lemma FillEffect(s: Proc, address: string, fill: Fill, direction: string)
    ensures var key := OrderKey(address, fill.oid, direction);
            var t := HandleFill(s, address, fill, direction);
            if Accepts(s, key, fill) then Quiet(StoreFill(s, address, fill, direction), t) else t == s
  {
  }
}
