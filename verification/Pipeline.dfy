// The whole path of a fill: age filter and dedup check on arrival, the message
// queue with its synchronous fallback, the order processor, the persisted rows,
// the cleaner, and a crash followed by a reload of the dedup cache.
module Pipeline {
  import opened Keys
  import opened OrderProtocol

  const MAX_FILL_AGE: int := 1_800_000          // 30 min, in milliseconds
  const ROW_RETENTION: int := 7_200_000_000_000 // 2 h
  const QUEUE_CAPACITY: nat := 10_000

  datatype Queued = Queued(msg: Event, at: int)

  datatype RowId = RowId(address: string, oid: int, direction: string)

  function Id(row: Aggregation): RowId {
    RowId(row.address, row.oid, row.direction)
  }

  // applied: how many of the rows handed to the batch writer it has dealt with;
  // stored: the positions of those the database accepted;
  // sentRow: for each published signal, the position of its sent row;
  // lost: signals whose key a restart left without a mark while a fill of
  // theirs could still pass the age filter;
  // lag: by how much a dedup check may come after the age filter's clock reading;
  // started: when the process began.
  datatype Pipe = Pipe(
    proc: Proc, queue: seq<Queued>, db: map<RowId, Aggregation>,
    applied: nat, stored: set<nat>, sentRow: seq<nat>, lost: set<nat>, lag: nat, started: int)

  function Start(now: int, lag: nat): Pipe {
    Pipe(Init(now), [], map[], 0, {}, [], {}, lag, now)
  }

  datatype PipeEvent =
    | OfferFill(address: string, fill: Fill, direction: string, filteredAt: int)
    | OfferStatus(address: string, oid: int, status: string)
    | HandleNext
    | Internal(event: Event)
    | WriteNext(ok: bool)
    | Clean
    | Restart(downtime: nat, loadOk: bool)

  predicate TooOld(now: int, fill: Fill) {
    Millis(now) - fill.time > MAX_FILL_AGE
  }

  predicate AllStale(fills: seq<Fill>, now: int) {
    forall i :: 0 <= i < |fills| ==> TooOld(now, fills[i])
  }

  function Advance(p: Pipe, e: Event): Pipe {
    var proc := Step(p.proc, e);
    p.(proc := proc,
       sentRow := if |proc.published| > |p.proc.published|
                  then p.sentRow + [|p.proc.writes|] else p.sentRow)
  }

  function Enqueue(p: Pipe, msg: Event): Pipe {
    if |p.queue| < QUEUE_CAPACITY
    then p.(queue := p.queue + [Queued(msg, p.proc.now)])
    else Advance(p, msg)
  }

  // What one fill of one direction meets in handleWsOrderFills: the age filter
  // at its message's clock reading, the dedup check at its own.
  function Offer(p: Pipe, address: string, fill: Fill, direction: string, filteredAt: int): Pipe {
    if TooOld(filteredAt, fill) || Live(p.proc.dedup, OrderKey(address, fill.oid, direction), p.proc.now)
    then p
    else Enqueue(p, FillMsg(address, fill, direction))
  }

  function Write(p: Pipe, ok: bool): Pipe {
    if p.applied < |p.proc.writes| then
      var row := p.proc.writes[p.applied];
      p.(db := if ok then p.db[Id(row) := row] else p.db,
         stored := if ok then p.stored + {p.applied} else p.stored,
         applied := p.applied + 1)
    else p
  }

  predicate Expired(row: Aggregation, now: int) {
    row.updatedAt < Unix(now - ROW_RETENTION) * SECOND
  }

  predicate Reloaded(row: Aggregation, now: int) {
    row.signalSent && row.lastFillTime >= Unix(now - DEDUP_TTL)
  }

  function SentKeysSince(db: map<RowId, Aggregation>, now: int): set<string> {
    set id | id in db && Reloaded(db[id], now) :: db[id].Key()
  }

  // The dedup cache as LoadFromDB rebuilds it.
  function LoadFromDB(db: map<RowId, Aggregation>, now: int): map<string, int> {
    map key | key in SentKeysSince(db, now) :: now + DEDUP_TTL
  }

  // The marks a restart at this time begins with.
  function Reloads(p: Pipe, now: int, loadOk: bool): map<string, int> {
    if loadOk then LoadFromDB(p.db, now) else map[]
  }

  function CrashAndReload(p: Pipe, downtime: nat, loadOk: bool): Pipe {
    var now := p.proc.now + downtime;
    p.(proc := p.proc.(now := now, pending := map[], tracker := map[], flushChan := [],
                       dedup := Reloads(p, now, loadOk)),
       queue := [],
       applied := |p.proc.writes|,
       started := now,
       lost := p.lost + Exposed(p, now, loadOk))
  }

  // The signals whose key a restart at this time leaves without a mark while a
  // fill of theirs can still pass the age filter.
  function Exposed(p: Pipe, now: int, loadOk: bool): set<nat> {
    set i | 0 <= i < |p.proc.published| && p.proc.published[i].agg.Key() !in Reloads(p, now, loadOk) &&
            !AllStale(p.proc.published[i].agg.fills, now)
  }

  function PipeStep(p: Pipe, e: PipeEvent): Pipe {
    match e
    case OfferFill(address, fill, direction, filteredAt) => Offer(p, address, fill, direction, filteredAt)
    case OfferStatus(address, oid, status) => Enqueue(p, StatusMsg(address, oid, status, ""))
    case HandleNext =>
      if p.queue == [] then p else Advance(p.(queue := p.queue[1..]), p.queue[0].msg)
    case Internal(event) =>
      if event.FillMsg? || event.StatusMsg? then p else Advance(p, event)
    case WriteNext(ok) => Write(p, ok)
    case Clean => p.(db := map id | id in p.db && !Expired(p.db[id], p.proc.now) :: p.db[id])
    case Restart(downtime, loadOk) => CrashAndReload(p, downtime, loadOk)
  }

  function PipeRun(p: Pipe, es: seq<PipeEvent>): Pipe {
    if es == [] then p else PipeStep(PipeRun(p, es[..|es| - 1]), es[|es| - 1])
  }

  // The fill was stamped early enough that a mark set at this time or later
  // outlives it.
  predicate StampedBy(fill: Fill, now: int, lag: nat) {
    fill.time < Millis(now + 1 - lag)
  }

  // The earliest reading of an age filter whose dedup check is still to come.
  function Horizon(p: Pipe): int {
    if p.proc.now - p.lag < p.started then p.started else p.proc.now - p.lag
  }

  // What the environment is trusted with: a fill's dedup check follows the age
  // filter's clock reading in the same process and within the lag, the exchange stamped the fill early
  // enough for that, and no message waits longer than the dedup TTL.
  datatype Trust = ChecksFollow | StampsAreEarly | MessagesMove

  predicate Meets(p: Pipe, e: PipeEvent, trust: Trust) {
    match trust
    case ChecksFollow => e.OfferFill? ==> Horizon(p) <= e.filteredAt
    case StampsAreEarly => e.OfferFill? ==> StampedBy(e.fill, p.proc.now, p.lag)
    case MessagesMove => e.HandleNext? && p.queue != [] ==> p.proc.now <= p.queue[0].at + DEDUP_TTL
  }

  predicate MeetsRun(p: Pipe, es: seq<PipeEvent>, trust: Trust) {
    es == [] ||
    (MeetsRun(p, es[..|es| - 1], trust) && Meets(PipeRun(p, es[..|es| - 1]), es[|es| - 1], trust))
  }

  predicate Timely(p: Pipe, e: PipeEvent) {
    Meets(p, e, ChecksFollow) && Meets(p, e, StampsAreEarly) && Meets(p, e, MessagesMove)
  }

  predicate TimelyRun(p: Pipe, es: seq<PipeEvent>) {
    es == [] ||
    (TimelyRun(p, es[..|es| - 1]) && Timely(PipeRun(p, es[..|es| - 1]), es[|es| - 1]))
  }

  lemma {:induction false} MeetsConcat(p: Pipe, a: seq<PipeEvent>, b: seq<PipeEvent>, trust: Trust)
    ensures MeetsRun(p, a + b, trust) <==> MeetsRun(p, a, trust) && MeetsRun(PipeRun(p, a), b, trust)
    decreases |b|
  {
    if b == [] {
      assert a + b == a;
    } else {
      var front, last := b[..|b| - 1], b[|b| - 1];
      assert (a + b)[..|a + b| - 1] == a + front && (a + b)[|a + b| - 1] == last;
      MeetsConcat(p, a, front, trust);
      RunConcat(p, a, front);
    }
  }

  // A run is timely when it meets every trust throughout.
  lemma {:induction false} TimelyIff(p: Pipe, es: seq<PipeEvent>)
    ensures TimelyRun(p, es) <==>
            MeetsRun(p, es, ChecksFollow) && MeetsRun(p, es, StampsAreEarly) && MeetsRun(p, es, MessagesMove)
  {
    if es != [] {
      TimelyIff(p, es[..|es| - 1]);
    }
  }

  // ----- Runs in parts -----

  lemma {:induction false} RunConcat(p: Pipe, a: seq<PipeEvent>, b: seq<PipeEvent>)
    ensures PipeRun(p, a + b) == PipeRun(PipeRun(p, a), b)
    decreases |b|
  {
    if b == [] {
      assert a + b == a;
    } else {
      assert (a + b)[..|a + b| - 1] == a + b[..|b| - 1];
      RunConcat(p, a, b[..|b| - 1]);
    }
  }

  lemma RunSnoc(p: Pipe, es: seq<PipeEvent>, e: PipeEvent)
    ensures PipeRun(p, es + [e]) == PipeStep(PipeRun(p, es), e)
  {
    assert (es + [e])[..|es|] == es;
  }

  lemma RunOne(p: Pipe, e: PipeEvent)
    ensures PipeRun(p, [e]) == PipeStep(p, e)
  {
    RunSnoc(p, [], e);
    assert [] + [e] == [e];
  }

  lemma RunTwo(p: Pipe, e: PipeEvent, f: PipeEvent)
    ensures PipeRun(p, [e, f]) == PipeStep(PipeStep(p, e), f)
  {
    RunOne(p, e);
    RunSnoc(p, [e], f);
    assert [e] + [f] == [e, f];
  }
}
