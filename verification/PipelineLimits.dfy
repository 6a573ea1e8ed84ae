// Why each assumption and each exception of replay safety is needed: outside
// any one of them there is a run that publishes a fill twice.
module PipelineLimits {
  import opened Basics
  import opened Keys
  import opened Filters
  import opened OrderProtocol
  import opened Pipeline
  import opened FlushRequests

  // Nothing waits, nothing is pending.
  predicate Idle(p: Pipe) {
    p.queue == [] && p.proc.pending == map[] && p.proc.flushChan == []
  }

  // The terminal status of an order overtakes its only fill.
  function Overtaken(address: string, fill: Fill, direction: string, at: int): seq<PipeEvent> {
    [OfferStatus(address, fill.oid, "filled"), HandleNext] + [OfferFill(address, fill, direction, at), HandleNext]
  }

  function Alone(p: Pipe, address: string, fill: Fill, direction: string): Leg {
    NewLeg(address, fill, direction, p.proc.now)
  }

  // It passes the age filter at the given reading and the dedup check now.
  predicate Fresh(p: Pipe, address: string, fill: Fill, direction: string, at: int) {
    !TooOld(at, fill) && !Live(p.proc.dedup, OrderKey(address, fill.oid, direction), p.proc.now)
  }

  // The status waits in the tracker for the fill.
  lemma StatusArrives(p: Pipe, address: string, oid: int, status: string)
    requires Idle(p) && !NonTerminal(status)
    ensures PipeRun(p, [OfferStatus(address, oid, status), HandleNext]) ==
            p.(proc := Mark(p.proc, address, oid, status))
  {
    RunTwo(p, OfferStatus(address, oid, status), HandleNext);
    NobodyToNotify(Mark(p.proc, address, oid, status), address, oid, status, Directions(""));
    assert (p.queue + [Queued(StatusMsg(address, oid, status, ""), p.proc.now)])[1..] == p.queue;
  }

  lemma StatusFirst(p: Pipe, address: string, oid: int)
    requires Idle(p)
    ensures PipeRun(p, [OfferStatus(address, oid, "filled"), HandleNext]) ==
            p.(proc := Mark(p.proc, address, oid, "filled"))
  {
    StatusArrives(p, address, oid, "filled");
  }

  lemma FillSecond(p: Pipe, address: string, fill: Fill, direction: string, at: int)
    requires Idle(p) && Fresh(p, address, fill, direction, at)
    requires GetStatus(p.proc.tracker, TrackKey(address, fill.oid), p.proc.now) == Some("filled")
    ensures LegRequested(p, PipeRun(p, [OfferFill(address, fill, direction, at), HandleNext]), address, fill, direction)
  {
    RunTwo(p, OfferFill(address, fill, direction, at), HandleNext);
  }

  predicate LegRequested(p: Pipe, q: Pipe, address: string, fill: Fill, direction: string) {
    var key := OrderKey(address, fill.oid, direction);
    && q.queue == [] && q.proc.now == p.proc.now && q.proc.dedup == p.proc.dedup
    && q.proc.pending == map[key := Alone(p, address, fill, direction)]
    && q.proc.flushChan == [FlushReq(key, ByStatus, "filled")]
    && q.proc.published == p.proc.published
    && |q.proc.writes| == |p.proc.writes| + 1 && q.sentRow == p.sentRow
  }

  // After it the fill is a leg of its own, with its flush requested.
  lemma OvertakenFill(p: Pipe, address: string, fill: Fill, direction: string, at: int)
    requires Idle(p) && Fresh(p, address, fill, direction, at)
    ensures LegRequested(p, PipeRun(p, Overtaken(address, fill, direction, at)), address, fill, direction)
  {
    var mid := p.(proc := Mark(p.proc, address, fill.oid, "filled"));
    RunConcat(p, [OfferStatus(address, fill.oid, "filled"), HandleNext],
              [OfferFill(address, fill, direction, at), HandleNext]);
    StatusFirst(p, address, fill.oid);
    FillSecond(mid, address, fill, direction, at);
  }

  // Flushing the only pending leg of a tradeable direction publishes it.
  lemma FlushOnly(p: Pipe, leg: Leg, req: FlushReq)
    requires p.proc.pending == map[leg.agg.Key() := leg] && p.proc.flushChan == [req]
    requires req.key == leg.agg.Key() && !leg.agg.signalSent && BuildSignal(leg.agg).Some?
    ensures var q := PipeStep(p, Internal(FlushAt(0, true)));
            var sent := SentRow(leg.agg, req.status, p.proc.now);
            && q.queue == p.queue && q.proc.now == p.proc.now
            && q.proc.pending == map[] && q.proc.flushChan == []
            && q.proc.dedup == p.proc.dedup[req.key := p.proc.now + DEDUP_TTL]
            && q.proc.published ==
               p.proc.published + [Publication(BuildSignal(leg.agg).value, sent, p.proc.now)]
            && |q.proc.writes| == |p.proc.writes| + 1 && q.sentRow == p.sentRow + [|p.proc.writes|]
  {
    assert Without([req], 0) == [];
    assert SentRow(leg.agg, req.status, p.proc.now).Key() == req.key;
  }

  function Cycle(address: string, fill: Fill, direction: string, at: int): seq<PipeEvent> {
    Overtaken(address, fill, direction, at) + [Internal(FlushAt(0, true))]
  }

  predicate PublishedAlone(pub: Publication, address: string, fill: Fill, direction: string) {
    pub.agg.Key() == OrderKey(address, fill.oid, direction) && pub.agg.fills == [fill]
  }

  predicate OneMoreSignal(p: Pipe, q: Pipe, address: string, fill: Fill, direction: string) {
    && Idle(q) && q.proc.now == p.proc.now
    && q.proc.dedup == p.proc.dedup[OrderKey(address, fill.oid, direction) := p.proc.now + DEDUP_TTL]
    && |q.proc.published| == |p.proc.published| + 1
    && q.proc.published[..|p.proc.published|] == p.proc.published
    && PublishedAlone(q.proc.published[|p.proc.published|], address, fill, direction)
    && q.proc.published[|p.proc.published|].at == p.proc.now
    && |q.proc.writes| == |p.proc.writes| + 2 && q.sentRow == p.sentRow + [|p.proc.writes| + 1]
    && TableUntouched(p, q)
  }

  // A fresh fill whose status came first is published alone, once, and leaves
  // two rows to write, the second one its sent row.
  lemma CyclePublishes(p: Pipe, address: string, fill: Fill, direction: string, at: int)
    requires Idle(p) && Fresh(p, address, fill, direction, at) && Market(direction).Some?
    ensures OneMoreSignal(p, PipeRun(p, Cycle(address, fill, direction, at)), address, fill, direction)
  {
    OvertakenFill(p, address, fill, direction, at);
    var mid := PipeRun(p, Overtaken(address, fill, direction, at));
    RunSnoc(p, Overtaken(address, fill, direction, at), Internal(FlushAt(0, true)));
    NothingWritten(p, Cycle(address, fill, direction, at));
    AloneIsSellable(p, address, fill, direction);
    FlushAddsSignal(p, mid, Alone(p, address, fill, direction), mid.proc.flushChan[0], address, fill, direction);
  }

  lemma AloneIsSellable(p: Pipe, address: string, fill: Fill, direction: string)
    requires Market(direction).Some?
    ensures var agg := Alone(p, address, fill, direction).agg;
            && BuildSignal(agg).Some? && !agg.signalSent && agg.fills == [fill]
            && agg.Key() == OrderKey(address, fill.oid, direction)
  {
  }

  lemma FlushAddsSignal(p: Pipe, mid: Pipe, leg: Leg, req: FlushReq, address: string, fill: Fill, direction: string)
    requires mid.proc.pending == map[leg.agg.Key() := leg] && mid.proc.flushChan == [req] && mid.queue == []
    requires req.key == leg.agg.Key() == OrderKey(address, fill.oid, direction) && leg.agg.fills == [fill]
    requires !leg.agg.signalSent && BuildSignal(leg.agg).Some?
    requires mid.proc.now == p.proc.now && mid.proc.dedup == p.proc.dedup && mid.proc.published == p.proc.published
    requires |mid.proc.writes| == |p.proc.writes| + 1 && mid.sentRow == p.sentRow
    requires TableUntouched(p, PipeStep(mid, Internal(FlushAt(0, true))))
    ensures OneMoreSignal(p, PipeStep(mid, Internal(FlushAt(0, true))), address, fill, direction)
  {
    FlushOnly(mid, leg, req);
    assert SentRow(leg.agg, req.status, mid.proc.now).Key() == leg.agg.Key();
  }

  predicate TableUntouched(p: Pipe, q: Pipe) {
    q.db == p.db && q.applied == p.applied && q.stored == p.stored && q.lag == p.lag && q.started == p.started
  }

  // Only writes, the cleaner and restarts touch the table.
  lemma {:induction false} NothingWritten(p: Pipe, es: seq<PipeEvent>)
    requires forall i :: 0 <= i < |es| ==> !es[i].WriteNext? && !es[i].Clean? && !es[i].Restart?
    ensures TableUntouched(p, PipeRun(p, es))
  {
    if es != [] {
      NothingWritten(p, es[..|es| - 1]);
    }
  }

  // ----- Runs that keep to the trusts -----

  // No time passes and no process ends.
  predicate Instant(e: PipeEvent) {
    !e.Restart? && !(e.Internal? && e.event.Tick?)
  }

  // Nothing has waited longer than the TTL.
  predicate Moving(p: Pipe) {
    forall k :: 0 <= k < |p.queue| ==> p.proc.now <= p.queue[k].at + DEDUP_TTL
  }

  lemma StepNow(s: Proc, e: Event)
    requires !e.Tick?
    ensures Step(s, e).now == s.now
  {
    match e
    case FillMsg(address, fill, direction) => FillEffect(s, address, fill, direction);
    case StatusMsg(address, oid, status, direction) => StatusIsQuiet(s, address, oid, status, direction);
    case TimeoutScan(order) => ScanIsQuiet(s, order);
    case _ =>
  }

  lemma InstantStep(p: Pipe, e: PipeEvent)
    requires Instant(e) && Moving(p) && forall k :: 0 <= k < |p.queue| ==> !p.queue[k].msg.Tick?
    ensures var q := PipeStep(p, e);
            && q.proc.now == p.proc.now && q.lag == p.lag && q.started == p.started && Moving(q)
            && forall k :: 0 <= k < |q.queue| ==> !q.queue[k].msg.Tick?
  {
    match e
    case OfferFill(address, fill, direction, _) => StepNow(p.proc, FillMsg(address, fill, direction));
    case OfferStatus(address, oid, status) => StepNow(p.proc, StatusMsg(address, oid, status, ""));
    case HandleNext => if p.queue != [] { StepNow(p.proc, p.queue[0].msg); }
    case Internal(event) => StepNow(p.proc, event);
    case _ =>
  }

  predicate Steady(p: Pipe) {
    Moving(p) && forall k :: 0 <= k < |p.queue| ==> !p.queue[k].msg.Tick?
  }

  // What a trust asks of an offer's reading and stamp.
  predicate OfferMeets(p: Pipe, e: PipeEvent, trust: Trust) {
    trust != MessagesMove ==> Meets(p, e, trust)
  }

  // In a run in which no time passes the trusts are about the offers alone.
  lemma {:induction false} InstantRun(p: Pipe, es: seq<PipeEvent>, trust: Trust)
    requires Steady(p) && forall i :: 0 <= i < |es| ==> Instant(es[i])
    requires forall i :: 0 <= i < |es| ==> OfferMeets(p, es[i], trust)
    ensures var q := PipeRun(p, es);
            Steady(q) && q.proc.now == p.proc.now && q.lag == p.lag && q.started == p.started
    ensures MeetsRun(p, es, trust)
  {
    if es != [] {
      InstantRun(p, es[..|es| - 1], trust);
      InstantStep(PipeRun(p, es[..|es| - 1]), es[|es| - 1]);
      assert OfferMeets(p, es[|es| - 1], trust);
    }
  }

  lemma CycleEvents(address: string, fill: Fill, direction: string, at: int, i: nat)
    requires i < |Cycle(address, fill, direction, at)|
    ensures var e := Cycle(address, fill, direction, at)[i];
            && Instant(e) && !e.WriteNext? && !e.Clean?
            && (e.OfferFill? ==> e == OfferFill(address, fill, direction, at))
  {
  }

  lemma CycleMeets(p: Pipe, address: string, fill: Fill, direction: string, at: int, trust: Trust)
    requires Idle(p) && OfferMeets(p, OfferFill(address, fill, direction, at), trust)
    ensures MeetsRun(p, Cycle(address, fill, direction, at), trust)
  {
    forall i | 0 <= i < |Cycle(address, fill, direction, at)|
      ensures Instant(Cycle(address, fill, direction, at)[i])
      ensures OfferMeets(p, Cycle(address, fill, direction, at)[i], trust)
    {
      CycleEvents(address, fill, direction, at, i);
    }
    InstantRun(p, Cycle(address, fill, direction, at), trust);
  }

  lemma {:induction false} NoOfferMeets(p: Pipe, es: seq<PipeEvent>, trust: Trust)
    requires trust != MessagesMove && forall i :: 0 <= i < |es| ==> !es[i].OfferFill?
    ensures MeetsRun(p, es, trust)
  {
    if es != [] {
      NoOfferMeets(p, es[..|es| - 1], trust);
    }
  }

  // ----- Two publications of one fill -----

  predicate PublishedTwice(p: Pipe, address: string, fill: Fill, direction: string) {
    && |p.proc.published| == 2
    && PublishedAlone(p.proc.published[0], address, fill, direction)
    && PublishedAlone(p.proc.published[1], address, fill, direction)
  }

  predicate PublishedOnce(p: Pipe, address: string, fill: Fill, direction: string) {
    |p.proc.published| == 1 && PublishedAlone(p.proc.published[0], address, fill, direction)
  }

  // The fill is published twice in the end, and each of the given trusts is met
  // by every event on the way.
  ghost predicate Replays(p: Pipe, es: seq<PipeEvent>, address: string, fill: Fill, direction: string,
                          trusts: set<Trust>)
  {
    && PublishedTwice(PipeRun(p, es), address, fill, direction)
    && forall trust <- trusts :: MeetsRun(p, es, trust)
  }

  lemma ReplaysAfter(p: Pipe, a: seq<PipeEvent>, b: seq<PipeEvent>, address: string, fill: Fill, direction: string,
                     trusts: set<Trust>)
    requires Replays(PipeRun(p, a), b, address, fill, direction, trusts)
    requires forall trust <- trusts :: MeetsRun(p, a, trust)
    ensures Replays(p, a + b, address, fill, direction, trusts)
  {
    RunConcat(p, a, b);
    forall trust <- trusts ensures MeetsRun(p, a + b, trust) {
      MeetsConcat(p, a, b, trust);
    }
  }

  lemma ReplaysAfterOne(p: Pipe, e: PipeEvent, b: seq<PipeEvent>, address: string, fill: Fill, direction: string,
                        trusts: set<Trust>)
    requires !e.OfferFill? && !e.HandleNext? && Replays(PipeStep(p, e), b, address, fill, direction, trusts)
    ensures Replays(p, [e] + b, address, fill, direction, trusts)
  {
    RunOne(p, e);
    forall trust <- trusts ensures MeetsRun(p, [e], trust) {
      assert [e][..0] == [] && MeetsRun(p, [], trust);
    }
    ReplaysAfter(p, [e], b, address, fill, direction, trusts);
  }

  // Nothing has happened yet but the passing of time.
  predicate Unused(p: Pipe) {
    && Idle(p) && p.proc.dedup == map[] && p.proc.published == [] && p.proc.writes == [] && p.sentRow == []
    && p.applied == 0 && p.db == map[] && p.started <= p.proc.now
  }

  lemma UpSince(now: int, up: nat, lag: nat)
    ensures var p := PipeStep(Start(now - up, lag), Internal(Tick(up)));
            Unused(p) && p.proc.now == now && p.lag == lag && p.started == now - up
  {
  }

  // The fill was published just now and nothing else is going on.
  predicate JustPublished(q: Pipe, p: Pipe, address: string, fill: Fill, direction: string) {
    && Idle(q) && PublishedOnce(q, address, fill, direction)
    && q.proc.now == p.proc.now && q.lag == p.lag && q.started == p.started
    && q.proc.dedup == map[OrderKey(address, fill.oid, direction) := q.proc.now + DEDUP_TTL]
    && |q.proc.writes| == 2 && q.sentRow == [1] && q.applied == 0 && q.db == map[]
  }

  lemma CycleOnce(p: Pipe, address: string, fill: Fill, direction: string)
    requires Unused(p) && Market(direction).Some? && !TooOld(p.proc.now, fill)
    ensures JustPublished(PipeRun(p, Cycle(address, fill, direction, p.proc.now)), p, address, fill, direction)
  {
    CyclePublishes(p, address, fill, direction, p.proc.now);
    FirstSignal(p, PipeRun(p, Cycle(address, fill, direction, p.proc.now)), address, fill, direction);
  }

  lemma FirstSignal(p: Pipe, q: Pipe, address: string, fill: Fill, direction: string)
    requires Unused(p) && OneMoreSignal(p, q, address, fill, direction)
    ensures JustPublished(q, p, address, fill, direction)
  {
  }

  lemma CycleTwice(p: Pipe, address: string, fill: Fill, direction: string, at: int, trusts: set<Trust>)
    requires Idle(p) && Fresh(p, address, fill, direction, at) && Market(direction).Some?
    requires PublishedOnce(p, address, fill, direction)
    requires forall trust <- trusts :: OfferMeets(p, OfferFill(address, fill, direction, at), trust)
    ensures Replays(p, Cycle(address, fill, direction, at), address, fill, direction, trusts)
  {
    CyclePublishes(p, address, fill, direction, at);
    var last := PipeRun(p, Cycle(address, fill, direction, at)).proc.published;
    assert last[0] == last[..1][0];
    forall trust <- trusts ensures MeetsRun(p, Cycle(address, fill, direction, at), trust) {
      CycleMeets(p, address, fill, direction, at, trust);
    }
  }

  // The first publication, followed by whatever publishes the fill once more.
  lemma OnceThen(p: Pipe, address: string, fill: Fill, direction: string, trusts: set<Trust>, again: seq<PipeEvent>)
    requires Unused(p) && !TooOld(p.proc.now, fill) && Market(direction).Some?
    requires StampsAreEarly in trusts ==> StampedBy(fill, p.proc.now, p.lag)
    requires forall q | JustPublished(q, p, address, fill, direction) ::
               Replays(q, again, address, fill, direction, trusts)
    ensures Replays(p, Cycle(address, fill, direction, p.proc.now) + again, address, fill, direction, trusts)
  {
    CycleOnce(p, address, fill, direction);
    FirstMeets(p, address, fill, direction, trusts);
    ReplaysAfter(p, Cycle(address, fill, direction, p.proc.now), again, address, fill, direction, trusts);
  }

  lemma FirstMeets(p: Pipe, address: string, fill: Fill, direction: string, trusts: set<Trust>)
    requires Unused(p) && (StampsAreEarly in trusts ==> StampedBy(fill, p.proc.now, p.lag))
    ensures forall trust <- trusts :: MeetsRun(p, Cycle(address, fill, direction, p.proc.now), trust)
  {
    forall trust <- trusts ensures MeetsRun(p, Cycle(address, fill, direction, p.proc.now), trust) {
      CycleMeets(p, address, fill, direction, p.proc.now, trust);
    }
  }

  // ----- The clock -----

  // The fill is published, and delivered again in a message whose dedup check
  // comes a nanosecond after its mark expired, and whose age filter was read at the given time.
  function ReplayRun(now: int, at: int, address: string, fill: Fill, direction: string): seq<PipeEvent> {
    Cycle(address, fill, direction, now)
    + ([Internal(Tick(DEDUP_TTL + 1))] + Cycle(address, fill, direction, at))
  }

  lemma CycleAfterTick(q: Pipe, p: Pipe, address: string, fill: Fill, direction: string, at: int, trusts: set<Trust>)
    requires JustPublished(q, p, address, fill, direction) && Market(direction).Some? && !TooOld(at, fill)
    requires StampsAreEarly in trusts ==> StampedBy(fill, p.proc.now, p.lag)
    requires ChecksFollow in trusts ==> p.started <= at && p.proc.now + DEDUP_TTL + 1 <= at + p.lag
    ensures Replays(q, [Internal(Tick(DEDUP_TTL + 1))] + Cycle(address, fill, direction, at),
                    address, fill, direction, trusts)
  {
    var tick := Internal(Tick(DEDUP_TTL + 1));
    CycleTwice(PipeStep(q, tick), address, fill, direction, at, trusts);
    ReplaysAfterOne(q, tick, Cycle(address, fill, direction, at), address, fill, direction, trusts);
  }

  lemma SlippedFilter(now: int, gap: nat, fill: Fill)
    requires !StampedBy(fill, now, gap)
    ensures !TooOld(FilterReading(now, gap), fill)
  {
    var at := FilterReading(now, gap);
    assert at == now + 1 - gap + MAX_FILL_AGE * MILLI;
    assert Millis(at) == Millis(now + 1 - gap) + MAX_FILL_AGE;
  }

  lemma ReplayFrom(p: Pipe, address: string, fill: Fill, direction: string, at: int, trusts: set<Trust>)
    requires Unused(p) && !TooOld(p.proc.now, fill) && !TooOld(at, fill) && Market(direction).Some?
    requires StampsAreEarly in trusts ==> StampedBy(fill, p.proc.now, p.lag)
    requires ChecksFollow in trusts ==> p.started <= at && p.proc.now + DEDUP_TTL + 1 <= at + p.lag
    ensures Replays(p, ReplayRun(p.proc.now, at, address, fill, direction), address, fill, direction, trusts)
  {
    var again := [Internal(Tick(DEDUP_TTL + 1))] + Cycle(address, fill, direction, at);
    forall q | JustPublished(q, p, address, fill, direction)
      ensures Replays(q, again, address, fill, direction, trusts)
    {
      CycleAfterTick(q, p, address, fill, direction, at, trusts);
    }
    OnceThen(p, address, fill, direction, trusts, again);
  }

  // The same in a process that has been up for a while.
  lemma ReplayUpSince(now: int, up: nat, lag: nat, address: string, fill: Fill, direction: string, at: int,
                      trusts: set<Trust>)
    requires !TooOld(now, fill) && !TooOld(at, fill) && Market(direction).Some?
    requires StampsAreEarly in trusts ==> StampedBy(fill, now, lag)
    requires ChecksFollow in trusts ==> now - up <= at && now + DEDUP_TTL + 1 <= at + lag
    ensures Replays(Start(now - up, lag), [Internal(Tick(up))] + ReplayRun(now, at, address, fill, direction),
                    address, fill, direction, trusts)
  {
    UpSince(now, up, lag);
    ReplayFrom(PipeStep(Start(now - up, lag), Internal(Tick(up))), address, fill, direction, at, trusts);
    ReplaysAfterOne(Start(now - up, lag), Internal(Tick(up)), ReplayRun(now, at, address, fill, direction),
                    address, fill, direction, trusts);
  }

  // When the second message's age filter was read for its dedup check to come
  // the given gap later.
  function FilterReading(now: int, gap: nat): int {
    now + DEDUP_TTL + 1 - gap
  }

  // The other two trusts are kept, but the fill was stamped too late for the lag.
  lemma UntimelyFillReplays(now: int, lag: nat, address: string, fill: Fill, direction: string)
    requires !TooOld(now, fill) && !StampedBy(fill, now, lag) && Market(direction).Some?
    ensures Replays(Start(now - lag, lag),
                    [Internal(Tick(lag))] + ReplayRun(now, FilterReading(now, lag), address, fill, direction),
                    address, fill, direction, {ChecksFollow, MessagesMove})
  {
    SlippedFilter(now, lag, fill);
    ReplayUpSince(now, lag, lag, address, fill, direction, FilterReading(now, lag), {ChecksFollow, MessagesMove});
  }

  // The other two trusts are kept, but one dedup check comes later after its age
  // filter than the lag: when the filter's clock was read the mark was still
  // live, when the check is made it has expired.
  lemma LateCheckReplays(now: int, lag: nat, gap: nat, address: string, fill: Fill, direction: string)
    requires !TooOld(now, fill) && StampedBy(fill, now, lag) && !StampedBy(fill, now, gap)
    requires Market(direction).Some?
    ensures lag < gap
    ensures Replays(Start(now - gap, lag),
                    [Internal(Tick(gap))] + ReplayRun(now, FilterReading(now, gap), address, fill, direction),
                    address, fill, direction, {StampsAreEarly, MessagesMove})
  {
    SlippedFilter(now, gap, fill);
    ReplayUpSince(now, gap, lag, address, fill, direction, FilterReading(now, gap), {StampsAreEarly, MessagesMove});
  }

  // ----- Restarts -----

  const ALL_TRUSTS: set<Trust> := {ChecksFollow, StampsAreEarly, MessagesMove}

  function RestartRun(now: int, address: string, fill: Fill, direction: string, writes: seq<PipeEvent>, loadOk: bool):
    seq<PipeEvent>
  {
    Cycle(address, fill, direction, now) + (writes + ([Restart(0, loadOk)] + Cycle(address, fill, direction, now)))
  }

  lemma CrashAfterCycle(p: Pipe, loadOk: bool, address: string, fill: Fill, direction: string, trusts: set<Trust>)
    requires PublishedOnce(p, address, fill, direction) && Market(direction).Some?
    requires !TooOld(p.proc.now, fill) && StampedBy(fill, p.proc.now, p.lag) && (loadOk ==> p.db == map[])
    ensures Replays(p, [Restart(0, loadOk)] + Cycle(address, fill, direction, p.proc.now),
                    address, fill, direction, trusts)
  {
    CycleTwice(PipeStep(p, Restart(0, loadOk)), address, fill, direction, p.proc.now, trusts);
    ReplaysAfterOne(p, Restart(0, loadOk), Cycle(address, fill, direction, p.proc.now), address, fill, direction, trusts);
  }

  lemma RestartReplays(now: int, lag: nat, address: string, fill: Fill, direction: string,
                       loadOk: bool, trusts: set<Trust>)
    requires !TooOld(now, fill) && StampedBy(fill, now, lag) && Market(direction).Some?
    ensures Replays(Start(now, lag), RestartRun(now, address, fill, direction, [], loadOk),
                    address, fill, direction, trusts)
  {
    var again := [Restart(0, loadOk)] + Cycle(address, fill, direction, now);
    assert [] + again == again;
    forall q | JustPublished(q, Start(now, lag), address, fill, direction)
      ensures Replays(q, again, address, fill, direction, trusts)
    {
      CrashAfterCycle(q, loadOk, address, fill, direction, trusts);
    }
    OnceThen(Start(now, lag), address, fill, direction, trusts, again);
  }

  lemma AllTrusts(p: Pipe, es: seq<PipeEvent>, address: string, fill: Fill, direction: string)
    requires Replays(p, es, address, fill, direction, ALL_TRUSTS)
    ensures TimelyRun(p, es) && PublishedTwice(PipeRun(p, es), address, fill, direction)
  {
    assert ChecksFollow in ALL_TRUSTS && StampsAreEarly in ALL_TRUSTS && MessagesMove in ALL_TRUSTS;
    TimelyIff(p, es);
  }

  // A crash before the sent row is written: the fill is published again in a
  // timely run, though the reload succeeds.
  lemma UnwrittenRowReplays(now: int, lag: nat, loadOk: bool, address: string, fill: Fill, direction: string)
    requires !TooOld(now, fill) && StampedBy(fill, now, lag) && Market(direction).Some?
    ensures var es := RestartRun(now, address, fill, direction, [], loadOk);
            TimelyRun(Start(now, lag), es) &&
            PublishedTwice(PipeRun(Start(now, lag), es), address, fill, direction)
  {
    RestartReplays(now, lag, address, fill, direction, loadOk, ALL_TRUSTS);
    AllTrusts(Start(now, lag), RestartRun(now, address, fill, direction, [], loadOk), address, fill, direction);
  }

  function TwoWrites(): seq<PipeEvent> {
    [WriteNext(true), WriteNext(true)]
  }

  lemma WritesBoth(p: Pipe)
    requires p.applied == 0 && |p.proc.writes| == 2
    ensures var q := PipeRun(p, TwoWrites());
            q.proc == p.proc && q.sentRow == p.sentRow && q.lag == p.lag && q.started == p.started && 1 in q.stored
    ensures forall trust :: MeetsRun(p, TwoWrites(), trust)
  {
    RunTwo(p, WriteNext(true), WriteNext(true));
    forall trust ensures MeetsRun(p, TwoWrites(), trust) {
      assert TwoWrites()[..1] == [WriteNext(true)] && [WriteNext(true)][..0] == [];
      assert MeetsRun(p, [], trust) && MeetsRun(p, [WriteNext(true)], trust);
    }
  }

  lemma WrittenThenCrash(q: Pipe, now: int, lag: nat, address: string, fill: Fill, direction: string, trusts: set<Trust>)
    requires JustPublished(q, Start(now, lag), address, fill, direction) && Market(direction).Some?
    requires !TooOld(now, fill) && StampedBy(fill, now, lag)
    ensures Replays(q, TwoWrites() + ([Restart(0, false)] + Cycle(address, fill, direction, now)),
                    address, fill, direction, trusts)
  {
    WritesBoth(q);
    CrashAfterCycle(PipeRun(q, TwoWrites()), false, address, fill, direction, trusts);
    ReplaysAfter(q, TwoWrites(), [Restart(0, false)] + Cycle(address, fill, direction, now),
                 address, fill, direction, trusts);
  }

  lemma WrittenReplays(now: int, lag: nat, address: string, fill: Fill, direction: string, trusts: set<Trust>)
    requires !TooOld(now, fill) && StampedBy(fill, now, lag) && Market(direction).Some?
    ensures Replays(Start(now, lag), RestartRun(now, address, fill, direction, TwoWrites(), false),
                    address, fill, direction, trusts)
  {
    var again := TwoWrites() + ([Restart(0, false)] + Cycle(address, fill, direction, now));
    forall q | JustPublished(q, Start(now, lag), address, fill, direction)
      ensures Replays(q, again, address, fill, direction, trusts)
    {
      WrittenThenCrash(q, now, lag, address, fill, direction, trusts);
    }
    OnceThen(Start(now, lag), address, fill, direction, trusts, again);
  }

  // A crash after it is written, with a reload that fails: published again in a
  // timely run.
  lemma FailedReloadReplays(now: int, lag: nat, address: string, fill: Fill, direction: string)
    requires !TooOld(now, fill) && StampedBy(fill, now, lag) && Market(direction).Some?
    ensures var es := RestartRun(now, address, fill, direction, TwoWrites(), false);
            TimelyRun(Start(now, lag), es) &&
            PublishedTwice(PipeRun(Start(now, lag), es), address, fill, direction)
    ensures var before := PipeRun(Start(now, lag), Cycle(address, fill, direction, now) + TwoWrites());
            before.sentRow == [1] && 1 in before.stored
  {
    WrittenReplays(now, lag, address, fill, direction, ALL_TRUSTS);
    AllTrusts(Start(now, lag), RestartRun(now, address, fill, direction, TwoWrites(), false), address, fill, direction);
    RowIsStored(now, lag, address, fill, direction);
  }

  lemma RowIsStored(now: int, lag: nat, address: string, fill: Fill, direction: string)
    requires !TooOld(now, fill) && Market(direction).Some?
    ensures var before := PipeRun(Start(now, lag), Cycle(address, fill, direction, now) + TwoWrites());
            before.sentRow == [1] && 1 in before.stored
  {
    var cycle := Cycle(address, fill, direction, now);
    CycleOnce(Start(now, lag), address, fill, direction);
    WritesBoth(PipeRun(Start(now, lag), cycle));
    RunConcat(Start(now, lag), cycle, TwoWrites());
  }

  // ----- The queue -----

  // Two copies wait together; the second is handled a nanosecond after the mark
  // the first one led to has expired, and is flushed by the timeout scan.
  function SlowRun(address: string, fill: Fill, direction: string, at: int): seq<PipeEvent> {
    SlowHalf(address, fill, direction, at) + SlowRest(address, fill, direction)
  }

  function SlowHalf(address: string, fill: Fill, direction: string, at: int): seq<PipeEvent> {
    SlowArrivals(address, fill, direction, at) + [HandleNext, Internal(FlushAt(0, true))]
  }

  function SlowArrivals(address: string, fill: Fill, direction: string, at: int): seq<PipeEvent> {
    [OfferStatus(address, fill.oid, "filled"), HandleNext]
    + [OfferFill(address, fill, direction, at), OfferFill(address, fill, direction, at)]
  }

  lemma SlowStart(now: int, lag: nat, address: string, fill: Fill, direction: string)
    requires !TooOld(now, fill)
    ensures var q := PipeRun(Start(now, lag), SlowArrivals(address, fill, direction, now));
            var copy := Queued(FillMsg(address, fill, direction), now);
            q.queue == [copy, copy] && q.proc == Mark(Init(now), address, fill.oid, "filled")
  {
    var status := [OfferStatus(address, fill.oid, "filled"), HandleNext];
    var offer := OfferFill(address, fill, direction, now);
    RunConcat(Start(now, lag), status, [offer, offer]);
    StatusFirst(Start(now, lag), address, fill.oid);
    RunTwo(Start(now, lag).(proc := Mark(Init(now), address, fill.oid, "filled")), offer, offer);
  }

  // The first copy was published just now, the second still waits.
  predicate SecondCopyWaits(q: Pipe, address: string, fill: Fill, direction: string) {
    && q.queue == [Queued(FillMsg(address, fill, direction), q.proc.now)]
    && q.proc.pending == map[] && q.proc.flushChan == [] && q.proc.tracker == map[]
    && q.proc.dedup == map[OrderKey(address, fill.oid, direction) := q.proc.now + DEDUP_TTL]
    && |q.proc.published| == 1
    && PublishedAlone(q.proc.published[0], address, fill, direction)
  }

  lemma SlowMiddle(now: int, lag: nat, address: string, fill: Fill, direction: string)
    requires !TooOld(now, fill) && Market(direction).Some?
    ensures SecondCopyWaits(PipeRun(Start(now, lag), SlowHalf(address, fill, direction, now)), address, fill, direction)
  {
    SlowStart(now, lag, address, fill, direction);
    RunConcat(Start(now, lag), SlowArrivals(address, fill, direction, now), [HandleNext, Internal(FlushAt(0, true))]);
    FirstCopyRun(PipeRun(Start(now, lag), SlowArrivals(address, fill, direction, now)), address, fill, direction);
  }

  lemma FirstCopyRun(p: Pipe, address: string, fill: Fill, direction: string)
    requires var copy := Queued(FillMsg(address, fill, direction), p.proc.now); p.queue == [copy, copy]
    requires p.proc == Mark(Init(p.proc.now), address, fill.oid, "filled") && Market(direction).Some?
    ensures SecondCopyWaits(PipeRun(p, [HandleNext, Internal(FlushAt(0, true))]), address, fill, direction)
  {
    RunTwo(p, HandleNext, Internal(FlushAt(0, true)));
    SlowFirstCopy(p, address, fill, direction);
  }

  function SlowRest(address: string, fill: Fill, direction: string): seq<PipeEvent> {
    [Internal(Tick(DEDUP_TTL + 1)), HandleNext]
    + ([Internal(Tick(LEG_TIMEOUT + 1)), Internal(TimeoutScan([OrderKey(address, fill.oid, direction)]))]
       + [Internal(FlushAt(0, true))])
  }

  // Offers at one instant, and none afterwards.
  lemma OffersFirst(p: Pipe, offers: seq<PipeEvent>, rest: seq<PipeEvent>, trust: Trust)
    requires Steady(p) && trust != MessagesMove
    requires forall i :: 0 <= i < |offers| ==> Instant(offers[i]) && OfferMeets(p, offers[i], trust)
    requires forall i :: 0 <= i < |rest| ==> !rest[i].OfferFill?
    ensures MeetsRun(p, offers + rest, trust)
  {
    InstantRun(p, offers, trust);
    NoOfferMeets(PipeRun(p, offers), rest, trust);
    MeetsConcat(p, offers, rest, trust);
  }

  lemma ArrivalsMeet(p: Pipe, address: string, fill: Fill, direction: string, trust: Trust)
    requires p.started <= p.proc.now && StampedBy(fill, p.proc.now, p.lag)
    ensures var arrivals := SlowArrivals(address, fill, direction, p.proc.now);
            forall i :: 0 <= i < |arrivals| ==> Instant(arrivals[i]) && OfferMeets(p, arrivals[i], trust)
  {
  }

  lemma NoOffersInRest(address: string, fill: Fill, direction: string)
    ensures var rest := [HandleNext, Internal(FlushAt(0, true))] + SlowRest(address, fill, direction);
            forall i :: 0 <= i < |rest| ==> !rest[i].OfferFill?
  {
  }

  lemma SlowMeets(p: Pipe, address: string, fill: Fill, direction: string, trust: Trust)
    requires p.queue == [] && p.started <= p.proc.now && StampedBy(fill, p.proc.now, p.lag) && trust != MessagesMove
    ensures MeetsRun(p, SlowRun(address, fill, direction, p.proc.now), trust)
  {
    var arrivals := SlowArrivals(address, fill, direction, p.proc.now);
    var flush, rest := [HandleNext, Internal(FlushAt(0, true))], SlowRest(address, fill, direction);
    ArrivalsMeet(p, address, fill, direction, trust);
    NoOffersInRest(address, fill, direction);
    OffersFirst(p, arrivals, flush + rest, trust);
    assert (arrivals + flush) + rest == arrivals + (flush + rest);
  }

  lemma SlowPublishes(now: int, lag: nat, address: string, fill: Fill, direction: string)
    requires !TooOld(now, fill) && Market(direction).Some?
    ensures PublishedTwice(PipeRun(Start(now, lag), SlowRun(address, fill, direction, now)), address, fill, direction)
  {
    var half := SlowHalf(address, fill, direction, now);
    SlowMiddle(now, lag, address, fill, direction);
    SlowOnward(Start(now, lag), half, address, fill, direction);
  }

  lemma SlowOnward(p: Pipe, half: seq<PipeEvent>, address: string, fill: Fill, direction: string)
    requires SecondCopyWaits(PipeRun(p, half), address, fill, direction) && Market(direction).Some?
    ensures PublishedTwice(PipeRun(p, half + SlowRest(address, fill, direction)), address, fill, direction)
  {
    var rest := SlowRest(address, fill, direction);
    RunConcat(p, half, rest);
    SlowTail(PipeRun(p, half), address, fill, direction);
    var last := PipeRun(PipeRun(p, half), rest).proc.published;
    assert last[0] == last[..1][0];
  }

  // The other two trusts are kept, but one message waits a nanosecond longer
  // than the TTL.
  lemma SlowQueueReplays(now: int, lag: nat, address: string, fill: Fill, direction: string)
    requires !TooOld(now, fill) && StampedBy(fill, now, lag) && Market(direction).Some?
    ensures Replays(Start(now, lag), SlowRun(address, fill, direction, now), address, fill, direction,
                    {ChecksFollow, StampsAreEarly})
  {
    SlowPublishes(now, lag, address, fill, direction);
    SlowMeets(Start(now, lag), address, fill, direction, ChecksFollow);
    SlowMeets(Start(now, lag), address, fill, direction, StampsAreEarly);
  }

  lemma SlowTail(p: Pipe, address: string, fill: Fill, direction: string)
    requires SecondCopyWaits(p, address, fill, direction) && Market(direction).Some?
    ensures var log := PipeRun(p, SlowRest(address, fill, direction)).proc.published;
            && |log| == |p.proc.published| + 1 && log[..|p.proc.published|] == p.proc.published
            && PublishedAlone(log[|p.proc.published|], address, fill, direction)
  {
    var e4 := [Internal(Tick(DEDUP_TTL + 1)), HandleNext];
    var scan := Internal(TimeoutScan([OrderKey(address, fill.oid, direction)]));
    var e5 := [Internal(Tick(LEG_TIMEOUT + 1)), scan];
    var e6 := [Internal(FlushAt(0, true))];
    SlowSecondCopy(p, address, fill, direction);
    RunTwo(p, e4[0], e4[1]);
    var q := PipeRun(p, e4);
    RunConcat(p, e4, e5 + e6);
    RunConcat(q, e5, e6);
    RunTwo(q, e5[0], e5[1]);
    RunOne(PipeRun(q, e5), e6[0]);
    SlowEnd(q, Alone(q, address, fill, direction));
  }

  lemma SlowFirstCopy(p: Pipe, address: string, fill: Fill, direction: string)
    requires var copy := Queued(FillMsg(address, fill, direction), p.proc.now); p.queue == [copy, copy]
    requires p.proc == Mark(Init(p.proc.now), address, fill.oid, "filled") && Market(direction).Some?
    ensures SecondCopyWaits(PipeStep(PipeStep(p, HandleNext), Internal(FlushAt(0, true))),
                            address, fill, direction)
  {
    var q := PipeStep(p, HandleNext);
    assert q.proc.pending == map[OrderKey(address, fill.oid, direction) := Alone(p, address, fill, direction)];
    FlushOnly(q, Alone(p, address, fill, direction), q.proc.flushChan[0]);
  }

  lemma SlowSecondCopy(p: Pipe, address: string, fill: Fill, direction: string)
    requires SecondCopyWaits(p, address, fill, direction)
    ensures var q := PipeStep(PipeStep(p, Internal(Tick(DEDUP_TTL + 1))), HandleNext);
            && q.proc.pending == map[OrderKey(address, fill.oid, direction) := Alone(q, address, fill, direction)]
            && q.proc.flushChan == [] && q.proc.published == p.proc.published
  {
  }

  lemma SlowTimeout(p: Pipe, leg: Leg)
    requires p.proc.pending == map[leg.agg.Key() := leg] && p.proc.flushChan == []
    requires leg.firstFillTime == p.proc.now && !leg.agg.signalSent
    ensures var q := PipeStep(PipeStep(p, Internal(Tick(LEG_TIMEOUT + 1))), Internal(TimeoutScan([leg.agg.Key()])));
            && q.proc.pending == p.proc.pending && q.proc.published == p.proc.published
            && q.proc.flushChan == [FlushReq(leg.agg.Key(), ByTimeout, "filled")]
  {
    var s := p.proc.(now := p.proc.now + LEG_TIMEOUT + 1);
    var req := FlushReq(leg.agg.Key(), ByTimeout, "filled");
    assert Scan(s, [leg.agg.Key()]) == Scan(Request(s, req), []) by {
      assert [leg.agg.Key()][1..] == [];
    }
  }

  lemma SlowEnd(p: Pipe, leg: Leg)
    requires p.proc.pending == map[leg.agg.Key() := leg] && p.proc.flushChan == []
    requires leg.firstFillTime == p.proc.now && !leg.agg.signalSent && BuildSignal(leg.agg).Some?
    ensures var scan := Internal(TimeoutScan([leg.agg.Key()]));
            var q := PipeStep(PipeStep(PipeStep(p, Internal(Tick(LEG_TIMEOUT + 1))), scan),
                              Internal(FlushAt(0, true)));
            && |q.proc.published| == |p.proc.published| + 1
            && q.proc.published[..|p.proc.published|] == p.proc.published
            && q.proc.published[|p.proc.published|].agg.Key() == leg.agg.Key()
            && q.proc.published[|p.proc.published|].agg.fills == leg.agg.fills
  {
    SlowTimeout(p, leg);
    var scan := Internal(TimeoutScan([leg.agg.Key()]));
    var q := PipeStep(PipeStep(p, Internal(Tick(LEG_TIMEOUT + 1))), scan);
    FlushOnly(q, leg, q.proc.flushChan[0]);
  }
}
