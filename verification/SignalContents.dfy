// What a signal says, in the words of the exchange's directions, and what goes
// with its publication.
module SignalContents {
  import opened Basics
  import opened OrderProtocol
  import opened OrderInvariants
  import opened Pipeline
  import opened PipelineInvariants

  // A signal is about one leg: side, action and market follow from the leg's
  // direction, the rest from its fills.
  predicate SaysItsLeg(p: Publication) {
    var d, fills := p.agg.direction, p.agg.fills;
    && p.signal.side == (if d == "Open Short" || d == "Close Short" then "SHORT" else "LONG")
    && p.signal.direction == (if d == "Close Long" || d == "Close Short" || d == "Sell" then "close" else "open")
    && p.signal.assetType == (if d == "Buy" || d == "Sell" then "spot" else "futures")
    && (d == "Open Long" || d == "Open Short" || d == "Close Long" || d == "Close Short" || d == "Buy" || d == "Sell")
    && p.signal.address == p.agg.address
    && fills != [] && p.signal.timestamp == fills[0].time
    && p.signal.size == SumSize(fills)
    && (|fills| == 1 ==> p.signal.price == fills[0].px)
    && (|fills| > 1 && SumSize(fills) != 0.0 ==> p.signal.price * p.signal.size == SumValue(fills))
    && (|fills| > 1 && SumSize(fills) == 0.0 ==> p.signal.price == 0.0)
  }

  lemma MarketSays(p: Publication)
    requires BuildSignal(p.agg) == Some(p.signal)
    ensures var d := p.agg.direction;
            && p.signal.side == (if d == "Open Short" || d == "Close Short" then "SHORT" else "LONG")
            && p.signal.direction == (if d == "Close Long" || d == "Close Short" || d == "Sell" then "close" else "open")
            && p.signal.assetType == (if d == "Buy" || d == "Sell" then "spot" else "futures")
            && (d == "Open Long" || d == "Open Short" || d == "Close Long" || d == "Close Short" ||
                d == "Buy" || d == "Sell")
  {
  }

  lemma QuotientTimes(x: real, y: real)
    requires y != 0.0
    ensures x / y * y == x
  {
  }

  lemma WellPublishedSays(p: Publication)
    requires WellPublished(p)
    ensures SaysItsLeg(p)
  {
    MarketSays(p);
    if SumSize(p.agg.fills) != 0.0 {
      QuotientTimes(SumValue(p.agg.fills), SumSize(p.agg.fills));
    }
  }

  lemma SoundSignals(s: Proc, forgotten: set<nat>, i: nat)
    requires InvExcept(s, forgotten) && i < |s.published|
    ensures SaysItsLeg(s.published[i])
  {
    WellPublishedSays(s.published[i]);
  }

  // Over any run of the processor, and over any run of the whole pipeline with
  // its restarts, every signal says what its leg is.
  lemma EverySignalSaysItsLeg(now: int, es: seq<Event>, i: nat)
    requires i < |Run(Init(now), es).published|
    ensures SaysItsLeg(Run(Init(now), es).published[i])
  {
    Reachable(now, es);
    SoundSignals(Run(Init(now), es), {}, i);
  }

  lemma EverySignalOfThePipeline(now: int, lag: nat, es: seq<PipeEvent>, i: nat)
    requires i < |PipeRun(Start(now, lag), es).proc.published|
    ensures SaysItsLeg(PipeRun(Start(now, lag), es).proc.published[i])
  {
    PipeRunKeeps(Start(now, lag), es, {});
    SoundSignals(PipeRun(Start(now, lag), es).proc, {} + Forgotten(Start(now, lag), es), i);
  }

  // The leg of the i-th waiting request goes out as it is, flagged, with the
  // request's status; it is marked for thirty minutes, persisted and removed, and
  // nothing else changes.
  predicate GoesOut(s: Proc, t: Proc, i: nat)
    requires i < |s.flushChan| && s.flushChan[i].key in s.pending
  {
    var key := s.flushChan[i].key;
    var sent := s.pending[key].agg.(signalSent := true, orderStatus := s.flushChan[i].status, updatedAt := s.now);
    && |t.published| == |s.published| + 1 && t.published[..|s.published|] == s.published
    && t.published[|s.published|].agg == sent && t.published[|s.published|].at == s.now
    && t.writes == s.writes + [sent]
    && t.dedup == s.dedup[key := s.now + 1_800_000_000_000]
    && t.pending == s.pending - {key}
    && t.flushChan == s.flushChan[..i] + s.flushChan[i + 1..]
    && t.now == s.now && t.tracker == s.tracker && t.accepted == s.accepted && t.dropped == s.dropped
  }

  lemma FlushEffect(s: Proc, i: nat, ok: bool)
    requires i < |s.flushChan| && |Step(s, FlushAt(i, ok)).published| != |s.published|
    requires s.flushChan[i].key in s.pending ==> s.pending[s.flushChan[i].key].agg.Key() == s.flushChan[i].key
    ensures ok && s.flushChan[i].key in s.pending && GoesOut(s, Step(s, FlushAt(i, ok)), i)
  {
  }

  // Whatever step publishes is such a flush.
  lemma PublicationEffect(s: Proc, e: Event)
    requires Inv(s) && |Step(s, e).published| != |s.published|
    ensures e.FlushAt? && e.publishOk && e.index < |s.flushChan| && s.flushChan[e.index].key in s.pending
    ensures GoesOut(s, Step(s, e), e.index)
  {
    OnlyFlushesPublish(s, e);
    LegsUnderTheirKeys(s, {});
    FlushEffect(s, e.index, e.publishOk);
  }

  lemma OnlyFlushesPublish(s: Proc, e: Event)
    requires |Step(s, e).published| != |s.published|
    ensures e.FlushAt? && e.index < |s.flushChan|
  {
    match e
    case FillMsg(address, fill, direction) => FillEffect(s, address, fill, direction);
    case StatusMsg(address, oid, status, direction) => StatusIsQuiet(s, address, oid, status, direction);
    case TimeoutScan(order) => ScanIsQuiet(s, order);
    case _ =>
  }
}
