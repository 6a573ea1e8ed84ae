// What a restart costs, exactly: which signals can be counted again after it,
// and which keys can be signalled again within their TTL.
module PipelineRestarts {
  import opened Keys
  import opened OrderProtocol
  import opened OrderInvariants
  import opened Pipeline
  import opened PipelineSafety
  import opened PipelineLimits
  import opened PipelineInvariants

  // ----- Publishing again -----

  // A key without a mark is published again with the first fresh fill, from any
  // state at all.
  lemma UnmarkedKeyPublishes(p: Pipe, downtime: nat, loadOk: bool, address: string, fill: Fill, direction: string, at: int)
    requires Market(direction).Some? && !TooOld(at, fill)
    requires OrderKey(address, fill.oid, direction) !in Reloads(p, p.proc.now + downtime, loadOk)
    ensures var q := CrashAndReload(p, downtime, loadOk);
            var r := PipeRun(q, Cycle(address, fill, direction, at));
            && |r.proc.published| == |p.proc.published| + 1
            && r.proc.published[..|p.proc.published|] == p.proc.published
            && PublishedAlone(r.proc.published[|p.proc.published|], address, fill, direction)
            && r.proc.published[|p.proc.published|].at == p.proc.now + downtime
  {
    CyclePublishes(CrashAndReload(p, downtime, loadOk), address, fill, direction, at);
  }

  lemma CycleHasNoCrash(address: string, fill: Fill, direction: string, at: int)
    ensures NoCrash(Cycle(address, fill, direction, at))
  {
    forall i | 0 <= i < |Cycle(address, fill, direction, at)|
      ensures !Cycle(address, fill, direction, at)[i].Restart?
    {
      CycleEvents(address, fill, direction, at, i);
    }
  }

  // ----- Counting a fill again -----

  // A later signal of the key contains a fill of signal i.
  predicate CountsAgain(r: Pipe, i: nat) {
    exists j, f ::
      i < j < |r.proc.published| && r.proc.published[j].agg.Key() == r.proc.published[i].agg.Key() &&
      f in r.proc.published[i].agg.fills && f in r.proc.published[j].agg.fills
  }

  // Some timely run without a crash leads there.
  ghost predicate CanCountAgain(q: Pipe, i: nat) {
    exists es :: NoCrash(es) && TimelyRun(q, es) && CountsAgain(PipeRun(q, es), i)
  }

  // Every fill of the leg is of the leg's own order.
  predicate OneOrder(agg: Aggregation) {
    Free(agg.address, '-') && forall f :: f in agg.fills ==> f.oid == agg.oid
  }

  lemma CycleIsTimely(q: Pipe, address: string, fill: Fill, direction: string, at: int)
    requires Idle(q) && Horizon(q) <= at && StampedBy(fill, q.proc.now, q.lag)
    ensures TimelyRun(q, Cycle(address, fill, direction, at))
  {
    CycleMeets(q, address, fill, direction, at, ChecksFollow);
    CycleMeets(q, address, fill, direction, at, StampsAreEarly);
    CycleMeets(q, address, fill, direction, at, MessagesMove);
    TimelyIff(q, Cycle(address, fill, direction, at));
  }

  // An exposed signal is counted again by the first message with one of its
  // fresh fills.
  lemma ExposedIsCountedAgain(p: Pipe, downtime: nat, loadOk: bool, i: nat) returns (es: seq<PipeEvent>)
    requires Safe(p) && i in Exposed(p, p.proc.now + downtime, loadOk)
    requires var agg := p.proc.published[i].agg; OneOrder(agg) && Market(agg.direction).Some?
    ensures var q := CrashAndReload(p, downtime, loadOk);
            NoCrash(es) && TimelyRun(q, es) && CountsAgain(PipeRun(q, es), i)
  {
    var q, agg := CrashAndReload(p, downtime, loadOk), p.proc.published[i].agg;
    var at := q.proc.now;
    assert SentSound(p, i);
    var n :| 0 <= n < |agg.fills| && !TooOld(at, agg.fills[n]);
    var f := agg.fills[n];
    assert f in agg.fills;
    StampedFill(f, agg.updatedAt, q.proc.now, q.lag);
    es := Cycle(agg.address, f, agg.direction, at);
    CycleHasNoCrash(agg.address, f, agg.direction, at);
    CycleIsTimely(q, agg.address, f, agg.direction, at);
    UnmarkedKeyPublishes(p, downtime, loadOk, agg.address, f, agg.direction, at);
    FoundAgain(p.proc.published, PipeRun(q, es), i, agg.address, f, agg.direction);
  }

  lemma FoundAgain(log: seq<Publication>, r: Pipe, i: nat, address: string, f: Fill, direction: string)
    requires i < |log| && |r.proc.published| == |log| + 1 && r.proc.published[..|log|] == log
    requires PublishedAlone(r.proc.published[|log|], address, f, direction)
    requires OrderKey(address, f.oid, direction) == log[i].agg.Key() && f in log[i].agg.fills
    ensures CountsAgain(r, i)
  {
    assert r.proc.published[i] == log[i];
    assert f in r.proc.published[|log|].agg.fills;
  }

  // From a safe state a restart lets a signal that was protected be counted
  // again, in a timely run without a further crash, if and only if it leaves the
  // signal exposed.
  lemma CountedAgainIff(p: Pipe, downtime: nat, loadOk: bool, i: nat)
    requires Safe(p) && i < |p.proc.published| && i !in p.lost
    requires var agg := p.proc.published[i].agg; OneOrder(agg) && Market(agg.direction).Some?
    ensures var q := CrashAndReload(p, downtime, loadOk);
            i in Exposed(p, p.proc.now + downtime, loadOk) <==>
            CanCountAgain(q, i)
  {
    var q := CrashAndReload(p, downtime, loadOk);
    if i in Exposed(p, p.proc.now + downtime, loadOk) {
      var es := ExposedIsCountedAgain(p, downtime, loadOk, i);
    } else {
      forall es | NoCrash(es) && TimelyRun(q, es) ensures !CountsAgain(PipeRun(q, es), i) {
        RestartIsSafe(p, downtime, loadOk);
        NotCountedAgain(q, es, i);
      }
    }
  }

  lemma NotCountedAgain(q: Pipe, es: seq<PipeEvent>, i: nat)
    requires Safe(q) && i < |q.proc.published| && i !in q.lost && NoCrash(es) && TimelyRun(q, es)
    ensures !CountsAgain(PipeRun(q, es), i)
  {
    var r := PipeRun(q, es);
    RunIsSafe(q, es);
    NothingLostWithoutCrash(q, es);
    forall j, f | i < j < |r.proc.published| && r.proc.published[j].agg.Key() == r.proc.published[i].agg.Key() &&
                  f in r.proc.published[i].agg.fills
      ensures f !in r.proc.published[j].agg.fills
    {
      LaterIsOther(r.proc.published[i].agg.fills, r.proc.published[j].agg.fills, f);
    }
  }

  lemma LaterIsOther(earlier: seq<Fill>, later: seq<Fill>, f: Fill)
    requires AllLater(earlier, later) && f in earlier
    ensures f !in later
  {
    var m :| 0 <= m < |earlier| && earlier[m] == f;
    forall n | 0 <= n < |later| ensures later[n] != f {
      assert Later(earlier, later[n]);
    }
  }

  // ----- Signalling a key again too soon -----

  // The next signal of signal i's key comes within the TTL.
  predicate Crowds(r: Pipe, i: nat) {
    exists j :: i < j < |r.proc.published| && r.proc.published[j].agg.Key() == r.proc.published[i].agg.Key() &&
                r.proc.published[j].at <= r.proc.published[i].at + DEDUP_TTL
  }

  // Some run without a crash leads there.
  ghost predicate CanCrowd(q: Pipe, i: nat) {
    exists es :: NoCrash(es) && Crowds(PipeRun(q, es), i)
  }

  lemma ForgottenIsCrowded(p: Pipe, downtime: nat, loadOk: bool, i: nat) returns (es: seq<PipeEvent>)
    requires i in Forgets(p, Restart(downtime, loadOk))
    requires Market(p.proc.published[i].agg.direction).Some?
    ensures NoCrash(es) && Crowds(PipeRun(CrashAndReload(p, downtime, loadOk), es), i)
  {
    var q, agg := CrashAndReload(p, downtime, loadOk), p.proc.published[i].agg;
    var f := Fill("", 0.0, 0.0, agg.direction, Millis(q.proc.now), 0.0, agg.oid, 0);
    es := Cycle(agg.address, f, agg.direction, q.proc.now);
    CycleHasNoCrash(agg.address, f, agg.direction, q.proc.now);
    UnmarkedKeyPublishes(p, downtime, loadOk, agg.address, f, agg.direction, q.proc.now);
    var log := PipeRun(q, es).proc.published;
    assert log[i] == log[..|p.proc.published|][i];
    assert log[|p.proc.published|].agg.Key() == log[i].agg.Key();
  }

  lemma {:induction false} NothingForgottenWithoutCrash(p: Pipe, es: seq<PipeEvent>)
    requires NoCrash(es)
    ensures Forgotten(p, es) == {}
  {
    if es != [] {
      NothingForgottenWithoutCrash(p, es[..|es| - 1]);
    }
  }

  // A restart lets a key be signalled again within the TTL, in a run without a
  // further crash, if and only if it leaves the key without a mark within the TTL.
  lemma CrowdedIff(p: Pipe, forgotten: set<nat>, downtime: nat, loadOk: bool, i: nat)
    requires InvExcept(p.proc, forgotten) && i < |p.proc.published| && i !in forgotten
    ensures var q := CrashAndReload(p, downtime, loadOk);
            i in Forgets(p, Restart(downtime, loadOk)) <==> CanCrowd(q, i)
  {
    var q := CrashAndReload(p, downtime, loadOk);
    assert WellPublished(p.proc.published[i]);
    if i in Forgets(p, Restart(downtime, loadOk)) {
      var es := ForgottenIsCrowded(p, downtime, loadOk, i);
    } else {
      forall es | NoCrash(es) ensures !Crowds(PipeRun(q, es), i) {
        RestartKeeps(p, downtime, loadOk, forgotten);
        NothingForgottenWithoutCrash(q, es);
        PipeRunKeeps(q, es, forgotten + Forgets(p, Restart(downtime, loadOk)));
      }
    }
  }

  // ----- The condition on legs is met on runs of dash-free addresses -----

  predicate DashFreeOffer(e: PipeEvent) {
    e.OfferFill? ==> Free(e.address, '-')
  }

  predicate DashFreeMsg(e: Event) {
    e.FillMsg? ==> Free(e.address, '-')
  }

  predicate OwnLegsOnly(p: Pipe) {
    && (forall k :: k in p.proc.pending ==> p.proc.pending[k].agg.Key() == k && OneOrder(p.proc.pending[k].agg))
    && (forall i :: 0 <= i < |p.proc.published| ==> OneOrder(p.proc.published[i].agg))
    && (forall k :: 0 <= k < |p.queue| ==> DashFreeMsg(p.queue[k].msg))
  }

  predicate OwnProc(s: Proc) {
    && (forall k :: k in s.pending ==> s.pending[k].agg.Key() == k && OneOrder(s.pending[k].agg))
    && (forall i :: 0 <= i < |s.published| ==> OneOrder(s.published[i].agg))
  }

  lemma StoreIsOwn(s: Proc, address: string, fill: Fill, direction: string)
    requires OwnProc(s) && Free(address, '-')
    ensures OwnProc(StoreFill(s, address, fill, direction))
  {
    var key := OrderKey(address, fill.oid, direction);
    if key in s.pending {
      var agg := s.pending[key].agg;
      OrderKeyInjective(agg.address, agg.oid, agg.direction, address, fill.oid, direction);
    }
  }

  lemma StepIsOwn(s: Proc, e: Event)
    requires OwnProc(s) && DashFreeMsg(e)
    ensures OwnProc(Step(s, e))
  {
    match e
    case FillMsg(address, fill, direction) =>
      FillEffect(s, address, fill, direction);
      StoreIsOwn(s, address, fill, direction);
    case StatusMsg(address, oid, status, direction) => StatusIsQuiet(s, address, oid, status, direction);
    case TimeoutScan(order) => ScanIsQuiet(s, order);
    case FlushAt(i, ok) => FlushIsOwn(s, i, ok);
    case Tick(_) =>
  }

  lemma FlushIsOwn(s: Proc, i: nat, ok: bool)
    requires OwnProc(s)
    ensures OwnProc(Step(s, FlushAt(i, ok)))
  {
    if i < |s.flushChan| && s.flushChan[i].key in s.pending {
      assert OneOrder(s.pending[s.flushChan[i].key].agg);
    }
  }

  lemma PipeStepIsOwn(p: Pipe, e: PipeEvent)
    requires OwnLegsOnly(p) && DashFreeOffer(e)
    ensures OwnLegsOnly(PipeStep(p, e))
  {
    if !e.Restart? {
      StepHandles(p, e);
      if Handled(p, e) != [] {
        StepIsOwn(p.proc, Handled(p, e)[0]);
      }
    }
  }

  lemma {:induction false} LegsAreOwn(now: int, lag: nat, es: seq<PipeEvent>)
    requires forall i :: 0 <= i < |es| ==> DashFreeOffer(es[i])
    ensures OwnLegsOnly(PipeRun(Start(now, lag), es))
  {
    if es != [] {
      LegsAreOwn(now, lag, es[..|es| - 1]);
      PipeStepIsOwn(PipeRun(Start(now, lag), es[..|es| - 1]), es[|es| - 1]);
    }
  }

  // A state as every timely run of dash-free addresses leaves it.
  ghost predicate Regular(p: Pipe) {
    Safe(p) && OwnLegsOnly(p) && SoundProc(p.proc)
  }

  ghost predicate SoundProc(s: Proc) {
    exists forgotten: set<nat> :: InvExcept(s, forgotten)
  }

  lemma StepIsRegular(p: Pipe, e: PipeEvent)
    requires Regular(p) && Timely(p, e) && DashFreeOffer(e)
    ensures Regular(PipeStep(p, e))
  {
    StepIsSafe(p, e);
    PipeStepIsOwn(p, e);
    var forgotten: set<nat> :| InvExcept(p.proc, forgotten);
    PipeStepKeeps(p, e, forgotten);
  }

  lemma StartIsRegular(now: int, lag: nat)
    ensures Regular(Start(now, lag))
  {
    assert InvExcept(Start(now, lag).proc, {});
  }

  lemma {:induction false} RegularRun(now: int, lag: nat, es: seq<PipeEvent>)
    requires TimelyRun(Start(now, lag), es) && forall k :: 0 <= k < |es| ==> DashFreeOffer(es[k])
    ensures Regular(PipeRun(Start(now, lag), es))
  {
    if es == [] {
      StartIsRegular(now, lag);
    } else {
      RegularRun(now, lag, es[..|es| - 1]);
      StepIsRegular(PipeRun(Start(now, lag), es[..|es| - 1]), es[|es| - 1]);
    }
  }

  lemma SoundRun(now: int, lag: nat, es: seq<PipeEvent>)
    ensures InvExcept(PipeRun(Start(now, lag), es).proc, Forgotten(Start(now, lag), es))
    ensures SoundProc(PipeRun(Start(now, lag), es).proc)
  {
    PipeRunKeeps(Start(now, lag), es, {});
    assert {} + Forgotten(Start(now, lag), es) == Forgotten(Start(now, lag), es);
  }

  ghost predicate CountsAgainIffExposed(p: Pipe, downtime: nat, loadOk: bool, i: nat) {
    i in Exposed(p, p.proc.now + downtime, loadOk) <==> CanCountAgain(CrashAndReload(p, downtime, loadOk), i)
  }

  lemma RegularCountsAgainIff(p: Pipe, downtime: nat, loadOk: bool, i: nat)
    requires Regular(p) && i < |p.proc.published| && i !in p.lost
    ensures CountsAgainIffExposed(p, downtime, loadOk, i)
  {
    var forgotten: set<nat> :| InvExcept(p.proc, forgotten);
    assert WellPublished(p.proc.published[i]);
    CountedAgainIff(p, downtime, loadOk, i);
  }

  // After every timely run of dash-free addresses: a restart lets a signal that no
  // earlier restart has exposed be counted again if and only if it exposes it.
  lemma RestartCountsAgainIff(now: int, lag: nat, es: seq<PipeEvent>, downtime: nat, loadOk: bool, i: nat)
    requires TimelyRun(Start(now, lag), es) && forall k :: 0 <= k < |es| ==> DashFreeOffer(es[k])
    requires var p := PipeRun(Start(now, lag), es); i < |p.proc.published| && i !in p.lost
    ensures CountsAgainIffExposed(PipeRun(Start(now, lag), es), downtime, loadOk, i)
  {
    RegularRun(now, lag, es);
    RegularCountsAgainIff(PipeRun(Start(now, lag), es), downtime, loadOk, i);
  }

  // And after any run at all: a restart lets a key be signalled again within the
  // TTL if and only if it leaves the key without a mark within the TTL.
  lemma RestartCrowdsIff(now: int, lag: nat, es: seq<PipeEvent>, downtime: nat, loadOk: bool, i: nat)
    requires var p := PipeRun(Start(now, lag), es);
             i < |p.proc.published| && i !in Forgotten(Start(now, lag), es)
    ensures var p := PipeRun(Start(now, lag), es);
            var q := CrashAndReload(p, downtime, loadOk);
            i in Forgets(p, Restart(downtime, loadOk)) <==> CanCrowd(q, i)
  {
    SoundRun(now, lag, es);
    CrowdedIff(PipeRun(Start(now, lag), es), Forgotten(Start(now, lag), es), downtime, loadOk, i);
  }
}
