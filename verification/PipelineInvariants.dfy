// What survives restarts: the spacing of signals as far as their marks do, and
// every accepted fill, in a signal, in a pending leg, or in a leg that a crash
// took with it.
module PipelineInvariants {
  import opened Keys
  import opened OrderProtocol
  import opened OrderInvariants
  import opened Pipeline

  // ----- Spacing -----

  // The signals whose key a restart leaves without a mark within their TTL.
  function Forgets(p: Pipe, e: PipeEvent): set<nat> {
    match e
    case Restart(downtime, loadOk) =>
      var now := p.proc.now + downtime;
      set i | 0 <= i < |p.proc.published| && p.proc.published[i].agg.Key() !in Reloads(p, now, loadOk) &&
              now <= p.proc.published[i].at + DEDUP_TTL
    case _ => {}
  }

  function Forgotten(p: Pipe, es: seq<PipeEvent>): set<nat> {
    if es == [] then {}
    else Forgotten(p, es[..|es| - 1]) + Forgets(PipeRun(p, es[..|es| - 1]), es[|es| - 1])
  }

  lemma RestartKeeps(p: Pipe, downtime: nat, loadOk: bool, forgotten: set<nat>)
    requires InvExcept(p.proc, forgotten)
    ensures InvExcept(CrashAndReload(p, downtime, loadOk).proc, forgotten + Forgets(p, Restart(downtime, loadOk)))
  {
    var q := CrashAndReload(p, downtime, loadOk);
    forall i | 0 <= i < |q.proc.published| && i !in forgotten + Forgets(p, Restart(downtime, loadOk))
      ensures Marked(q.proc, q.proc.published[i])
    {
      assert Marked(p.proc, p.proc.published[i]);
    }
  }

  // What a step other than a restart does to the processor.
  function Handled(p: Pipe, e: PipeEvent): seq<Event> {
    match e
    case OfferFill(address, fill, direction, filteredAt) =>
      if TooOld(filteredAt, fill) || Live(p.proc.dedup, OrderKey(address, fill.oid, direction), p.proc.now) ||
         |p.queue| < QUEUE_CAPACITY then [] else [FillMsg(address, fill, direction)]
    case OfferStatus(address, oid, status) =>
      if |p.queue| < QUEUE_CAPACITY then [] else [StatusMsg(address, oid, status, "")]
    case HandleNext => if p.queue == [] then [] else [p.queue[0].msg]
    case Internal(event) => if event.FillMsg? || event.StatusMsg? then [] else [event]
    case _ => []
  }

  lemma StepHandles(p: Pipe, e: PipeEvent)
    requires !e.Restart?
    ensures PipeStep(p, e).proc == if Handled(p, e) == [] then p.proc else Step(p.proc, Handled(p, e)[0])
  {
  }

  lemma PipeStepKeeps(p: Pipe, e: PipeEvent, forgotten: set<nat>)
    requires InvExcept(p.proc, forgotten)
    ensures InvExcept(PipeStep(p, e).proc, forgotten + Forgets(p, e))
  {
    if e.Restart? {
      RestartKeeps(p, e.downtime, e.loadOk, forgotten);
    } else {
      StepHandles(p, e);
      assert forgotten + {} == forgotten;
      if Handled(p, e) != [] {
        StepKeeps(p.proc, Handled(p, e)[0], forgotten);
      }
    }
  }

  lemma {:induction false} PipeRunKeeps(p: Pipe, es: seq<PipeEvent>, forgotten: set<nat>)
    requires InvExcept(p.proc, forgotten)
    ensures InvExcept(PipeRun(p, es).proc, forgotten + Forgotten(p, es))
  {
    if es == [] {
      assert forgotten + {} == forgotten;
    } else {
      var front, e := es[..|es| - 1], es[|es| - 1];
      PipeRunKeeps(p, front, forgotten);
      PipeStepKeeps(PipeRun(p, front), e, forgotten + Forgotten(p, front));
      assert forgotten + Forgotten(p, es) == (forgotten + Forgotten(p, front)) + Forgets(PipeRun(p, front), e);
    }
  }

  // Over any run, timely or not, with any restarts: the next signal of a key
  // comes more than the TTL later, unless a restart within the TTL left the key
  // without a mark.
  lemma SpacingOverRestarts(now: int, lag: nat, es: seq<PipeEvent>, i: nat, j: nat)
    requires var log := PipeRun(Start(now, lag), es).proc.published;
             i < j < |log| && log[i].agg.Key() == log[j].agg.Key()
    requires i !in Forgotten(Start(now, lag), es)
    ensures var log := PipeRun(Start(now, lag), es).proc.published; log[i].at + DEDUP_TTL < log[j].at
  {
    PipeRunKeeps(Start(now, lag), es, {});
  }

  // ----- Conservation -----

  // The fills of the key's legs that were pending when the process ended.
  function CrashedFills(p: Pipe, es: seq<PipeEvent>, key: string): seq<Fill> {
    if es == [] then []
    else
      CrashedFills(p, es[..|es| - 1], key) + NewlyCrashed(PipeRun(p, es[..|es| - 1]), es[|es| - 1], key)
  }

  // One list of fills is three others together, each fill as often, with the
  // sums to match.
  predicate Adds(all: seq<Fill>, a: seq<Fill>, b: seq<Fill>, c: seq<Fill>) {
    && multiset(all) == multiset(a) + multiset(b) + multiset(c)
    && SumSize(all) == SumSize(a) + SumSize(b) + SumSize(c)
    && SumValue(all) == SumValue(a) + SumValue(b) + SumValue(c)
  }

  lemma AddsOne(all: seq<Fill>, a: seq<Fill>, b: seq<Fill>, c: seq<Fill>, f: Fill)
    requires Adds(all, a, b, c)
    ensures Adds(all + [f], a, b, c + [f])
  {
    SumsSnoc(all, f);
    SumsSnoc(c, f);
  }

  lemma AddsSent(all: seq<Fill>, a: seq<Fill>, b: seq<Fill>, c: seq<Fill>)
    requires Adds(all, a, b, c)
    ensures Adds(all, a + c, b, [])
  {
    SumsOfConcat(a, c);
  }

  lemma AddsCrashed(all: seq<Fill>, a: seq<Fill>, b: seq<Fill>, c: seq<Fill>)
    requires Adds(all, a, b, c)
    ensures Adds(all, a, b + c, [])
  {
    SumsOfConcat(b, c);
  }

  // The accepted fills of a key are those of its signals, of its crashed legs
  // and of its pending leg.
  predicate Balanced(s: Proc, crashed: seq<Fill>, key: string) {
    Adds(AcceptedFills(s.accepted, key), PublishedFills(s.published, key), crashed, PendingFills(s, key))
  }

  lemma MovesBalance(s: Proc, t: Proc, crashed: seq<Fill>, key: string)
    requires Moves(s, t, key) && Balanced(s, crashed, key)
    ensures Balanced(t, crashed, key)
  {
    var accepted, sent, open := AcceptedFills(s.accepted, key), PublishedFills(s.published, key), PendingFills(s, key);
    if PublishesLeg(s, t, key) {
      AddsSent(accepted, sent, crashed, open);
    } else if fill :| AcceptsOne(s, t, key, fill) {
      AddsOne(accepted, sent, crashed, open, fill);
    }
  }

  function NewlyCrashed(p: Pipe, e: PipeEvent, key: string): seq<Fill> {
    if e.Restart? then PendingFills(p.proc, key) else []
  }

  lemma StepBalances(p: Pipe, e: PipeEvent, crashed: seq<Fill>, key: string, forgotten: set<nat>)
    requires InvExcept(p.proc, forgotten) && Balanced(p.proc, crashed, key)
    ensures Balanced(PipeStep(p, e).proc, crashed + NewlyCrashed(p, e, key), key)
  {
    if e.Restart? {
      CrashBalances(p.proc, PipeStep(p, e).proc, crashed, key);
    } else {
      StepHandles(p, e);
      assert crashed + [] == crashed;
      if Handled(p, e) != [] {
        HandledBalances(p.proc, Handled(p, e)[0], crashed, key, forgotten);
      }
    }
  }

  lemma CrashBalances(s: Proc, t: Proc, crashed: seq<Fill>, key: string)
    requires Balanced(s, crashed, key) && t.pending == map[] && t.published == s.published && t.accepted == s.accepted
    ensures Balanced(t, crashed + PendingFills(s, key), key)
  {
    AddsCrashed(AcceptedFills(s.accepted, key), PublishedFills(s.published, key), crashed, PendingFills(s, key));
  }

  lemma HandledBalances(s: Proc, e: Event, crashed: seq<Fill>, key: string, forgotten: set<nat>)
    requires InvExcept(s, forgotten) && Balanced(s, crashed, key)
    ensures Balanced(Step(s, e), crashed, key)
  {
    LegsUnderTheirKeys(s, forgotten);
    StepMoves(s, e, key);
    MovesBalance(s, Step(s, e), crashed, key);
  }

  lemma {:induction false} RunBalances(p: Pipe, es: seq<PipeEvent>, key: string, forgotten: set<nat>)
    requires InvExcept(p.proc, forgotten) && Balanced(p.proc, [], key)
    ensures Balanced(PipeRun(p, es).proc, CrashedFills(p, es, key), key)
  {
    if es != [] {
      var front, e := es[..|es| - 1], es[|es| - 1];
      RunBalances(p, front, key, forgotten);
      PipeRunKeeps(p, front, forgotten);
      StepBalances(PipeRun(p, front), e, CrashedFills(p, front, key), key, forgotten + Forgotten(p, front));
    }
  }

  lemma PartOfNonNegative(all: seq<Fill>, part: seq<Fill>)
    requires NonNegative(all) && multiset(part) <= multiset(all)
    ensures NonNegative(part)
  {
    forall i | 0 <= i < |part| ensures part[i].sz >= 0.0 {
      assert part[i] in multiset(part);
      assert part[i] in all;
    }
  }

  // Over any run with any restarts, per leg key: the accepted fills are those of
  // the signals, of the crashed legs and of the pending leg; the sizes add up,
  // and for sizes that are not negative the traded values.
  lemma ConservationOverRestarts(now: int, lag: nat, es: seq<PipeEvent>, key: string)
    ensures var s := PipeRun(Start(now, lag), es).proc;
            var fills, crashed := AcceptedFills(s.accepted, key), CrashedFills(Start(now, lag), es, key);
            && multiset(fills) ==
               multiset(PublishedFills(s.published, key)) + multiset(crashed) + multiset(PendingFills(s, key))
            && SumSize(fills) == PublishedSize(s.published, key) + SumSize(crashed) + PendingSize(s, key)
            && (NonNegative(fills) ==>
                  SumValue(fills) == PublishedValue(s.published, key) + SumValue(crashed) + PendingValue(s, key))
  {
    var s := PipeRun(Start(now, lag), es).proc;
    var fills := AcceptedFills(s.accepted, key);
    RunBalances(Start(now, lag), es, key, {});
    PipeRunKeeps(Start(now, lag), es, {});
    if key in s.pending {
      assert LegInvariant(s, key);
    }
    PendingSums(s, key);
    PublishedSizes(s.published, key);
    if NonNegative(fills) {
      PartOfNonNegative(fills, PublishedFills(s.published, key));
      PartOfNonNegative(fills, PendingFills(s, key));
      PublishedWorth(s.published, key);
    }
  }

  // A pending leg leaves only by being published, whole, or with the process.
  lemma LegLeavesByPublicationOrCrash(p: Pipe, e: PipeEvent, key: string)
    requires key in p.proc.pending && key !in PipeStep(p, e).proc.pending && !e.Restart?
    ensures var log := PipeStep(p, e).proc.published;
            && |log| == |p.proc.published| + 1
            && log[|p.proc.published|].agg.fills == p.proc.pending[key].agg.fills
  {
    StepHandles(p, e);
    LegLeavesOnlyByPublication(p.proc, Handled(p, e)[0], key);
  }
}
