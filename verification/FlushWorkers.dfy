// A flush in its separate steps, as the pool of workers runs it without a lock:
// look up the leg, build the signal, publish it, flag the leg as sent, remove it.
// Fills arrive in between.
module FlushWorkers {
  // Legs are numbered in the order of their creation.
  datatype Worker =
    | Idle
    | Loaded(key: string, leg: nat)                   // found pending and not sent
    | Built(key: string, leg: nat, fills: seq<int>)   // the signal is of these fills
    | Published(key: string, leg: nat)                // sent out, not flagged yet
    | Flagged(key: string, leg: nat)                  // flagged, marked and persisted, not removed yet

  datatype Signal = Signal(leg: nat, fills: seq<int>)

  datatype State = State(
    keys: seq<string>,            // the key of every leg ever created
    fills: seq<seq<int>>,         // the tids it has accepted
    pending: map<string, nat>,
    sent: set<nat>,
    requests: seq<string>,
    workers: seq<Worker>,
    published: seq<Signal>)

  datatype Event =
    | Fill(key: string, tid: int)
    | Request(key: string)
    | Look(w: nat, request: nat)
    | Build(w: nat)
    | Send(w: nat, ok: bool)
    | Flag(w: nat)
    | Remove(w: nat)

  function Init(workers: nat): State {
    State([], [], map[], {}, [], seq(workers, _ => Idle), [])
  }

  // A fill that passes the dedup cache and the leg's seen tids: it makes a leg,
  // or is appended to the pending one unless that is flagged.
  function AddFill(s: State, key: string, tid: int): State {
    if key !in s.pending
    then s.(keys := s.keys + [key], fills := s.fills + [[tid]], pending := s.pending[key := |s.keys|])
    else if s.pending[key] in s.sent || s.pending[key] >= |s.fills| then s
    else s.(fills := s.fills[s.pending[key] := s.fills[s.pending[key]] + [tid]])
  }

  function Step(s: State, e: Event): State {
    match e
    case Fill(key, tid) => AddFill(s, key, tid)
    case Request(key) => s.(requests := s.requests + [key])
    case Look(w, i) =>
      if w >= |s.workers| || !s.workers[w].Idle? || i >= |s.requests| then s
      else
        var key, rest := s.requests[i], s.requests[..i] + s.requests[i + 1..];
        if key in s.pending && s.pending[key] !in s.sent
        then s.(requests := rest, workers := s.workers[w := Loaded(key, s.pending[key])])
        else s.(requests := rest)
    case Build(w) =>
      if w >= |s.workers| || !s.workers[w].Loaded? || s.workers[w].leg >= |s.fills| then s
      else s.(workers := s.workers[w := Built(s.workers[w].key, s.workers[w].leg, s.fills[s.workers[w].leg])])
    case Send(w, ok) =>
      if w >= |s.workers| || !s.workers[w].Built? then s
      else if ok then s.(published := s.published + [Signal(s.workers[w].leg, s.workers[w].fills)],
                         workers := s.workers[w := Published(s.workers[w].key, s.workers[w].leg)])
      else s.(workers := s.workers[w := Idle])
    case Flag(w) =>
      if w >= |s.workers| || !s.workers[w].Published? then s
      else s.(sent := s.sent + {s.workers[w].leg},
              workers := s.workers[w := Flagged(s.workers[w].key, s.workers[w].leg)])
    case Remove(w) =>
      if w >= |s.workers| || !s.workers[w].Flagged? then s
      else s.(pending := s.pending - {s.workers[w].key}, workers := s.workers[w := Idle])
  }

  function Run(s: State, es: seq<Event>): State {
    if es == [] then s else Step(Run(s, es[..|es| - 1]), es[|es| - 1])
  }

  // No two flushes of one key are in flight.
  predicate RaceFree(s: State) {
    forall u, v :: 0 <= u < v < |s.workers| && !s.workers[u].Idle? && !s.workers[v].Idle? ==>
      s.workers[u].key != s.workers[v].key
  }

  predicate RaceFreeRun(s: State, es: seq<Event>) {
    RaceFree(Run(s, es)) && (es == [] || RaceFreeRun(s, es[..|es| - 1]))
  }

  // ----- What race-free runs keep -----

  predicate InLog(log: seq<Signal>, leg: nat) {
    exists i :: 0 <= i < |log| && log[i].leg == leg
  }

  predicate OncePerLeg(log: seq<Signal>) {
    forall i, j :: 0 <= i < j < |log| ==> log[i].leg != log[j].leg
  }

  // A worker's leg is the pending one under its key; how far it has got is how
  // much is known about the leg.
  predicate WorkerSound(s: State, w: Worker) {
    !w.Idle? ==>
      && w.key in s.pending && s.pending[w.key] == w.leg
      && (w.Loaded? || w.Built? ==> !InLog(s.published, w.leg) && w.leg !in s.sent)
      && (w.Published? ==> InLog(s.published, w.leg) && w.leg !in s.sent)
      && (w.Flagged? ==> InLog(s.published, w.leg) && w.leg in s.sent)
  }

  predicate UnderWay(s: State, leg: nat) {
    exists w :: 0 <= w < |s.workers| && s.workers[w].Published? && s.workers[w].leg == leg
  }

  ghost predicate Inv(s: State) {
    && |s.fills| == |s.keys|
    && (forall k :: k in s.pending ==> s.pending[k] < |s.keys| && s.keys[s.pending[k]] == k)
    && (forall w :: 0 <= w < |s.workers| ==> WorkerSound(s, s.workers[w]))
    && OncePerLeg(s.published)
    && (forall leg :: leg in s.sent ==> leg < |s.keys|)
    && (forall leg: nat :: InLog(s.published, leg) ==> leg < |s.keys| && (leg in s.sent || UnderWay(s, leg)))
  }

  // Looking up a leg that is under way is a race.
  lemma RacesOnKey(s: State, t: State, w: nat, leg: nat)
    requires Inv(s) && UnderWay(s, leg) && w < |s.workers| == |t.workers| && s.workers[w].Idle?
    requires leg < |s.keys| && t.workers == s.workers[w := Loaded(s.keys[leg], leg)]
    ensures !RaceFree(t)
  {
    var u :| 0 <= u < |s.workers| && s.workers[u].Published? && s.workers[u].leg == leg;
    assert WorkerSound(s, s.workers[u]);
    assert t.workers[u].key == t.workers[w].key;
  }

  lemma LookKeepsInv(s: State, w: nat, i: nat)
    requires Inv(s) && RaceFree(s) && RaceFree(Step(s, Look(w, i)))
    ensures Inv(Step(s, Look(w, i)))
  {
    var t := Step(s, Look(w, i));
    if t.workers != s.workers {
      var key := s.requests[i];
      var leg := s.pending[key];
      assert s.keys[leg] == key;
      if UnderWay(s, leg) {
        RacesOnKey(s, t, w, leg);
      }
      StillUnderWay(s, t, w);
      forall x | 0 <= x < |t.workers| ensures WorkerSound(t, t.workers[x]) {
        assert WorkerSound(s, s.workers[x]);
      }
    } else {
      StillUnderWay(s, t, w);
      forall x | 0 <= x < |t.workers| ensures WorkerSound(t, t.workers[x]) {
        assert WorkerSound(s, s.workers[x]);
      }
    }
  }

  // A change of one worker that was not publishing leaves what is under way.
  lemma StillUnderWay(s: State, t: State, w: nat)
    requires |t.workers| == |s.workers|
    requires forall x :: 0 <= x < |s.workers| && (x != w || s.workers[x].Published?) ==> t.workers[x] == s.workers[x]
    ensures forall leg :: UnderWay(s, leg) ==> UnderWay(t, leg)
  {
    forall leg | UnderWay(s, leg) ensures UnderWay(t, leg) {
      var u :| 0 <= u < |s.workers| && s.workers[u].Published? && s.workers[u].leg == leg;
      assert t.workers[u] == s.workers[u];
    }
  }

  // Other workers' legs are other legs.
  lemma OtherLegs(s: State, u: nat, v: nat)
    requires Inv(s) && RaceFree(s) && u < |s.workers| && v < |s.workers| && u != v
    requires !s.workers[u].Idle? && !s.workers[v].Idle?
    ensures s.workers[u].key != s.workers[v].key && s.workers[u].leg != s.workers[v].leg
  {
    assert WorkerSound(s, s.workers[u]) && WorkerSound(s, s.workers[v]);
    assert u < v || v < u;
  }

  lemma BuildKeepsInv(s: State, w: nat)
    requires Inv(s)
    ensures Inv(Step(s, Build(w)))
  {
    var t := Step(s, Build(w));
    if w < |s.workers| && s.workers[w].Loaded? {
      assert WorkerSound(s, s.workers[w]);
      StillUnderWay(s, t, w);
      forall x | 0 <= x < |t.workers| ensures WorkerSound(t, t.workers[x]) {
        assert WorkerSound(s, s.workers[x]);
      }
    }
  }

  lemma InLogSnoc(log: seq<Signal>, signal: Signal, leg: nat)
    ensures InLog(log + [signal], leg) <==> InLog(log, leg) || signal.leg == leg
  {
    var all := log + [signal];
    assert all[|log|] == signal;
    if InLog(log, leg) {
      var i :| 0 <= i < |log| && log[i].leg == leg;
      assert all[i] == log[i];
    }
  }

  lemma SentKeepsInv(s: State, w: nat)
    requires Inv(s) && RaceFree(s) && w < |s.workers| && s.workers[w].Built?
    ensures Inv(Step(s, Send(w, true)))
  {
    var t := Step(s, Send(w, true));
    var leg := s.workers[w].leg;
    assert WorkerSound(s, s.workers[w]);
    StillUnderWay(s, t, w);
    assert t.workers[w].Published? && t.workers[w].leg == leg;
    assert UnderWay(t, leg);
    forall l: nat ensures InLog(t.published, l) <==> InLog(s.published, l) || l == leg {
      InLogSnoc(s.published, t.published[|s.published|], l);
    }
    forall x | 0 <= x < |t.workers| ensures WorkerSound(t, t.workers[x]) {
      assert WorkerSound(s, s.workers[x]);
      if x != w && !s.workers[x].Idle? {
        OtherLegs(s, x, w);
      }
    }
  }

  lemma SendKeepsInv(s: State, w: nat, ok: bool)
    requires Inv(s) && RaceFree(s)
    ensures Inv(Step(s, Send(w, ok)))
  {
    var t := Step(s, Send(w, ok));
    if w < |s.workers| && s.workers[w].Built? {
      if ok {
        SentKeepsInv(s, w);
      } else {
        StillUnderWay(s, t, w);
        forall x | 0 <= x < |t.workers| ensures WorkerSound(t, t.workers[x]) {
          assert WorkerSound(s, s.workers[x]);
        }
      }
    }
  }

  lemma FlagKeepsInv(s: State, w: nat)
    requires Inv(s) && RaceFree(s)
    ensures Inv(Step(s, Flag(w)))
  {
    var t := Step(s, Flag(w));
    if w < |s.workers| && s.workers[w].Published? {
      assert WorkerSound(s, s.workers[w]);
      forall x | 0 <= x < |t.workers| ensures WorkerSound(t, t.workers[x]) {
        assert WorkerSound(s, s.workers[x]);
        if x != w && !s.workers[x].Idle? {
          OtherLegs(s, x, w);
        }
      }
      forall leg: nat | InLog(t.published, leg) && leg !in t.sent ensures UnderWay(t, leg) {
        var u :| 0 <= u < |s.workers| && s.workers[u].Published? && s.workers[u].leg == leg;
        assert t.workers[u] == s.workers[u];
      }
    }
  }

  lemma RemoveKeepsInv(s: State, w: nat)
    requires Inv(s) && RaceFree(s)
    ensures Inv(Step(s, Remove(w)))
  {
    var t := Step(s, Remove(w));
    if w < |s.workers| && s.workers[w].Flagged? {
      assert WorkerSound(s, s.workers[w]);
      StillUnderWay(s, t, w);
      forall x | 0 <= x < |t.workers| ensures WorkerSound(t, t.workers[x]) {
        assert WorkerSound(s, s.workers[x]);
        if x != w && !s.workers[x].Idle? {
          OtherLegs(s, x, w);
        }
      }
    }
  }

  lemma FillKeepsInv(s: State, key: string, tid: int)
    requires Inv(s)
    ensures Inv(Step(s, Fill(key, tid)))
  {
    var t := Step(s, Fill(key, tid));
    StillUnderWay(s, t, 0);
    forall x | 0 <= x < |t.workers| ensures WorkerSound(t, t.workers[x]) {
      assert WorkerSound(s, s.workers[x]);
    }
  }

  lemma RequestKeepsInv(s: State, key: string)
    requires Inv(s)
    ensures Inv(Step(s, Request(key)))
  {
    var t := Step(s, Request(key));
    StillUnderWay(s, t, 0);
    forall x | 0 <= x < |t.workers| ensures WorkerSound(t, t.workers[x]) {
      assert WorkerSound(s, s.workers[x]);
    }
  }

  lemma StepKeepsInv(s: State, e: Event)
    requires Inv(s) && RaceFree(s) && RaceFree(Step(s, e))
    ensures Inv(Step(s, e))
  {
    match e
    case Fill(key, tid) => FillKeepsInv(s, key, tid);
    case Request(key) => RequestKeepsInv(s, key);
    case Look(w, i) => LookKeepsInv(s, w, i);
    case Build(w) => BuildKeepsInv(s, w);
    case Send(w, ok) => SendKeepsInv(s, w, ok);
    case Flag(w) => FlagKeepsInv(s, w);
    case Remove(w) => RemoveKeepsInv(s, w);
  }

  lemma {:induction false} RunKeepsInv(workers: nat, es: seq<Event>)
    requires RaceFreeRun(Init(workers), es)
    ensures Inv(Run(Init(workers), es))
  {
    if es != [] {
      RunKeepsInv(workers, es[..|es| - 1]);
      StepKeepsInv(Run(Init(workers), es[..|es| - 1]), es[|es| - 1]);
    }
  }

  // ----- Main results -----

  // While no two flushes of one key are in flight, no leg is published twice.
  lemma PublishedOnce(workers: nat, es: seq<Event>)
    requires RaceFreeRun(Init(workers), es)
    ensures OncePerLeg(Run(Init(workers), es).published)
  {
    RunKeepsInv(workers, es);
  }

  lemma {:induction false} RunConcat(s: State, a: seq<Event>, b: seq<Event>)
    ensures Run(s, a + b) == Run(Run(s, a), b)
    decreases |b|
  {
    if b == [] {
      assert a + b == a;
    } else {
      assert (a + b)[..|a + b| - 1] == a + b[..|b| - 1];
      RunConcat(s, a, b[..|b| - 1]);
    }
  }

  lemma RunOne(s: State, e: Event)
    ensures Run(s, [e]) == Step(s, e)
  {
    assert [e][..0] == [];
  }

  lemma RunTwo(s: State, x: Event, y: Event)
    ensures Run(s, [x, y]) == Step(Step(s, x), y)
  {
    assert [x, y][..1] == [x];
    RunOne(s, x);
  }

  // A worker that has found a leg goes on to publish it.
  lemma Publishes(s: State, w: nat)
    requires w < |s.workers| && s.workers[w].Loaded? && s.workers[w].leg < |s.fills|
    ensures var t := Run(s, [Build(w), Send(w, true)]);
            && |t.published| == |s.published| + 1 && t.published[..|s.published|] == s.published
            && t.published[|s.published|].leg == s.workers[w].leg && t.fills == s.fills
            && |t.workers| == |s.workers|
            && forall x :: 0 <= x < |s.workers| && x != w ==> t.workers[x] == s.workers[x]
  {
    RunTwo(s, Build(w), Send(w, true));
  }

  // With one signal for a leg out, a worker that has found it publishes another.
  lemma PublishesAgain(s: State, n: nat, v: nat)
    requires n < |s.published| && v < |s.workers| && s.workers[v].Loaded?
    requires s.published[n].leg == s.workers[v].leg < |s.fills|
    ensures !OncePerLeg(Run(s, [Build(v), Send(v, true)]).published)
  {
    Publishes(s, v);
    var log := Run(s, [Build(v), Send(v, true)]).published;
    assert log[n] == log[..|s.published|][n] && log[n].leg == log[|s.published|].leg;
  }

  lemma BothPublish(t: State, u: nat, v: nat)
    requires u < |t.workers| && v < |t.workers| && u != v && (t.workers[u].Loaded? || t.workers[u].Built?)
    requires t.workers[v].Loaded? && t.workers[v].leg == t.workers[u].leg < |t.fills|
    ensures var first := if t.workers[u].Built? then [Send(u, true)] else [Build(u), Send(u, true)];
            !OncePerLeg(Run(t, first + [Build(v), Send(v, true)]).published)
  {
    var first := if t.workers[u].Built? then [Send(u, true)] else [Build(u), Send(u, true)];
    if t.workers[u].Built? {
      RunOne(t, Send(u, true));
    } else {
      Publishes(t, u);
    }
    RunConcat(t, first, [Build(v), Send(v, true)]);
    PublishesAgain(Run(t, first), |t.published|, v);
  }

  // As soon as two are, the workers can go on to publish one leg twice.
  lemma RaceRepublishes(workers: nat, es: seq<Event>, e: Event) returns (more: seq<Event>)
    requires RaceFreeRun(Init(workers), es) && !RaceFree(Step(Run(Init(workers), es), e))
    ensures !OncePerLeg(Run(Step(Run(Init(workers), es), e), more).published)
  {
    var s := Run(Init(workers), es);
    var t := Step(s, e);
    RunKeepsInv(workers, es);
    var u, v := FirstRace(s, e);
    assert WorkerSound(s, s.workers[u]);
    if t.workers[u].Published? {
      more := [Build(v), Send(v, true)];
      var n :| 0 <= n < |t.published| && t.published[n].leg == t.workers[v].leg;
      PublishesAgain(t, n, v);
    } else {
      more := (if t.workers[u].Built? then [Send(u, true)] else [Build(u), Send(u, true)]) + [Build(v), Send(v, true)];
      BothPublish(t, u, v);
    }
  }

  // The race begins with a look-up of a leg that another worker has under way.
  lemma FirstRace(s: State, e: Event) returns (u: nat, v: nat)
    requires Inv(s) && RaceFree(s) && !RaceFree(Step(s, e))
    ensures var t := Step(s, e);
            && u < |s.workers| == |t.workers| && v < |t.workers| && u != v
            && t.workers[u] == s.workers[u] && (t.workers[u].Loaded? || t.workers[u].Built? || t.workers[u].Published?)
            && t.workers[v].Loaded? && t.workers[v].leg == t.workers[u].leg && t.published == s.published
            && t.fills == s.fills
  {
    var t := Step(s, e);
    var x, y :| 0 <= x < y < |t.workers| && !t.workers[x].Idle? && !t.workers[y].Idle? &&
                t.workers[x].key == t.workers[y].key;
    assert e.Look?;
    v := e.w;
    u := if x == v then y else x;
    assert WorkerSound(s, s.workers[u]);
  }

  lemma TwoRequests(key: string, tid: int)
    ensures var s := Run(Init(2), [Fill(key, tid), Request(key)] + [Request(key), Look(0, 0)]);
            && s.pending == map[key := 0] && s.fills == [[tid]] && s.sent == {} && s.requests == [key]
            && s.published == [] && s.workers == [Loaded(key, 0), Idle]
  {
    RunConcat(Init(2), [Fill(key, tid), Request(key)], [Request(key), Look(0, 0)]);
    RunTwo(Init(2), Fill(key, tid), Request(key));
    RunTwo(Run(Init(2), [Fill(key, tid), Request(key)]), Request(key), Look(0, 0));
  }

  // Such a schedule of two workers: both look up the leg before either flags it.
  lemma TwoWorkersPublishTwice(key: string, tid: int)
    ensures !OncePerLeg(Run(Init(2), ([Fill(key, tid), Request(key)] + [Request(key), Look(0, 0)])
                            + ([Look(1, 0)] + ([Build(0), Send(0, true)] + [Build(1), Send(1, true)]))).published)
  {
    var half := [Fill(key, tid), Request(key)] + [Request(key), Look(0, 0)];
    var rest := [Build(0), Send(0, true)] + [Build(1), Send(1, true)];
    TwoRequests(key, tid);
    var s := Run(Init(2), half);
    RunOne(s, Look(1, 0));
    BothPublish(Step(s, Look(1, 0)), 0, 1);
    RunConcat(s, [Look(1, 0)], rest);
    RunConcat(Init(2), half, [Look(1, 0)] + rest);
  }

  // ----- Fills that arrive during a flush -----

  predicate Drafted(s: State, leg: nat) {
    exists w :: 0 <= w < |s.workers| && s.workers[w].Built? && s.workers[w].leg == leg
  }

  // The legs that accepted a fill after their signal was built: not flagged yet,
  // so the fill is appended, but the signal is of the fills before.  A draft that
  // cannot be sent is built anew later.
  function LateNext(s: State, late: set<nat>, e: Event): set<nat> {
    match e
    case Fill(key, _) =>
      if key in s.pending && s.pending[key] !in s.sent &&
         (Drafted(s, s.pending[key]) || InLog(s.published, s.pending[key]))
      then late + {s.pending[key]} else late
    case Send(w, ok) =>
      if !ok && w < |s.workers| && s.workers[w].Built? then late - {s.workers[w].leg} else late
    case _ => late
  }

  function Late(s: State, es: seq<Event>): set<nat> {
    if es == [] then {}
    else LateNext(Run(s, es[..|es| - 1]), Late(s, es[..|es| - 1]), es[|es| - 1])
  }

  // What was taken of a leg's fills is all of them unless the leg is late.
  predicate Taken(s: State, late: set<nat>, leg: nat, fills: seq<int>) {
    leg < |s.fills| && fills <= s.fills[leg] && (leg in late <==> fills != s.fills[leg])
  }

  predicate Tracks(s: State, late: set<nat>) {
    && (forall i :: 0 <= i < |s.published| ==> Taken(s, late, s.published[i].leg, s.published[i].fills))
    && (forall w :: 0 <= w < |s.workers| && s.workers[w].Built? ==>
          Taken(s, late, s.workers[w].leg, s.workers[w].fills))
    && (forall leg :: leg in late ==> Drafted(s, leg) || InLog(s.published, leg))
  }

  lemma StillDrafted(s: State, t: State, w: nat)
    requires |t.workers| == |s.workers|
    requires forall x :: 0 <= x < |s.workers| && (x != w || s.workers[x].Built?) ==> t.workers[x] == s.workers[x]
    ensures forall leg :: Drafted(s, leg) ==> Drafted(t, leg)
  {
    forall leg | Drafted(s, leg) ensures Drafted(t, leg) {
      var x :| 0 <= x < |s.workers| && s.workers[x].Built? && s.workers[x].leg == leg;
      assert t.workers[x] == s.workers[x];
    }
  }

  lemma TakenOf(s: State, late: set<nat>, i: nat)
    requires Tracks(s, late) && i < |s.published|
    ensures Taken(s, late, s.published[i].leg, s.published[i].fills)
  {
  }

  lemma AppendTracks(s: State, late: set<nat>, key: string, tid: int)
    requires Inv(s) && Tracks(s, late) && key in s.pending && s.pending[key] !in s.sent
    ensures Tracks(Step(s, Fill(key, tid)), LateNext(s, late, Fill(key, tid)))
  {
    var t, leg := Step(s, Fill(key, tid)), s.pending[key];
    var next := LateNext(s, late, Fill(key, tid));
    StillDrafted(s, t, 0);
    assert leg in next <==> leg in late || Drafted(s, leg) || InLog(s.published, leg);
    forall l: nat, fills | Taken(s, late, l, fills) && (Drafted(s, l) || InLog(s.published, l))
      ensures Taken(t, next, l, fills)
    {
      if l == leg {
        assert fills <= s.fills[l] <= t.fills[l] && |fills| < |t.fills[l]|;
      }
    }
    forall i | 0 <= i < |t.published| ensures Taken(t, next, t.published[i].leg, t.published[i].fills) {
      TakenOf(s, late, i);
    }
  }

  lemma CreateTracks(s: State, late: set<nat>, key: string, tid: int)
    requires Inv(s) && Tracks(s, late) && key !in s.pending
    ensures Tracks(Step(s, Fill(key, tid)), late)
  {
    var t := Step(s, Fill(key, tid));
    StillDrafted(s, t, 0);
    forall i | 0 <= i < |t.published| ensures Taken(t, late, t.published[i].leg, t.published[i].fills) {
      TakenOf(s, late, i);
    }
  }

  lemma BuildTracks(s: State, late: set<nat>, w: nat)
    requires Inv(s) && RaceFree(s) && Tracks(s, late) && w < |s.workers| && s.workers[w].Loaded?
    ensures Tracks(Step(s, Build(w)), late)
  {
    var t, leg := Step(s, Build(w)), s.workers[w].leg;
    assert WorkerSound(s, s.workers[w]);
    StillDrafted(s, t, w);
    if Drafted(s, leg) {
      var x :| 0 <= x < |s.workers| && s.workers[x].Built? && s.workers[x].leg == leg;
      OtherLegs(s, x, w);
    }
    forall i | 0 <= i < |t.published| ensures Taken(t, late, t.published[i].leg, t.published[i].fills) {
      TakenOf(s, late, i);
    }
  }

  lemma SendTracks(s: State, late: set<nat>, w: nat)
    requires Inv(s) && Tracks(s, late) && w < |s.workers| && s.workers[w].Built?
    ensures Tracks(Step(s, Send(w, true)), late)
  {
    var t := Step(s, Send(w, true));
    var leg := s.workers[w].leg;
    forall i | 0 <= i < |t.published| ensures Taken(t, late, t.published[i].leg, t.published[i].fills) {
      if i < |s.published| {
        TakenOf(s, late, i);
      }
    }
    forall l | l in late ensures Drafted(t, l) || InLog(t.published, l) {
      InLogSnoc(s.published, t.published[|s.published|], l);
      if Drafted(s, l) && l != leg {
        var x :| 0 <= x < |s.workers| && s.workers[x].Built? && s.workers[x].leg == l;
        assert t.workers[x] == s.workers[x];
      }
    }
  }

  lemma DiscardTracks(s: State, late: set<nat>, w: nat)
    requires Inv(s) && RaceFree(s) && Tracks(s, late) && w < |s.workers| && s.workers[w].Built?
    ensures Tracks(Step(s, Send(w, false)), late - {s.workers[w].leg})
  {
    var t, leg := Step(s, Send(w, false)), s.workers[w].leg;
    assert WorkerSound(s, s.workers[w]);
    forall i | 0 <= i < |t.published| ensures Taken(t, late - {leg}, t.published[i].leg, t.published[i].fills) {
      TakenOf(s, late, i);
      assert t.published[i].leg != leg;
    }
    forall x | 0 <= x < |t.workers| && t.workers[x].Built?
      ensures Taken(t, late - {leg}, t.workers[x].leg, t.workers[x].fills)
    {
      OtherLegs(s, x, w);
    }
    forall l | l in late - {leg} ensures Drafted(t, l) || InLog(t.published, l) {
      if Drafted(s, l) {
        var x :| 0 <= x < |s.workers| && s.workers[x].Built? && s.workers[x].leg == l;
        assert t.workers[x] == s.workers[x];
      }
    }
  }

  // The steps that neither draft nor publish nor add a fill.
  lemma QuietTracks(s: State, t: State, late: set<nat>, w: nat)
    requires Tracks(s, late) && t.published == s.published && t.fills == s.fills && |t.workers| == |s.workers|
    requires forall x :: 0 <= x < |s.workers| && (x != w || s.workers[x].Built?) ==> t.workers[x] == s.workers[x]
    requires w < |t.workers| && t.workers[w].Built? ==> t.workers[w] == s.workers[w]
    ensures Tracks(t, late)
  {
    StillDrafted(s, t, w);
    forall i | 0 <= i < |t.published| ensures Taken(t, late, t.published[i].leg, t.published[i].fills) {
      TakenOf(s, late, i);
    }
  }

  lemma StepTracks(s: State, late: set<nat>, e: Event)
    requires Inv(s) && RaceFree(s) && Tracks(s, late)
    ensures Tracks(Step(s, e), LateNext(s, late, e))
  {
    match e
    case Fill(key, tid) =>
      if key !in s.pending {
        CreateTracks(s, late, key, tid);
      } else if s.pending[key] !in s.sent {
        AppendTracks(s, late, key, tid);
      }
    case Request(_) => QuietTracks(s, Step(s, e), late, 0);
    case Look(w, _) => QuietTracks(s, Step(s, e), late, w);
    case Build(w) =>
      if w < |s.workers| && s.workers[w].Loaded? {
        BuildTracks(s, late, w);
      }
    case Send(w, ok) =>
      if w < |s.workers| && s.workers[w].Built? {
        if ok { SendTracks(s, late, w); } else { DiscardTracks(s, late, w); }
      }
    case Flag(w) => QuietTracks(s, Step(s, e), late, w);
    case Remove(w) => QuietTracks(s, Step(s, e), late, w);
  }

  lemma {:induction false} RunTracks(workers: nat, es: seq<Event>)
    requires RaceFreeRun(Init(workers), es)
    ensures Tracks(Run(Init(workers), es), Late(Init(workers), es))
  {
    if es != [] {
      var front := es[..|es| - 1];
      RunTracks(workers, front);
      RunKeepsInv(workers, front);
      StepTracks(Run(Init(workers), front), Late(Init(workers), front), es[|es| - 1]);
    }
  }

  // In a race-free run a signal carries the first fills of its leg, and all that
  // the leg ever accepts if and only if none was accepted between the building
  // of the signal and the flag.
  lemma SignalMissesIff(workers: nat, es: seq<Event>, i: nat)
    requires RaceFreeRun(Init(workers), es) && i < |Run(Init(workers), es).published|
    ensures var s := Run(Init(workers), es);
            var signal := s.published[i];
            && signal.leg < |s.fills| && signal.fills <= s.fills[signal.leg]
            && (signal.fills == s.fills[signal.leg] <==> signal.leg !in Late(Init(workers), es))
  {
    RunTracks(workers, es);
    TakenOf(Run(Init(workers), es), Late(Init(workers), es), i);
  }

  // A fill that arrives between the two is accepted, and flagged as sent and
  // removed with its leg, but it is in no signal.
  lemma FillInTheGap(s: State, w: nat, tid: int)
    requires w < |s.workers| && s.workers[w].Built? && s.workers[w].leg < |s.fills|
    requires s.workers[w].key in s.pending && s.pending[s.workers[w].key] == s.workers[w].leg && s.workers[w].leg !in s.sent
    ensures var key, leg := s.workers[w].key, s.workers[w].leg;
            var t := Run(s, [Fill(key, tid), Send(w, true)] + [Flag(w), Remove(w)]);
            && t.fills == s.fills[leg := s.fills[leg] + [tid]]
            && t.published == s.published + [Signal(leg, s.workers[w].fills)]
            && leg in t.sent && key !in t.pending
  {
    var key, leg := s.workers[w].key, s.workers[w].leg;
    RunTwo(s, Fill(key, tid), Send(w, true));
    var t := Run(s, [Fill(key, tid), Send(w, true)]);
    RunTwo(t, Flag(w), Remove(w));
    RunConcat(s, [Fill(key, tid), Send(w, true)], [Flag(w), Remove(w)]);
  }

  lemma LooksAndBuilds(s: State, key: string)
    requires s.workers == [Idle] && s.requests == [key] && key in s.pending
    requires s.pending[key] !in s.sent && s.pending[key] < |s.fills|
    ensures Run(s, [Look(0, 0), Build(0)]) ==
            s.(requests := [], workers := [Built(key, s.pending[key], s.fills[s.pending[key]])])
  {
    var leg := s.pending[key];
    assert s.requests[..0] + s.requests[1..] == [];
    assert Step(s, Look(0, 0)) == s.(requests := [], workers := [Loaded(key, leg)]);
    RunTwo(s, Look(0, 0), Build(0));
  }

  lemma FirstRequest(key: string, tid: int)
    ensures Run(Init(1), [Fill(key, tid), Request(key)]) == State([key], [[tid]], map[key := 0], {}, [key], [Idle], [])
  {
    RunTwo(Init(1), Fill(key, tid), Request(key));
  }

  // Such a state is reached with the first fill.
  lemma BuiltAtOnce(key: string, tid: int)
    ensures Run(Init(1), [Fill(key, tid), Request(key)] + [Look(0, 0), Build(0)]) ==
            State([key], [[tid]], map[key := 0], {}, [], [Built(key, 0, [tid])], [])
  {
    FirstRequest(key, tid);
    LooksAndBuilds(Run(Init(1), [Fill(key, tid), Request(key)]), key);
    RunConcat(Init(1), [Fill(key, tid), Request(key)], [Look(0, 0), Build(0)]);
  }
}
