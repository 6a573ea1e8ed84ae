// nextNonce as a lock-free protocol: any number of threads, each step of the
// compare-and-swap loop (load, clock read, CAS) a step of its own.
module NonceProtocol {

  datatype Pc =
    | Ready                              // before the load: a new call, or a retry
    | Loaded(last: int)
    | Decided(last: int, reading: int, candidate: int)

  // returned: the nonces in the order the successful CAS steps published them;
  // readings: for each of them the clock reading of its own attempt;
  // clocks: every clock reading.
  datatype State = State(
    lastNonce: int, threads: seq<Pc>, returned: seq<int>, readings: seq<int>, clocks: seq<int>)

  function Init(lastNonce: int, threads: nat): State {
    State(lastNonce, seq(threads, _ => Ready), [], [], [])
  }

  datatype Event =
    | Load(t: nat)
    | ReadClock(t: nat, now: int)
    | CompareAndSwap(t: nat)

  function Candidate(last: int, now: int): int {
    if now <= last then last + 1 else now
  }

  function Step(s: State, e: Event): State {
    if e.t >= |s.threads| then s
    else
      match (e, s.threads[e.t])
      case (Load(t), Ready) => s.(threads := s.threads[t := Loaded(s.lastNonce)])
      case (ReadClock(t, now), Loaded(last)) =>
        s.(threads := s.threads[t := Decided(last, now, Candidate(last, now))], clocks := s.clocks + [now])
      case (CompareAndSwap(t), Decided(last, reading, candidate)) =>
        if s.lastNonce == last
        then s.(lastNonce := candidate, threads := s.threads[t := Ready],
                returned := s.returned + [candidate], readings := s.readings + [reading])
        else s.(threads := s.threads[t := Ready])
      case _ => s
  }

  function Run(s: State, es: seq<Event>): State {
    if es == [] then s else Step(Run(s, es[..|es| - 1]), es[|es| - 1])
  }

  function Larger(a: int, b: int): int { if a < b then b else a }

  function Ceiling(initial: int, clocks: seq<int>): int {
    if clocks == [] then initial else Larger(Ceiling(initial, clocks[..|clocks| - 1]), clocks[|clocks| - 1])
  }

  predicate Increasing(s: seq<int>) {
    forall i, j :: 0 <= i < j < |s| ==> s[i] < s[j]
  }

  predicate ThreadOk(s: State, initial: int, p: Pc) {
    match p
    case Ready => true
    case Loaded(last) => last <= s.lastNonce
    case Decided(last, _, candidate) =>
      && last <= s.lastNonce && last < candidate
      && (candidate == last + 1 || candidate <= Ceiling(initial, s.clocks))
  }

  predicate Inv(s: State, initial: int) {
    && s.lastNonce == (if s.returned == [] then initial else s.returned[|s.returned| - 1])
    && Increasing(s.returned) && (s.returned != [] ==> initial < s.returned[0])
    && (forall i :: 0 <= i < |s.returned| ==> s.returned[i] <= Ceiling(initial, s.clocks) + i + 1)
    && (forall t :: 0 <= t < |s.threads| ==> ThreadOk(s, initial, s.threads[t]))
    && initial <= Ceiling(initial, s.clocks)
  }

  lemma CeilingGrows(initial: int, clocks: seq<int>, now: int)
    ensures Ceiling(initial, clocks + [now]) == Larger(Ceiling(initial, clocks), now)
  {
    assert (clocks + [now])[..|clocks|] == clocks;
  }

  lemma StepKeepsInv(s: State, e: Event, initial: int)
    requires Inv(s, initial)
    ensures Inv(Step(s, e), initial)
  {
    var u := Step(s, e);
    if e.ReadClock? {
      CeilingGrows(initial, s.clocks, e.now);
    }
    forall t | 0 <= t < |u.threads| ensures ThreadOk(u, initial, u.threads[t]) {
      assert ThreadOk(s, initial, s.threads[t]);
      if e.t < |s.threads| {
        assert ThreadOk(s, initial, s.threads[e.t]);
      }
    }
    if e.CompareAndSwap? && e.t < |s.threads| {
      assert ThreadOk(s, initial, s.threads[e.t]);
    }
  }

  lemma {:induction false} RunKeepsInv(lastNonce: int, threads: nat, es: seq<Event>)
    ensures Inv(Run(Init(lastNonce, threads), es), lastNonce)
  {
    if es != [] {
      RunKeepsInv(lastNonce, threads, es[..|es| - 1]);
      StepKeepsInv(Run(Init(lastNonce, threads), es[..|es| - 1]), es[|es| - 1], lastNonce);
    }
  }

  // For any number of threads, any interleaving and any clock: nonces are
  // strictly increasing in publication order, hence pairwise distinct, and all
  // lie above the initial value.
  lemma NoncesIncrease(initial: int, threads: nat, es: seq<Event>, i: nat, j: nat)
    requires i < j < |Run(Init(initial, threads), es).returned|
    ensures var s := Run(Init(initial, threads), es);
            initial < s.returned[i] < s.returned[j]
  {
    RunKeepsInv(initial, threads, es);
  }

  // A nonce never exceeds the largest of the initial value and the clock
  // readings by more than the number of calls that returned so far.
  lemma NoncesAreBounded(initial: int, threads: nat, es: seq<Event>, i: nat)
    requires i < |Run(Init(initial, threads), es).returned|
    ensures var s := Run(Init(initial, threads), es);
            && initial < s.returned[i] <= s.lastNonce
            && s.returned[i] <= Ceiling(initial, s.clocks) + i + 1
  {
    RunKeepsInv(initial, threads, es);
  }

  // A CAS fails only because another call published a larger nonce since the
  // load: some call always makes progress.
  lemma FailureMeansProgress(initial: int, threads: nat, es: seq<Event>, t: nat)
    requires var s := Run(Init(initial, threads), es);
             t < |s.threads| && s.threads[t].Decided? && Step(s, CompareAndSwap(t)).returned == s.returned
    ensures var s := Run(Init(initial, threads), es);
            s.returned != [] && s.threads[t].last < s.returned[|s.returned| - 1]
  {
    RunKeepsInv(initial, threads, es);
    var s := Run(Init(initial, threads), es);
    assert ThreadOk(s, initial, s.threads[t]);
    LoadedIsPublished(initial, threads, es, t);
  }

  // What a thread has loaded is the initial value or a published nonce.
  lemma {:induction false} LoadedIsPublished(initial: int, threads: nat, es: seq<Event>, t: nat)
    requires t < |Run(Init(initial, threads), es).threads|
    ensures var s := Run(Init(initial, threads), es);
            !s.threads[t].Ready? ==> s.threads[t].last == initial || s.threads[t].last in s.returned
  {
    if es != [] {
      var before := Run(Init(initial, threads), es[..|es| - 1]);
      RunKeepsInv(initial, threads, es[..|es| - 1]);
      LoadedIsPublished(initial, threads, es[..|es| - 1], t);
    }
  }

  // ----- Nonces follow the clock -----

  // A decided thread's reading is that of its last look at the clock, in its
  // present attempt.
  predicate ReadAt(initial: int, threads: nat, es: seq<Event>, t: nat, j: nat, reading: int) {
    && j < |es| && es[j] == ReadClock(t, reading)
    && (var before := Run(Init(initial, threads), es[..j]); t < |before.threads| && before.threads[t].Loaded?)
    && forall k :: j < k < |es| ==> es[k] != CompareAndSwap(t)
  }

  lemma {:induction false} OwnReading(initial: int, threads: nat, es: seq<Event>, t: nat) returns (j: nat)
    requires var s := Run(Init(initial, threads), es); t < |s.threads| && s.threads[t].Decided?
    ensures ReadAt(initial, threads, es, t, j, Run(Init(initial, threads), es).threads[t].reading)
  {
    var n := |es| - 1;
    var before := Run(Init(initial, threads), es[..n]);
    if before.threads[t].Decided? {
      j := OwnReading(initial, threads, es[..n], t);
      assert es[..n][..j] == es[..j];
      assert forall k :: j < k < n ==> es[..n][k] == es[k];
    } else {
      j := n;
    }
  }

  // The nonce published before the i-th one.
  function Previous(initial: int, returned: seq<int>, i: nat): int
    requires i <= |returned|
  {
    if i == 0 then initial else returned[i - 1]
  }

  predicate DecidesByClock(p: Pc) {
    p.Decided? ==> p.candidate == if p.reading > p.last then p.reading else p.last + 1
  }

  predicate ClockInv(s: State, initial: int) {
    && s.lastNonce == Previous(initial, s.returned, |s.returned|) && Follow(initial, s.returned, s.readings)
    && (forall t :: 0 <= t < |s.threads| ==> DecidesByClock(s.threads[t]))
  }

  predicate Follow(initial: int, returned: seq<int>, readings: seq<int>) {
    && |readings| == |returned|
    && (forall i :: 0 <= i < |returned| ==>
          var previous := Previous(initial, returned, i);
          returned[i] == if readings[i] > previous then readings[i] else previous + 1)
  }

  lemma FollowSnoc(initial: int, returned: seq<int>, readings: seq<int>, nonce: int, reading: int)
    requires Follow(initial, returned, readings)
    requires var previous := Previous(initial, returned, |returned|);
             nonce == if reading > previous then reading else previous + 1
    ensures Follow(initial, returned + [nonce], readings + [reading])
  {
    var all := returned + [nonce];
    forall i | 0 <= i < |all| ensures Previous(initial, all, i) == Previous(initial, returned, i) {
    }
  }

  lemma StepKeepsClockInv(s: State, e: Event, initial: int)
    requires ClockInv(s, initial)
    ensures ClockInv(Step(s, e), initial)
  {
    if e.t < |s.threads| {
      var p := s.threads[e.t];
      assert DecidesByClock(p);
      if e.CompareAndSwap? && p.Decided? && p.last == s.lastNonce {
        FollowSnoc(initial, s.returned, s.readings, p.candidate, p.reading);
      }
    }
  }

  lemma {:induction false} RunKeepsClockInv(initial: int, threads: nat, es: seq<Event>)
    ensures ClockInv(Run(Init(initial, threads), es), initial)
  {
    if es != [] {
      RunKeepsClockInv(initial, threads, es[..|es| - 1]);
      StepKeepsClockInv(Run(Init(initial, threads), es[..|es| - 1]), es[|es| - 1], initial);
    }
  }

  // Every nonce is the clock reading of its own attempt if that is above the
  // nonce published before it (or the initial value), and one more than that
  // nonce otherwise; so it never lies below its reading.
  lemma NonceFollowsClock(initial: int, threads: nat, es: seq<Event>, i: nat)
    requires i < |Run(Init(initial, threads), es).returned|
    ensures var s := Run(Init(initial, threads), es);
            && |s.readings| == |s.returned| && s.readings[i] <= s.returned[i]
            && var previous := if i == 0 then initial else s.returned[i - 1];
               s.returned[i] == if s.readings[i] > previous then s.readings[i] else previous + 1
  {
    RunKeepsClockInv(initial, threads, es);
  }

  // The logged reading is the one of the attempt: what a successful swap logs is
  // what its thread read from the clock after its last load.
  lemma LoggedReading(initial: int, threads: nat, es: seq<Event>, t: nat) returns (j: nat)
    requires var s := Run(Init(initial, threads), es);
             |Step(s, CompareAndSwap(t)).returned| > |s.returned|
    ensures var s := Run(Init(initial, threads), es);
            var u := Step(s, CompareAndSwap(t));
            && |u.readings| == |s.readings| + 1
            && ReadAt(initial, threads, es, t, j, u.readings[|s.readings|])
  {
    j := OwnReading(initial, threads, es, t);
  }
}
