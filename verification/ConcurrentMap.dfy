// concurrent.Map at the granularity of its atomic operations: a call first
// acts on the underlying map and then, in a separate step, on the counter.
module ConcurrentMap {

  datatype Pc<K, V> =
    | Idle
    | Adjusting(delta: int)       // the counter update that is still to come
    | Overwriting(k: K, v: V)     // Store's second write, on a key found present

  // resurrected: how often Store's second write found its key deleted meanwhile.
  datatype State<K, V> = State(data: map<K, V>, length: int, threads: seq<Pc<K, V>>, resurrected: nat)

  datatype Event<K, V> =
    | LoadOrStore(t: nat, k: K, v: V)
    | LoadAndDelete(t: nat, k: K)           // also Delete
    | Swap(t: nat, k: K, v: V)
    | CompareAndDelete(t: nat, k: K, v: V)
    | CompareAndSwap(t: nat, k: K, v: V, w: V)
    | Store(t: nat, k: K, v: V)
    | Continue(t: nat)

  function Init<K, V>(threads: nat): State<K, V> {
    State(map[], 0, seq(threads, _ => Idle), 0)
  }

  function Insert<K, V>(s: State<K, V>, t: nat, k: K, v: V): State<K, V>
    requires t < |s.threads|
  {
    s.(data := s.data[k := v], threads := s.threads[t := Adjusting(1)])
  }

  function Remove<K, V>(s: State<K, V>, t: nat, k: K): State<K, V>
    requires t < |s.threads|
  {
    s.(data := s.data - {k}, threads := s.threads[t := Adjusting(-1)])
  }

  function Step<K, V(==)>(s: State<K, V>, e: Event<K, V>): State<K, V> {
    if e.t >= |s.threads| then s
    else
      match (e, s.threads[e.t])
      case (LoadOrStore(t, k, v), Idle) => if k in s.data then s else Insert(s, t, k, v)
      case (LoadAndDelete(t, k), Idle) => if k in s.data then Remove(s, t, k) else s
      case (Swap(t, k, v), Idle) => if k in s.data then s.(data := s.data[k := v]) else Insert(s, t, k, v)
      case (CompareAndDelete(t, k, v), Idle) =>
        if k in s.data && s.data[k] == v then Remove(s, t, k) else s
      case (CompareAndSwap(t, k, v, w), Idle) =>
        if k in s.data && s.data[k] == v then s.(data := s.data[k := w]) else s
      case (Store(t, k, v), Idle) =>
        if k in s.data then s.(threads := s.threads[t := Overwriting(k, v)]) else Insert(s, t, k, v)
      case (Continue(t), Adjusting(delta)) =>
        s.(length := s.length + delta, threads := s.threads[t := Idle])
      case (Continue(t), Overwriting(k, v)) =>
        s.(data := s.data[k := v], threads := s.threads[t := Idle],
           resurrected := if k in s.data then s.resurrected else s.resurrected + 1)
      case _ => s
  }

  function Run<K, V(==)>(s: State<K, V>, es: seq<Event<K, V>>): State<K, V> {
    if es == [] then s else Step(Run(s, es[..|es| - 1]), es[|es| - 1])
  }

  function Delta<K, V>(p: Pc<K, V>): int {
    if p.Adjusting? then p.delta else 0
  }

  // Adjustments decided on the map but not yet applied to the counter.
  function Outstanding<K, V>(threads: seq<Pc<K, V>>): int {
    if threads == [] then 0 else Outstanding(threads[..|threads| - 1]) + Delta(threads[|threads| - 1])
  }

  lemma {:induction false} OutstandingUpdate<K, V>(threads: seq<Pc<K, V>>, t: nat, p: Pc<K, V>)
    requires t < |threads|
    ensures Outstanding(threads[t := p]) == Outstanding(threads) - Delta(threads[t]) + Delta(p)
  {
    var front := threads[..|threads| - 1];
    if t < |front| {
      OutstandingUpdate(front, t, p);
      assert threads[t := p][..|threads| - 1] == front[t := p];
    } else {
      assert threads[t := p][..|threads| - 1] == front;
    }
  }

  lemma {:induction false} NothingOutstanding<K, V>(threads: seq<Pc<K, V>>)
    requires forall t :: 0 <= t < |threads| ==> !threads[t].Adjusting?
    ensures Outstanding(threads) == 0
  {
    if threads != [] {
      NothingOutstanding(threads[..|threads| - 1]);
    }
  }

  lemma InsertedSize<K, V>(m: map<K, V>, k: K, v: V)
    ensures |m[k := v]| == if k in m then |m| else |m| + 1
    ensures |m - {k}| == if k in m then |m| - 1 else |m|
  {
    assert m[k := v].Keys == m.Keys + {k};
    assert (m - {k}).Keys == m.Keys - {k};
  }

  predicate Agrees<K, V>(s: State<K, V>) {
    |s.data| == s.length + Outstanding(s.threads) + s.resurrected
  }

  lemma InsertAgrees<K, V>(s: State<K, V>, t: nat, k: K, v: V)
    requires Agrees(s) && t < |s.threads| && s.threads[t].Idle? && k !in s.data
    ensures Agrees(Insert(s, t, k, v))
  {
    OutstandingUpdate(s.threads, t, Adjusting(1));
    InsertedSize(s.data, k, v);
  }

  lemma RemoveAgrees<K, V>(s: State<K, V>, t: nat, k: K)
    requires Agrees(s) && t < |s.threads| && s.threads[t].Idle? && k in s.data
    ensures Agrees(Remove(s, t, k))
  {
    OutstandingUpdate(s.threads, t, Adjusting(-1));
    InsertedSize(s.data, k, s.data[k]);
  }

  lemma ReplaceAgrees<K, V>(s: State<K, V>, k: K, v: V)
    requires Agrees(s) && k in s.data
    ensures Agrees(s.(data := s.data[k := v]))
  {
    InsertedSize(s.data, k, v);
  }

  lemma ContinueAgrees<K, V>(s: State<K, V>, t: nat)
    requires Agrees(s) && t < |s.threads|
    ensures Agrees(Step(s, Continue(t)))
  {
    OutstandingUpdate(s.threads, t, Idle);
    if s.threads[t].Overwriting? {
      InsertedSize(s.data, s.threads[t].k, s.threads[t].v);
    }
  }

  lemma StepAgrees<K, V>(s: State<K, V>, e: Event<K, V>)
    requires Agrees(s)
    ensures Agrees(Step(s, e))
  {
    if e.Continue? && e.t < |s.threads| {
      ContinueAgrees(s, e.t);
    } else if e.t < |s.threads| && s.threads[e.t].Idle? {
      if e.k !in s.data {
        if e.LoadOrStore? || e.Swap? || e.Store? {
          InsertAgrees(s, e.t, e.k, e.v);
        }
      } else if e.LoadAndDelete? || e.CompareAndDelete? {
        RemoveAgrees(s, e.t, e.k);
      } else if e.Swap? {
        ReplaceAgrees(s, e.k, e.v);
      } else if e.CompareAndSwap? {
        ReplaceAgrees(s, e.k, e.w);
      } else if e.Store? {
        OutstandingUpdate(s.threads, e.t, Overwriting(e.k, e.v));
      }
    }
  }

  // Under any interleaving of any number of threads: the size of the map is the
  // counter, plus the adjustments still to come, plus the uncounted insertions
  // of Store.
  lemma {:induction false} CounterAgreement<K, V>(threads: nat, es: seq<Event<K, V>>)
    ensures Agrees(Run(Init<K, V>(threads), es))
  {
    if es == [] {
      NothingOutstanding(Init<K, V>(threads).threads);
    } else {
      CounterAgreement<K, V>(threads, es[..|es| - 1]);
      StepAgrees(Run(Init<K, V>(threads), es[..|es| - 1]), es[|es| - 1]);
    }
  }

  predicate Quiescent<K, V>(s: State<K, V>) {
    forall t :: 0 <= t < |s.threads| ==> s.threads[t].Idle?
  }

  // The i-th step is a Store's second write, on a key that is gone.
  predicate ReinsertsAt<K, V(==)>(s: State<K, V>, es: seq<Event<K, V>>, i: nat) {
    i < |es| && es[i].Continue? &&
    var before := Run(s, es[..i]);
    es[i].t < |before.threads| && before.threads[es[i].t].Overwriting? && before.threads[es[i].t].k !in before.data
  }

  lemma ReinsertsInFront<K, V>(s: State<K, V>, es: seq<Event<K, V>>, i: nat)
    requires i < |es| - 1
    ensures ReinsertsAt(s, es[..|es| - 1], i) <==> ReinsertsAt(s, es, i)
  {
    assert es[..|es| - 1][..i] == es[..i];
  }

  lemma {:induction false} ResurrectedIff<K, V>(threads: nat, es: seq<Event<K, V>>)
    ensures Run(Init<K, V>(threads), es).resurrected > 0 <==> exists i: nat :: ReinsertsAt(Init<K, V>(threads), es, i)
  {
    if es != [] {
      var s, n := Init<K, V>(threads), |es| - 1;
      ResurrectedIff<K, V>(threads, es[..n]);
      LastReinserts(s, es);
      if i: nat :| ReinsertsAt(s, es[..n], i) {
        ReinsertsInFront(s, es, i);
      }
      if i: nat :| ReinsertsAt(s, es, i) {
        if i < n {
          ReinsertsInFront(s, es, i);
        }
      }
    }
  }

  lemma LastReinserts<K, V>(s: State<K, V>, es: seq<Event<K, V>>)
    requires es != []
    ensures Run(s, es).resurrected ==
            Run(s, es[..|es| - 1]).resurrected + if ReinsertsAt(s, es, |es| - 1) then 1 else 0
  {
  }

  // With no call in flight Len is exact if and only if no Store wrote over a
  // key that had been deleted under it.
  lemma LenIsExact<K, V>(threads: nat, es: seq<Event<K, V>>)
    requires Quiescent(Run(Init<K, V>(threads), es))
    ensures var s := Run(Init<K, V>(threads), es);
            s.length == |s.data| <==> !exists i: nat :: ReinsertsAt(Init<K, V>(threads), es, i)
  {
    CounterAgreement<K, V>(threads, es);
    NothingOutstanding(Run(Init<K, V>(threads), es).threads);
    ResurrectedIff<K, V>(threads, es);
  }

  // A thread between Store's two writes made the first one some steps ago.
  lemma {:induction false} FirstWrite<K, V>(threads: nat, es: seq<Event<K, V>>, t: nat) returns (j: nat)
    requires var s := Run(Init<K, V>(threads), es); t < |s.threads| && s.threads[t].Overwriting?
    ensures var pc := Run(Init<K, V>(threads), es).threads[t];
            && j < |es| && es[j] == Store(t, pc.k, pc.v)
            && pc.k in Run(Init<K, V>(threads), es[..j]).data
            && Run(Init<K, V>(threads), es[..j + 1]).data == Run(Init<K, V>(threads), es[..j]).data
  {
    var s, n := Init<K, V>(threads), |es| - 1;
    var before := Run(s, es[..n]);
    if t < |before.threads| && before.threads[t] == Run(s, es).threads[t] {
      j := FirstWrite<K, V>(threads, es[..n], t);
      assert es[..n][..j] == es[..j] && es[..n][..j + 1] == es[..j + 1];
    } else {
      j := n;
      assert es[..n + 1] == es;
      BeginsOverwriting(before, es[n], t);
    }
  }

  lemma BeginsOverwriting<K, V>(s: State<K, V>, e: Event<K, V>, t: nat)
    requires t < |Step(s, e).threads| && Step(s, e).threads[t].Overwriting?
    requires t < |s.threads| ==> s.threads[t] != Step(s, e).threads[t]
    ensures var pc := Step(s, e).threads[t];
            e == Store(t, pc.k, pc.v) && pc.k in s.data && Step(s, e).data == s.data
  {
  }

  // A key that is there after some steps and gone after more was removed in between.
  lemma {:induction false} Removal<K, V>(s: State<K, V>, es: seq<Event<K, V>>, j: nat, k: K) returns (r: nat)
    requires j <= |es| && k in Run(s, es[..j]).data && k !in Run(s, es).data
    ensures j <= r < |es| && k in Run(s, es[..r]).data && k !in Step(Run(s, es[..r]), es[r]).data
  {
    var n := |es| - 1;
    assert es[..|es|] == es;
    if k in Run(s, es[..n]).data {
      r := n;
    } else {
      assert es[..n][..j] == es[..j];
      r := Removal(s, es[..n], j, k);
      assert es[..n][..r] == es[..r];
    }
  }

  lemma OnlyRemovals<K, V>(s: State<K, V>, e: Event<K, V>, k: K)
    requires k in s.data && k !in Step(s, e).data
    ensures (e.LoadAndDelete? || e.CompareAndDelete?) && e.k == k
  {
  }

  // Behind every such second write is a removal of its key after the Store
  // found the key present.
  lemma RemovedUnderStore<K, V>(threads: nat, es: seq<Event<K, V>>, i: nat) returns (j: nat, r: nat)
    requires ReinsertsAt(Init<K, V>(threads), es, i)
    ensures j < r < i && es[j].Store? && es[j].t == es[i].t
    ensures (es[r].LoadAndDelete? || es[r].CompareAndDelete?) && es[r].k == es[j].k
    ensures var before := Run(Init<K, V>(threads), es[..r]);
            es[j].k in before.data && es[j].k !in Step(before, es[r]).data
  {
    var before := es[..i];
    j := FirstWrite<K, V>(threads, before, es[i].t);
    r := Removal(Init<K, V>(threads), before, j + 1, es[j].k);
    assert before[..r] == es[..r] && before[..j + 1] == es[..j + 1];
    OnlyRemovals(Run(Init<K, V>(threads), es[..r]), es[r], es[j].k);
  }

  // ----- What the calls do to the map -----

  // What a call does to the map when no other call overlaps it.
  function Alone<K, V(==)>(m: map<K, V>, e: Event<K, V>): map<K, V> {
    match e
    case LoadOrStore(_, k, v) => if k in m then m else m[k := v]
    case LoadAndDelete(_, k) => m - {k}
    case Swap(_, k, v) => m[k := v]
    case CompareAndDelete(_, k, v) => if (k, v) in m.Items then m - {k} else m
    case CompareAndSwap(_, k, v, w) => if (k, v) in m.Items then m[k := w] else m
    case Store(_, k, v) => m[k := v]
    case Continue(_) => m
  }

  lemma CallSteps<K, V>(s: State<K, V>, e: Event<K, V>)
    requires e.t < |s.threads| && s.threads[e.t].Idle? && !e.Continue?
    ensures var u := Step(Step(s, e), Continue(e.t));
            u.data == Alone(s.data, e) && u.threads == s.threads && u.resurrected == s.resurrected
  {
  }

  // By how much the map grows then.
  function Growth<K, V(==)>(m: map<K, V>, e: Event<K, V>): int {
    match e
    case LoadAndDelete(_, k) => if k in m then -1 else 0
    case CompareAndDelete(_, k, v) => if (k, v) in m.Items then -1 else 0
    case LoadOrStore(_, k, _) => if k in m then 0 else 1
    case Swap(_, k, _) => if k in m then 0 else 1
    case Store(_, k, _) => if k in m then 0 else 1
    case _ => 0
  }

  lemma RemovedSize<K, V>(m: map<K, V>, k: K)
    ensures |m - {k}| == if k in m then |m| - 1 else |m|
  {
    assert (m - {k}).Keys == m.Keys - {k};
  }

  lemma GrowthOf<K, V>(m: map<K, V>, e: Event<K, V>)
    ensures |Alone(m, e)| == |m| + Growth(m, e)
  {
    match e
    case LoadAndDelete(_, k) => RemovedSize(m, k);
    case CompareAndDelete(_, k, _) => RemovedSize(m, k);
    case LoadOrStore(_, k, v) => InsertedSize(m, k, v);
    case Swap(_, k, v) => InsertedSize(m, k, v);
    case Store(_, k, v) => InsertedSize(m, k, v);
    case CompareAndSwap(_, k, _, w) => InsertedSize(m, k, w);
    case Continue(_) =>
  }

  lemma CallCounts<K, V>(s: State<K, V>, e: Event<K, V>)
    requires e.t < |s.threads| && s.threads[e.t].Idle? && !e.Continue?
    ensures Step(Step(s, e), Continue(e.t)).length == s.length + Growth(s.data, e)
  {
  }

  // Every call of an idle thread does that, counts what it changed and leaves the
  // thread idle.
  lemma CallAlone<K, V>(s: State<K, V>, e: Event<K, V>)
    requires e.t < |s.threads| && s.threads[e.t].Idle? && !e.Continue?
    ensures var u := Run(s, [e, Continue(e.t)]);
            && u.data == Alone(s.data, e) && u.length - s.length == |u.data| - |s.data|
            && u.threads == s.threads && u.resurrected == s.resurrected
  {
    assert [e, Continue(e.t)][..1] == [e] && [e][..0] == [];
    assert Run(s, [e]) == Step(s, e);
    CallSteps(s, e);
    CallCounts(s, e);
    GrowthOf(s.data, e);
  }

  // The event cannot change the value v of key k: it is of another key, or it
  // loads, or it compares with another value.
  predicate Harmless<K(==), V(==)>(e: Event<K, V>, k: K, v: V) {
    match e
    case LoadOrStore(_, _, _) => true
    case CompareAndDelete(_, l, w) => l != k || w != v
    case CompareAndSwap(_, l, w, _) => l != k || w != v
    case Continue(_) => true
    case _ => e.k != k
  }

  predicate NotOverwritten<K(==), V>(s: State<K, V>, k: K) {
    forall t :: 0 <= t < |s.threads| && s.threads[t].Overwriting? ==> s.threads[t].k != k
  }

  // Under any interleaving: a value stays as long as no call may change it; so
  // the first LoadOrStore wins, and a comparison with another value has no effect.
  lemma {:induction false} ValueStays<K, V>(s: State<K, V>, es: seq<Event<K, V>>, k: K)
    requires k in s.data && NotOverwritten(s, k)
    requires forall i :: 0 <= i < |es| ==> Harmless(es[i], k, s.data[k])
    ensures var u := Run(s, es); k in u.data && u.data[k] == s.data[k] && NotOverwritten(u, k)
  {
    if es != [] {
      ValueStays(s, es[..|es| - 1], k);
      HarmlessStep(Run(s, es[..|es| - 1]), es[|es| - 1], k);
    }
  }

  lemma HarmlessStep<K, V>(s: State<K, V>, e: Event<K, V>, k: K)
    requires k in s.data && NotOverwritten(s, k) && Harmless(e, k, s.data[k])
    ensures var u := Step(s, e); k in u.data && u.data[k] == s.data[k] && NotOverwritten(u, k)
  {
  }

  predicate NoStore<K, V>(es: seq<Event<K, V>>) {
    forall i :: 0 <= i < |es| ==> !es[i].Store?
  }

  lemma {:induction false} NothingResurrected<K, V>(threads: nat, es: seq<Event<K, V>>)
    requires NoStore(es)
    ensures var s := Run(Init<K, V>(threads), es);
            s.resurrected == 0 && forall t :: 0 <= t < |s.threads| ==> !s.threads[t].Overwriting?
  {
    if es != [] {
      NothingResurrected<K, V>(threads, es[..|es| - 1]);
    }
  }

  // So the other operations keep Len exact among themselves.
  lemma LenIsExactWithoutStore<K, V>(threads: nat, es: seq<Event<K, V>>)
    requires NoStore(es) && Quiescent(Run(Init<K, V>(threads), es))
    ensures var s := Run(Init<K, V>(threads), es); s.length == |s.data|
  {
    NothingResurrected<K, V>(threads, es);
    ResurrectedIff<K, V>(threads, es);
    LenIsExact<K, V>(threads, es);
  }

  // The schedule that breaks it: a Store overlapping a Delete of its key leaves
  // an element nobody counted.
  lemma StoreRacesDelete<K, V>(k: K, v: V, w: V)
    ensures var es := [LoadOrStore(0, k, v), Continue(0), Store(1, k, w), LoadAndDelete(0, k), Continue(0), Continue(1)];
            var s := Run(Init<K, V>(2), es);
            Quiescent(s) && s.data == map[k := w] && s.length == 0
  {
    var s0 := Init<K, V>(2);
    var es: seq<Event<K, V>> :=
      [LoadOrStore(0, k, v), Continue(0), Store(1, k, w), LoadAndDelete(0, k), Continue(0), Continue(1)];
    var s1, s2 := Step(s0, es[0]), Step(Step(s0, es[0]), es[1]);
    var s3 := Step(s2, es[2]);
    var s4 := Step(s3, es[3]);
    var s5 := Step(s4, es[4]);
    assert s1.threads == [Adjusting(1), Idle] && s2.threads == [Idle, Idle] && s2.length == 1;
    assert s3.threads == [Idle, Overwriting(k, w)];
    assert s4.threads == [Adjusting(-1), Overwriting(k, w)] && s4.data == map[];
    assert s5.threads == [Idle, Overwriting(k, w)] && s5.length == 0;
    assert es[..5][..4] == es[..4] && es[..4][..3] == es[..3];
    assert es[..3][..2] == es[..2] && es[..2][..1] == es[..1] && es[..1][..0] == [];
    assert Run(s0, es[..1]) == s1;
    assert Run(s0, es[..2]) == s2;
    assert Run(s0, es[..3]) == s3;
    assert Run(s0, es[..4]) == s4;
    assert Run(s0, es[..5]) == s5;
  }
}
