// The callbacks of order updates run on a pool without a lock: the check of an
// order, its enqueueing and the forgetting of its owner are separate steps.
module UpdateRaces {
  import opened OrderProtocol
  import opened Filters
  import opened Broadcast

  // Where one callback is with the order at hand.
  datatype Callback =
    | Idle
    | Passed(user: string, update: Update)     // every check passed, not enqueued yet
    | Enqueued(user: string, update: Update)   // enqueued, its owner not forgotten yet

  datatype State = State(owners: map<int, string>, callbacks: seq<Callback>, sent: seq<Event>)

  datatype Action = Check(c: nat, d: Delivery) | Enqueue(c: nat) | ForgetOwner(c: nat)

  function Report(user: string, u: Update): Event {
    StatusMsg(user, u.oid, u.status, "")
  }

  function Act(s: State, addresses: set<string>, e: Action): State {
    if e.c >= |s.callbacks| then s
    else
      match (e, s.callbacks[e.c])
      case (Check(c, d), Idle) =>
        if Delivers(s.owners, addresses, d.user, d.update)
        then s.(callbacks := s.callbacks[c := Passed(d.user, d.update)]) else s
      case (Enqueue(c), Passed(user, u)) =>
        s.(callbacks := s.callbacks[c := Enqueued(user, u)], sent := s.sent + [Report(user, u)])
      case (ForgetOwner(c), Enqueued(_, u)) =>
        s.(callbacks := s.callbacks[c := Idle], owners := s.owners - {u.oid})
      case _ => s
  }

  function RunActions(s: State, addresses: set<string>, es: seq<Action>): State {
    if es == [] then s else Act(RunActions(s, addresses, es[..|es| - 1]), addresses, es[|es| - 1])
  }

  function Begin(owners: map<int, string>, callbacks: nat): State {
    State(owners, seq(callbacks, _ => Idle), [])
  }

  // No two callbacks are at the same order.
  predicate RaceFree(s: State) {
    forall u, v :: 0 <= u < v < |s.callbacks| && !s.callbacks[u].Idle? && !s.callbacks[v].Idle? ==>
      s.callbacks[u].update.oid != s.callbacks[v].update.oid
  }

  predicate RaceFreeRun(s: State, addresses: set<string>, es: seq<Action>) {
    RaceFree(RunActions(s, addresses, es)) && (es == [] || RaceFreeRun(s, addresses, es[..|es| - 1]))
  }

  // The deliveries in the order of their checks.
  function Checked(s: State, addresses: set<string>, es: seq<Action>): seq<Delivery> {
    if es == [] then []
    else
      var front := es[..|es| - 1];
      Checked(s, addresses, front) + CheckedBy(RunActions(s, addresses, front), es[|es| - 1])
  }

  function CheckedBy(s: State, e: Action): seq<Delivery> {
    if e.Check? && e.c < |s.callbacks| && s.callbacks[e.c].Idle? then [e.d] else []
  }

  // ----- Race-free runs are runs of whole deliveries -----

  function Held(s: State): set<int> {
    set c | 0 <= c < |s.callbacks| && !s.callbacks[c].Idle? :: s.callbacks[c].update.oid
  }

  predicate AboutTo(s: State, c: nat, oid: int) {
    c < |s.callbacks| && s.callbacks[c].Passed? && s.callbacks[c].update.oid == oid
  }

  predicate NobodyAboutTo(s: State, oid: int) {
    forall c :: 0 <= c < |s.callbacks| ==> !AboutTo(s, c, oid)
  }

  // The steps lag behind the whole deliveries: an order that is held is forgotten
  // there, and one about to be enqueued is enqueued there.
  ghost predicate Lags(s: State, owners: map<int, string>, sent: seq<Event>) {
    owners == s.owners - Held(s) && SentLags(s, sent) && EnqueuedAreSent(s)
  }

  ghost predicate SentLags(s: State, sent: seq<Event>) {
    && (forall c: nat, oid :: AboutTo(s, c, oid) ==>
          Filter(sent, ForOid(oid)) == Filter(s.sent, ForOid(oid)) + [Report(s.callbacks[c].user, s.callbacks[c].update)])
    && (forall oid :: NobodyAboutTo(s, oid) ==> Filter(sent, ForOid(oid)) == Filter(s.sent, ForOid(oid)))
  }

  predicate EnqueuedAreSent(s: State) {
    forall c :: 0 <= c < |s.callbacks| && s.callbacks[c].Enqueued? ==>
      Filter(s.sent, ForOid(s.callbacks[c].update.oid)) != []
  }

  lemma HeldNext(s: State, c: nat, next: Callback)
    requires RaceFree(s) && c < |s.callbacks|
    ensures var t := s.(callbacks := s.callbacks[c := next]);
            var rest := if s.callbacks[c].Idle? then Held(s) else Held(s) - {s.callbacks[c].update.oid};
            Held(t) == if next.Idle? then rest else rest + {next.update.oid}
  {
    var t := s.(callbacks := s.callbacks[c := next]);
    forall oid
      ensures oid in Held(t) <==>
              (!next.Idle? && next.update.oid == oid) ||
              (oid in Held(s) && (s.callbacks[c].Idle? || s.callbacks[c].update.oid != oid))
    {
      if oid in Held(s) && (s.callbacks[c].Idle? || s.callbacks[c].update.oid != oid) {
        var x :| 0 <= x < |s.callbacks| && !s.callbacks[x].Idle? && s.callbacks[x].update.oid == oid;
        assert t.callbacks[x] == s.callbacks[x];
      }
      if oid in Held(t) {
        var x :| 0 <= x < |t.callbacks| && !t.callbacks[x].Idle? && t.callbacks[x].update.oid == oid;
        assert x != c ==> t.callbacks[x] == s.callbacks[x];
      }
      if !next.Idle? && next.update.oid == oid {
        assert t.callbacks[c] == next;
      }
    }
  }

  lemma HeldBySomebody(s: State, c: nat)
    requires c < |s.callbacks| && !s.callbacks[c].Idle?
    ensures s.callbacks[c].update.oid in Held(s)
  {
  }

  // Whoever passes the check of an order that is held races for it.
  lemma HeldIsRace(s: State, addresses: set<string>, c: nat, d: Delivery) returns (x: nat)
    requires c < |s.callbacks| && s.callbacks[c].Idle? && Delivers(s.owners, addresses, d.user, d.update)
    requires d.update.oid in Held(s)
    ensures x < |s.callbacks| && x != c && !s.callbacks[x].Idle? && s.callbacks[x].update.oid == d.update.oid
    ensures !RaceFree(Act(s, addresses, Check(c, d)))
  {
    var t := Act(s, addresses, Check(c, d));
    x :| 0 <= x < |s.callbacks| && !s.callbacks[x].Idle? && s.callbacks[x].update.oid == d.update.oid;
    assert t.callbacks[x] == s.callbacks[x] && t.callbacks[c].update == d.update;
    assert x < c || c < x;
  }

  lemma FilterOne(sent: seq<Event>, user: string, u: Update, oid: int)
    ensures Filter(sent + [Report(user, u)], ForOid(oid)) ==
            Filter(sent, ForOid(oid)) + if u.oid == oid then [Report(user, u)] else []
  {
    FilterSnoc(sent, Report(user, u), ForOid(oid));
  }

  lemma CheckLags(s: State, addresses: set<string>, c: nat, d: Delivery, owners: map<int, string>, sent: seq<Event>)
    requires RaceFree(s) && RaceFree(Act(s, addresses, Check(c, d))) && Lags(s, owners, sent)
    requires c < |s.callbacks| && s.callbacks[c].Idle?
    ensures var t := Act(s, addresses, Check(c, d));
            if Delivers(owners, addresses, d.user, d.update)
            then Lags(t, owners - {d.update.oid}, sent + [Report(owners[d.update.oid], d.update)])
            else Lags(t, owners, sent)
  {
    var t, u := Act(s, addresses, Check(c, d)), d.update;
    if Delivers(s.owners, addresses, d.user, u) {
      if u.oid in Held(s) {
        var x := HeldIsRace(s, addresses, c, d);
      }
      HeldNext(s, c, Passed(d.user, u));
      CheckSends(s, c, d, sent);
    }
  }

  lemma CheckSends(s: State, c: nat, d: Delivery, sent: seq<Event>)
    requires SentLags(s, sent) && c < |s.callbacks| && s.callbacks[c].Idle? && d.update.oid !in Held(s)
    ensures SentLags(s.(callbacks := s.callbacks[c := Passed(d.user, d.update)]), sent + [Report(d.user, d.update)])
  {
    var u := d.update;
    var t := s.(callbacks := s.callbacks[c := Passed(d.user, u)]);
    var more := sent + [Report(d.user, u)];
    forall x: nat, oid | AboutTo(t, x, oid)
      ensures Filter(more, ForOid(oid)) ==
              Filter(t.sent, ForOid(oid)) + [Report(t.callbacks[x].user, t.callbacks[x].update)]
    {
      FilterOne(sent, d.user, u, oid);
      if x == c {
        forall y | 0 <= y < |s.callbacks| ensures !AboutTo(s, y, oid) {
          assert AboutTo(s, y, oid) ==> oid in Held(s);
        }
        assert NobodyAboutTo(s, oid);
      } else {
        assert AboutTo(s, x, oid) && oid in Held(s);
      }
    }
    forall oid | NobodyAboutTo(t, oid) ensures Filter(more, ForOid(oid)) == Filter(t.sent, ForOid(oid)) {
      FilterOne(sent, d.user, u, oid);
      assert !AboutTo(t, c, oid);
      forall y | 0 <= y < |s.callbacks| ensures !AboutTo(s, y, oid) {
        assert !AboutTo(t, y, oid);
      }
      assert NobodyAboutTo(s, oid);
    }
  }

  lemma Alone(s: State, c: nat, x: nat)
    requires RaceFree(s) && c < |s.callbacks| && !s.callbacks[c].Idle? && x < |s.callbacks| && x != c
    ensures !AboutTo(s, x, s.callbacks[c].update.oid)
  {
    assert x < c || c < x;
  }

  lemma EnqueueSends(s: State, c: nat, sent: seq<Event>)
    requires RaceFree(s) && SentLags(s, sent) && c < |s.callbacks| && s.callbacks[c].Passed?
    ensures var user, u := s.callbacks[c].user, s.callbacks[c].update;
            SentLags(s.(callbacks := s.callbacks[c := Enqueued(user, u)], sent := s.sent + [Report(user, u)]), sent)
  {
    var user, u := s.callbacks[c].user, s.callbacks[c].update;
    var t := s.(callbacks := s.callbacks[c := Enqueued(user, u)], sent := s.sent + [Report(user, u)]);
    assert AboutTo(s, c, u.oid);
    forall x: nat, oid | AboutTo(t, x, oid)
      ensures Filter(sent, ForOid(oid)) ==
              Filter(t.sent, ForOid(oid)) + [Report(t.callbacks[x].user, t.callbacks[x].update)]
    {
      Alone(s, c, x);
      FilterOne(s.sent, user, u, oid);
      assert AboutTo(s, x, oid);
    }
    forall oid | NobodyAboutTo(t, oid) ensures Filter(sent, ForOid(oid)) == Filter(t.sent, ForOid(oid)) {
      FilterOne(s.sent, user, u, oid);
      if oid != u.oid {
        StillNobody(s, t, c, oid);
      }
    }
  }

  lemma StillNobody(s: State, t: State, c: nat, oid: int)
    requires NobodyAboutTo(t, oid) && |t.callbacks| == |s.callbacks| && !AboutTo(s, c, oid)
    requires forall x :: 0 <= x < |s.callbacks| && x != c ==> t.callbacks[x] == s.callbacks[x]
    ensures NobodyAboutTo(s, oid)
  {
    forall y | 0 <= y < |s.callbacks| ensures !AboutTo(s, y, oid) {
      assert !AboutTo(t, y, oid);
    }
  }

  lemma EnqueueLags(s: State, addresses: set<string>, c: nat, owners: map<int, string>, sent: seq<Event>)
    requires RaceFree(s) && Lags(s, owners, sent) && c < |s.callbacks| && s.callbacks[c].Passed?
    ensures Lags(Act(s, addresses, Enqueue(c)), owners, sent)
  {
    var t := Act(s, addresses, Enqueue(c));
    var user, u := s.callbacks[c].user, s.callbacks[c].update;
    HeldNext(s, c, Enqueued(user, u));
    HeldBySomebody(s, c);
    assert Held(t) == Held(s);
    EnqueueSends(s, c, sent);
    forall x | 0 <= x < |t.callbacks| && t.callbacks[x].Enqueued?
      ensures Filter(t.sent, ForOid(t.callbacks[x].update.oid)) != []
    {
      FilterOne(s.sent, user, u, t.callbacks[x].update.oid);
    }
  }

  lemma ForgetSends(s: State, t: State, c: nat, sent: seq<Event>)
    requires SentLags(s, sent) && c < |s.callbacks| && s.callbacks[c].Enqueued?
    requires t.callbacks == s.callbacks[c := Idle] && t.sent == s.sent
    ensures SentLags(t, sent)
  {
    forall x: nat, oid | AboutTo(t, x, oid)
      ensures Filter(sent, ForOid(oid)) ==
              Filter(t.sent, ForOid(oid)) + [Report(t.callbacks[x].user, t.callbacks[x].update)]
    {
      assert AboutTo(s, x, oid);
    }
    forall oid | NobodyAboutTo(t, oid) ensures Filter(sent, ForOid(oid)) == Filter(t.sent, ForOid(oid)) {
      StillNobody(s, t, c, oid);
    }
  }

  lemma ForgetLags(s: State, addresses: set<string>, c: nat, owners: map<int, string>, sent: seq<Event>)
    requires RaceFree(s) && Lags(s, owners, sent) && c < |s.callbacks| && s.callbacks[c].Enqueued?
    ensures Lags(Act(s, addresses, ForgetOwner(c)), owners, sent)
  {
    var t := Act(s, addresses, ForgetOwner(c));
    HeldNext(s, c, Idle);
    HeldBySomebody(s, c);
    assert t.owners - Held(t) == s.owners - Held(s);
    ForgetSends(s, t, c, sent);
  }

  // As long as no two callbacks are at one order, what the steps have done is what
  // whole deliveries, in the order of their checks, do: up to what is under way.
  lemma {:induction false} StepsAreDeliveries(owners: map<int, string>, callbacks: nat, addresses: set<string>,
                                              es: seq<Action>)
    requires RaceFreeRun(Begin(owners, callbacks), addresses, es)
    ensures var ds := Checked(Begin(owners, callbacks), addresses, es);
            Lags(RunActions(Begin(owners, callbacks), addresses, es),
                 Forget(owners, addresses, ds), Messages(owners, addresses, ds))
  {
    var s0 := Begin(owners, callbacks);
    if es == [] {
      assert Held(s0) == {};
    } else {
      var front, e := es[..|es| - 1], es[|es| - 1];
      StepsAreDeliveries(owners, callbacks, addresses, front);
      DeliveryLags(owners, addresses, RunActions(s0, addresses, front), Checked(s0, addresses, front), e);
    }
  }

  lemma DeliveryLags(owners: map<int, string>, addresses: set<string>, s: State, ds: seq<Delivery>, e: Action)
    requires RaceFree(s) && RaceFree(Act(s, addresses, e))
    requires Lags(s, Forget(owners, addresses, ds), Messages(owners, addresses, ds))
    ensures var next := ds + CheckedBy(s, e);
            Lags(Act(s, addresses, e), Forget(owners, addresses, next), Messages(owners, addresses, next))
  {
    var before, sent := Forget(owners, addresses, ds), Messages(owners, addresses, ds);
    assert ds + [] == ds;
    if e.c < |s.callbacks| {
      match (e, s.callbacks[e.c])
      case (Check(c, d), Idle) =>
        assert (ds + [d])[..|ds|] == ds;
        assert sent + [] == sent;
        CheckLags(s, addresses, c, d, before, sent);
      case (Enqueue(c), Passed(_, _)) => EnqueueLags(s, addresses, c, before, sent);
      case (ForgetOwner(c), Enqueued(_, _)) => ForgetLags(s, addresses, c, before, sent);
      case _ =>
    }
  }

  // ----- Main results -----

  // So in a race-free run an order is enqueued at most once at any time, and when
  // no callback is under way what was enqueued and what is remembered is what
  // Ownership says of the deliveries.
  lemma OwnershipWithoutRaces(owners: map<int, string>, callbacks: nat, addresses: set<string>, es: seq<Action>, oid: int)
    requires RaceFreeRun(Begin(owners, callbacks), addresses, es)
    ensures var s := RunActions(Begin(owners, callbacks), addresses, es);
            && |Filter(s.sent, ForOid(oid))| <= 1
            && ((forall c :: 0 <= c < |s.callbacks| ==> s.callbacks[c].Idle?) ==>
                  Agrees(owners, s.owners, s.sent, oid,
                         Expected(owners, addresses, Checked(Begin(owners, callbacks), addresses, es), oid)))
  {
    var s := RunActions(Begin(owners, callbacks), addresses, es);
    var ds := Checked(Begin(owners, callbacks), addresses, es);
    StepsAreDeliveries(owners, callbacks, addresses, es);
    Ownership(owners, addresses, ds, oid);
    if forall c :: 0 <= c < |s.callbacks| ==> s.callbacks[c].Idle? {
      assert Held(s) == {};
      assert NobodyAboutTo(s, oid);
    } else if !NobodyAboutTo(s, oid) {
      var c: nat :| c < |s.callbacks| && AboutTo(s, c, oid);
    }
  }

  lemma RunThen(s: State, addresses: set<string>, a: seq<Action>, e: Action)
    ensures RunActions(s, addresses, a + [e]) == Act(RunActions(s, addresses, a), addresses, e)
  {
    assert (a + [e])[..|a|] == a;
  }

  lemma RunBoth(s: State, addresses: set<string>, x: Action, y: Action)
    ensures RunActions(s, addresses, [x]) == Act(s, addresses, x)
    ensures RunActions(s, addresses, [x, y]) == Act(Act(s, addresses, x), addresses, y)
  {
    RunThen(s, addresses, [], x);
    RunThen(s, addresses, [x], y);
    assert [] + [x] == [x] && [x] + [y] == [x, y];
  }

  // The race begins with the check of an order that another callback is at.
  lemma FirstRace(s: State, addresses: set<string>, e: Action) returns (u: nat, v: nat)
    requires RaceFree(s) && !RaceFree(Act(s, addresses, e))
    ensures var t := Act(s, addresses, e);
            && u < |t.callbacks| == |s.callbacks| && v < |t.callbacks| && u != v && t.sent == s.sent
            && t.callbacks[u] == s.callbacks[u] && !t.callbacks[u].Idle? && t.callbacks[v].Passed?
            && t.callbacks[u].update.oid == t.callbacks[v].update.oid
  {
    var t := Act(s, addresses, e);
    var x, y :| 0 <= x < y < |t.callbacks| && !t.callbacks[x].Idle? && !t.callbacks[y].Idle? &&
                t.callbacks[x].update.oid == t.callbacks[y].update.oid;
    assert e.Check?;
    v := e.c;
    u := if x == v then y else x;
  }

  lemma EnqueueCounts(t: State, addresses: set<string>, c: nat)
    requires c < |t.callbacks| && t.callbacks[c].Passed?
    ensures var oid := t.callbacks[c].update.oid;
            |Filter(Act(t, addresses, Enqueue(c)).sent, ForOid(oid))| == |Filter(t.sent, ForOid(oid))| + 1
  {
    FilterOne(t.sent, t.callbacks[c].user, t.callbacks[c].update, t.callbacks[c].update.oid);
  }

  lemma BothEnqueue(t: State, addresses: set<string>, u: nat, v: nat) returns (more: seq<Action>)
    requires u < |t.callbacks| && v < |t.callbacks| && u != v && !t.callbacks[u].Idle? && t.callbacks[v].Passed?
    requires t.callbacks[u].update.oid == t.callbacks[v].update.oid
    requires t.callbacks[u].Enqueued? ==> Filter(t.sent, ForOid(t.callbacks[u].update.oid)) != []
    ensures |Filter(RunActions(t, addresses, more).sent, ForOid(t.callbacks[v].update.oid))| >= 2
  {
    var oid := t.callbacks[v].update.oid;
    if t.callbacks[u].Enqueued? {
      more := [Enqueue(v)];
      RunBoth(t, addresses, Enqueue(v), Enqueue(v));
      EnqueueCounts(t, addresses, v);
    } else {
      more := [Enqueue(u), Enqueue(v)];
      RunBoth(t, addresses, Enqueue(u), Enqueue(v));
      EnqueueCounts(t, addresses, u);
      EnqueueCounts(Act(t, addresses, Enqueue(u)), addresses, v);
    }
  }

  // As soon as two callbacks are at one order, they can go on to enqueue it twice.
  lemma RaceEnqueuesTwice(owners: map<int, string>, callbacks: nat, addresses: set<string>, es: seq<Action>, e: Action)
    returns (oid: int, more: seq<Action>)
    requires RaceFreeRun(Begin(owners, callbacks), addresses, es)
    requires !RaceFree(Act(RunActions(Begin(owners, callbacks), addresses, es), addresses, e))
    ensures var t := Act(RunActions(Begin(owners, callbacks), addresses, es), addresses, e);
            |Filter(RunActions(t, addresses, more).sent, ForOid(oid))| >= 2
  {
    var s := RunActions(Begin(owners, callbacks), addresses, es);
    StepsAreDeliveries(owners, callbacks, addresses, es);
    var u, v := FirstRace(s, addresses, e);
    oid := Act(s, addresses, e).callbacks[v].update.oid;
    more := BothEnqueue(Act(s, addresses, e), addresses, u, v);
  }

  // Such a schedule: one order delivered to its owner in two messages at once.
  lemma TwoChecks(owners: map<int, string>, addresses: set<string>, d: Delivery)
    requires Delivers(owners, addresses, d.user, d.update)
    ensures RunActions(Begin(owners, 2), addresses, [Check(0, d), Check(1, d)] + [Enqueue(0), Enqueue(1)]).sent ==
            [Report(d.user, d.update), Report(d.user, d.update)]
  {
    var s := Begin(owners, 2);
    RunBoth(s, addresses, Check(0, d), Check(1, d));
    var t := RunActions(s, addresses, [Check(0, d), Check(1, d)]);
    RunThen(s, addresses, [Check(0, d), Check(1, d)], Enqueue(0));
    RunThen(s, addresses, [Check(0, d), Check(1, d), Enqueue(0)], Enqueue(1));
    assert [Check(0, d), Check(1, d)] + [Enqueue(0), Enqueue(1)] == [Check(0, d), Check(1, d), Enqueue(0)] + [Enqueue(1)];
    assert [Check(0, d), Check(1, d)] + [Enqueue(0)] == [Check(0, d), Check(1, d), Enqueue(0)];
  }
}
