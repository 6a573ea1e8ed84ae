// What one message of fills or of order updates asks of the pipeline: which
// events, in which order, and what they add up to.
module Schedules {
  import opened Filters
  import opened OrderProtocol
  import opened Pipeline
  import opened ReversalSplit
  import opened Broadcast

  function OfLeg(oid: int, d: string): Fill -> bool {
    (f: Fill) => f.oid == oid && f.dir == d
  }

  function OfOrder(oid: int): Fill -> bool {
    (f: Fill) => f.oid == oid
  }

  function Passing(now: int): Fill -> bool {
    (f: Fill) => !TooOld(now, f) && !ForeignCoin(f.coin)
  }

  // A schedule respects every leg's order of arrival and contains nothing else.
  ghost predicate Respects(schedule: seq<Fill>, parts: seq<Fill>) {
    forall oid: int, d: string :: Filter(schedule, OfLeg(oid, d)) == Filter(parts, OfLeg(oid, d))
  }

  lemma {:induction false} ExpandKeepsOrders(fills: seq<Fill>, oid: int)
    ensures Expand(Filter(fills, OfOrder(oid))) == Filter(Expand(fills), OfOrder(oid))
  {
    if fills != [] {
      var front, last := fills[..|fills| - 1], fills[|fills| - 1];
      var own := Filter(front, OfOrder(oid));
      ExpandKeepsOrders(front, oid);
      FilterConcat(Expand(front), Parts(last), OfOrder(oid));
      PartsOfOrder(last, oid);
      if last.oid == oid {
        assert (own + [last])[..|own|] == own;
      } else {
        assert own + [] == own;
      }
    }
  }

  lemma PartsOfOrder(f: Fill, oid: int)
    ensures Filter(Parts(f), OfOrder(oid)) == if f.oid == oid then Parts(f) else []
  {
    if IsReversal(f.dir) {
      assert Parts(f)[..1] == [ClosePart(f)];
      assert [ClosePart(f)][..0] == [];
    } else {
      assert [f][..0] == [];
    }
  }

  lemma {:induction false} LegOfOrder(parts: seq<Fill>, oid: int, d: string)
    ensures Filter(Filter(parts, OfOrder(oid)), InDirection(d)) == Filter(parts, OfLeg(oid, d))
  {
    if parts != [] {
      var front, last := parts[..|parts| - 1], parts[|parts| - 1];
      LegOfOrder(front, oid, d);
      if last.oid == oid {
        FilterSnoc(Filter(front, OfOrder(oid)), last, InDirection(d));
      } else {
        assert Filter(front, OfOrder(oid)) + [] == Filter(front, OfOrder(oid));
      }
    }
  }

  // The parts of one leg, reached by grouping first by order, then by direction.
  lemma LegParts(fills: seq<Fill>, oid: int, d: string)
    ensures Filter(Expand(Filter(fills, OfOrder(oid))), InDirection(d)) == Filter(Expand(fills), OfLeg(oid, d))
  {
    ExpandKeepsOrders(fills, oid);
    LegOfOrder(Expand(fills), oid, d);
  }

  // So a leg's part of a message is its order's fills' shares of its direction.
  lemma LegIsShares(schedule: seq<Fill>, passed: seq<Fill>, oid: int, d: string)
    requires Respects(schedule, Expand(passed))
    ensures Filter(schedule, OfLeg(oid, d)) == Shares(Filter(passed, OfOrder(oid)), d)
  {
    LegParts(passed, oid, d);
    ExpandInDirection(Filter(passed, OfOrder(oid)), d);
  }

  // Nothing of it is older than thirty minutes at this reading, and its coin has
  // no colon or is of the "xyz" market.
  predicate Timely(f: Fill, at: int) {
    at / 1_000_000 - f.time <= 1_800_000 && (':' in f.coin ==> "xyz:" <= f.coin)
  }

  // What one message of fills means for one leg.
  function Offering(fills: seq<Fill>, oid: int, d: string, at: int): seq<Fill> {
    if fills == [] then []
    else
      var last := fills[|fills| - 1];
      Offering(fills[..|fills| - 1], oid, d, at) + if last.oid == oid && Timely(last, at) then Share(last, d) else []
  }

  ghost predicate OffersExactly(schedule: seq<Fill>, fills: seq<Fill>, at: int) {
    forall oid: int, d: string :: Filter(schedule, OfLeg(oid, d)) == Offering(fills, oid, d, at)
  }

  lemma PassingIsTimely(f: Fill, at: int)
    ensures Passing(at)(f) <==> Timely(f, at)
  {
    ForeignCoinIff(f.coin);
  }

  lemma {:induction false} SharesOfPassing(fills: seq<Fill>, oid: int, d: string, at: int)
    ensures Shares(Filter(Filter(fills, Passing(at)), OfOrder(oid)), d) == Offering(fills, oid, d, at)
  {
    if fills != [] {
      var front, last := fills[..|fills| - 1], fills[|fills| - 1];
      var passed := Filter(front, Passing(at));
      SharesOfPassing(front, oid, d, at);
      PassingIsTimely(last, at);
      FilterSnoc(passed, last, OfOrder(oid));
      var own := Filter(passed, OfOrder(oid));
      assert (own + [last])[..|own|] == own;
      assert own + [] == own && passed + [] == passed;
      assert Offering(front, oid, d, at) + [] == Offering(front, oid, d, at);
    }
  }

  // A schedule of the fills that pass offers each leg exactly that, in order.
  lemma MessageOffers(schedule: seq<Fill>, fills: seq<Fill>, at: int)
    requires Respects(schedule, Expand(Filter(fills, Passing(at))))
    ensures OffersExactly(schedule, fills, at)
  {
    forall oid: int, d: string ensures Filter(schedule, OfLeg(oid, d)) == Offering(fills, oid, d, at) {
      LegIsShares(schedule, Filter(fills, Passing(at)), oid, d);
      SharesOfPassing(fills, oid, d, at);
    }
  }

  // The user owns exactly the orders with a fill that passes; the others keep
  // their owner.
  ghost predicate OwnersOfOffered(now: map<int, string>, before: map<int, string>, fills: seq<Fill>, at: int, user: string) {
    forall oid ::
      if exists f :: f in fills && f.oid == oid && Timely(f, at) then oid in now && now[oid] == user
      else (oid in now <==> oid in before) && (oid in before ==> now[oid] == before[oid])
  }

  lemma {:induction false} InFiltered(s: seq<Fill>, p: Fill -> bool, f: Fill)
    ensures f in Filter(s, p) <==> f in s && p(f)
  {
    if s != [] {
      InFiltered(s[..|s| - 1], p, f);
      assert s == s[..|s| - 1] + [s[|s| - 1]];
    }
  }

  lemma MessageOwners(before: map<int, string>, fills: seq<Fill>, at: int, user: string)
    ensures OwnersOfOffered(Remap(before, ByOid(Filter(fills, Passing(at))).Keys, user), before, fills, at, user)
  {
    var passed := Filter(fills, Passing(at));
    forall oid
      ensures oid in ByOid(passed) <==> exists f :: f in fills && f.oid == oid && Timely(f, at)
    {
      if oid in ByOid(passed) {
        var f :| f in passed && f.oid == oid;
        InFiltered(fills, Passing(at), f);
        PassingIsTimely(f, at);
      }
      if f :| f in fills && f.oid == oid && Timely(f, at) {
        InFiltered(fills, Passing(at), f);
        PassingIsTimely(f, at);
      }
    }
  }

  lemma {:induction false} LegOfGroup(group: seq<Fill>, o: int, e: string, oid: int, d: string)
    requires forall f :: f in group ==> f.oid == o && f.dir == e
    ensures Filter(group, OfLeg(oid, d)) == if o == oid && e == d then group else []
  {
    if group != [] {
      LegOfGroup(group[..|group| - 1], o, e, oid, d);
      assert group[|group| - 1] in group;
      assert group == group[..|group| - 1] + [group[|group| - 1]];
    }
  }

  lemma {:induction false} NoSuchOrder(fills: seq<Fill>, oid: int)
    requires forall f :: f in fills ==> f.oid != oid
    ensures Filter(fills, OfOrder(oid)) == []
  {
    if fills != [] {
      NoSuchOrder(fills[..|fills| - 1], oid);
      assert fills[|fills| - 1] in fills;
    }
  }

  // ----- Stretches of pipeline events -----

  predicate ClockTick(e: PipeEvent) {
    e.Internal? && e.event.Tick?
  }

  // The fills that a stretch of events offers, in order.
  function Offered(steps: seq<PipeEvent>): seq<Fill> {
    if steps == [] then []
    else Offered(steps[..|steps| - 1]) + (if steps[|steps| - 1].OfferFill? then [steps[|steps| - 1].fill] else [])
  }

  // Nothing but clock readings and offers of one user's fills, under their own
  // directions, all of them filtered at one clock reading.
  predicate OffersOf(steps: seq<PipeEvent>, user: string, at: int) {
    forall i :: 0 <= i < |steps| ==>
      ClockTick(steps[i]) ||
      (steps[i].OfferFill? && steps[i] == OfferFill(user, steps[i].fill, steps[i].fill.dir, at))
  }

  // The stretch leads from p to q and offers these fills.
  predicate Offers(p: Pipe, q: Pipe, user: string, fills: seq<Fill>, at: int, steps: seq<PipeEvent>) {
    q == PipeRun(p, steps) && Offered(steps) == fills && OffersOf(steps, user, at)
  }

  lemma {:induction false} OfferedConcat(a: seq<PipeEvent>, b: seq<PipeEvent>)
    ensures Offered(a + b) == Offered(a) + Offered(b)
    decreases |b|
  {
    if b == [] {
      assert a + b == a;
    } else {
      assert (a + b)[..|a + b| - 1] == a + b[..|b| - 1];
      OfferedConcat(a, b[..|b| - 1]);
    }
  }

  lemma OffersThen(p: Pipe, q: Pipe, r: Pipe, user: string, at: int,
                   f: seq<Fill>, a: seq<PipeEvent>, g: seq<Fill>, b: seq<PipeEvent>)
    requires Offers(p, q, user, f, at, a) && Offers(q, r, user, g, at, b)
    ensures Offers(p, r, user, f + g, at, a + b)
  {
    RunConcat(p, a, b);
    OfferedConcat(a, b);
  }

  lemma OffersNext(p: Pipe, q: Pipe, r: Pipe, user: string, at: int, fills: seq<Fill>, i: nat,
                   a: seq<PipeEvent>, b: seq<PipeEvent>)
    requires i < |fills| && Offers(p, q, user, fills[..i], at, a) && Offers(q, r, user, [fills[i]], at, b)
    ensures Offers(p, r, user, fills[..i + 1], at, a + b)
  {
    OffersThen(p, q, r, user, at, fills[..i], a, [fills[i]], b);
    assert fills[..i + 1] == fills[..i] + [fills[i]];
  }

  lemma OffersOne(p: Pipe, user: string, fill: Fill, at: int, elapsed: nat)
    ensures var tick, offer := Internal(Tick(elapsed)), OfferFill(user, fill, fill.dir, at);
            Offers(p, PipeStep(PipeStep(p, tick), offer), user, [fill], at, [tick, offer])
  {
    var tick, offer := Internal(Tick(elapsed)), OfferFill(user, fill, fill.dir, at);
    RunTwo(p, tick, offer);
    assert [tick, offer][..1] == [tick] && [tick][..0] == [];
    assert Offered([tick]) == [];
  }

  // The statuses that a stretch of events reports, as the messages they become.
  function Reported(steps: seq<PipeEvent>): seq<Event> {
    if steps == [] then []
    else Reported(steps[..|steps| - 1]) + ReportedBy(steps[|steps| - 1])
  }

  function ReportedBy(e: PipeEvent): seq<Event> {
    if e.OfferStatus? then [StatusMsg(e.address, e.oid, e.status, "")] else []
  }

  predicate ReportsOnly(steps: seq<PipeEvent>) {
    forall i :: 0 <= i < |steps| ==> ClockTick(steps[i]) || steps[i].OfferStatus?
  }

  // The stretch leads from p to q and reports these statuses.
  predicate Reports(p: Pipe, q: Pipe, msgs: seq<Event>, steps: seq<PipeEvent>) {
    q == PipeRun(p, steps) && Reported(steps) == msgs && ReportsOnly(steps)
  }

  lemma {:induction false} ReportedConcat(a: seq<PipeEvent>, b: seq<PipeEvent>)
    ensures Reported(a + b) == Reported(a) + Reported(b)
    decreases |b|
  {
    if b == [] {
      assert a + b == a;
    } else {
      assert (a + b)[..|a + b| - 1] == a + b[..|b| - 1];
      ReportedConcat(a, b[..|b| - 1]);
    }
  }

  lemma ReportsThen(p: Pipe, q: Pipe, r: Pipe, f: seq<Event>, a: seq<PipeEvent>, g: seq<Event>, b: seq<PipeEvent>)
    requires Reports(p, q, f, a) && Reports(q, r, g, b)
    ensures Reports(p, r, f + g, a + b)
  {
    RunConcat(p, a, b);
    ReportedConcat(a, b);
  }

  lemma ReportsOne(p: Pipe, elapsed: nat, address: string, oid: int, status: string)
    ensures var tick, report := Internal(Tick(elapsed)), OfferStatus(address, oid, status);
            Reports(p, PipeStep(PipeStep(p, tick), report), [StatusMsg(address, oid, status, "")], [tick, report])
  {
    var tick, report := Internal(Tick(elapsed)), OfferStatus(address, oid, status);
    RunTwo(p, tick, report);
    assert [tick, report][..1] == [tick] && [tick][..0] == [];
    assert Reported([tick]) == [];
  }

  // ----- Callbacks of order updates -----

  function CallbackSteps(user: string, orders: seq<Update>): seq<Delivery> {
    if orders == [] then []
    else CallbackSteps(user, orders[..|orders| - 1]) + [Delivery(user, orders[|orders| - 1])]
  }

  function Remap(owners: map<int, string>, oids: set<int>, user: string): map<int, string> {
    owners + (map oid | oid in oids :: user)
  }

  lemma RemapMore(owners: map<int, string>, oids: set<int>, oid: int, user: string)
    ensures Remap(owners, oids + {oid}, user) == Remap(owners, oids, user)[oid := user]
    ensures Remap(owners, {}, user) == owners
  {
  }

  lemma MessagesSnoc(owners: map<int, string>, addresses: set<string>, steps: seq<Delivery>, d: Delivery)
    ensures var before := Forget(owners, addresses, steps);
            var u := d.update;
            if Delivers(before, addresses, d.user, u)
            then Forget(owners, addresses, steps + [d]) == before - {u.oid} &&
                 Messages(owners, addresses, steps + [d]) ==
                 Messages(owners, addresses, steps) + [StatusMsg(d.user, u.oid, u.status, "")]
            else Forget(owners, addresses, steps + [d]) == before &&
                 Messages(owners, addresses, steps + [d]) == Messages(owners, addresses, steps) + []
  {
    assert (steps + [d])[..|steps|] == steps;
  }

  // One order of a callback's message, handled between q and r.
  predicate UpdateDone(q: Pipe, r: Pipe, owners: map<int, string>, next: map<int, string>, addresses: set<string>,
                       user: string, u: Update, steps: seq<PipeEvent>)
  {
    if Delivers(owners, addresses, user, u)
    then Reports(q, r, [StatusMsg(user, u.oid, u.status, "")], steps) && next == owners - {u.oid}
    else r == q && next == owners && steps == []
  }

  // The orders of a callback's message, handled between p and q, are one stretch
  // of the broadcast and report what the broadcast says they report.
  predicate CallbackDone(p: Pipe, q: Pipe, owners: map<int, string>, next: map<int, string>, addresses: set<string>,
                         user: string, orders: seq<Update>, steps: seq<PipeEvent>)
  {
    && Reports(p, q, Messages(owners, addresses, CallbackSteps(user, orders)), steps)
    && next == Forget(owners, addresses, CallbackSteps(user, orders))
  }

  lemma CallbackGrows(p: Pipe, q: Pipe, r: Pipe, owners: map<int, string>, now: map<int, string>,
                      next: map<int, string>, addresses: set<string>, user: string, orders: seq<Update>, i: nat,
                      steps: seq<PipeEvent>, more: seq<PipeEvent>)
    requires i < |orders| && CallbackDone(p, q, owners, now, addresses, user, orders[..i], steps)
    requires UpdateDone(q, r, now, next, addresses, user, orders[i], more)
    ensures CallbackDone(p, r, owners, next, addresses, user, orders[..i + 1], steps + more)
  {
    CallbackNext(owners, addresses, user, orders, i);
    var msgs := Messages(owners, addresses, CallbackSteps(user, orders[..i]));
    if Delivers(now, addresses, user, orders[i]) {
      ReportsThen(p, q, r, msgs, steps, [StatusMsg(user, orders[i].oid, orders[i].status, "")], more);
    } else {
      assert steps + more == steps;
    }
  }

  lemma CallbackBegins(p: Pipe, owners: map<int, string>, addresses: set<string>, user: string)
    ensures CallbackDone(p, p, owners, owners, addresses, user, [], [])
  {
  }

  // What the next order of a callback's message adds.
  lemma CallbackNext(owners: map<int, string>, addresses: set<string>, user: string, orders: seq<Update>, i: nat)
    requires i < |orders|
    ensures var now, later := CallbackSteps(user, orders[..i]), CallbackSteps(user, orders[..i + 1]);
            var before := Forget(owners, addresses, now);
            if Delivers(before, addresses, user, orders[i])
            then Forget(owners, addresses, later) == before - {orders[i].oid} &&
                 Messages(owners, addresses, later) ==
                 Messages(owners, addresses, now) + [StatusMsg(user, orders[i].oid, orders[i].status, "")]
            else Forget(owners, addresses, later) == before &&
                 Messages(owners, addresses, later) == Messages(owners, addresses, now)
  {
    assert orders[..i + 1][..i] == orders[..i];
    MessagesSnoc(owners, addresses, CallbackSteps(user, orders[..i]), Delivery(user, orders[i]));
  }

  function Oids(fills: seq<Fill>): set<int> {
    set f | f in fills :: f.oid
  }

  function ByOid(fills: seq<Fill>): map<int, seq<Fill>> {
    map oid | oid in Oids(fills) :: Filter(fills, OfOrder(oid))
  }

  lemma ByOidSnoc(fills: seq<Fill>, fill: Fill)
    ensures var m := ByOid(fills);
            ByOid(fills + [fill]) ==
            m[fill.oid := (if fill.oid in m then m[fill.oid] else []) + [fill]]
  {
    var all := fills + [fill];
    assert forall f :: f in all <==> f in fills || f == fill;
    assert fill in all;
    assert Oids(all) == Oids(fills) + {fill.oid} by {
      forall oid | oid in Oids(fills) ensures oid in Oids(all) {
        var f :| f in fills && f.oid == oid;
        assert f in all;
      }
    }
    var m := ByOid(fills);
    var grown := m[fill.oid := (if fill.oid in m then m[fill.oid] else []) + [fill]];
    forall oid | oid in Oids(all) ensures ByOid(all)[oid] == grown[oid] {
      FilterSnoc(fills, fill, OfOrder(oid));
      if oid !in Oids(fills) {
        NoSuchOrder(fills, oid);
      }
    }
  }

  lemma {:induction false} ExpandOfOrder(fills: seq<Fill>, g: Fill)
    requires g in Expand(fills)
    ensures exists f :: f in fills && f.oid == g.oid && f.time == g.time && f.tid == g.tid && f.coin == g.coin
  {
    NoReversalLeft(fills, g);
    var f :| f in fills && g in Parts(f);
    assert f.oid == g.oid && f.time == g.time;
  }

  lemma GroupIsOwn(fills: seq<Fill>, oid: int, dir: string, now: int)
    requires forall f :: f in fills ==> f.oid == oid && !TooOld(now, f)
    ensures forall g :: g in Filter(Expand(fills), InDirection(dir)) ==>
              g.oid == oid && g.dir == dir && !TooOld(now, g)
  {
    var group := Filter(Expand(fills), InDirection(dir));
    var at := FilterPositions(Expand(fills), InDirection(dir));
    FilterSound(Expand(fills), InDirection(dir));
    forall g | g in group ensures g.oid == oid && g.dir == dir && !TooOld(now, g) {
      var k :| 0 <= k < |group| && group[k] == g;
      assert Expand(fills)[at[k]] == g;
      ExpandOfOrder(fills, g);
    }
  }

  predicate OwnGroups(grouped: map<string, seq<Fill>>, oid: int, at: int) {
    forall d :: d in grouped ==> forall f :: f in grouped[d] ==> f.oid == oid && f.dir == d && !TooOld(at, f)
  }

  lemma GroupsAreOwn(fills: seq<Fill>, oid: int, at: int)
    requires OwnAndFresh(fills, oid, at)
    ensures OwnGroups(Grouped(Expand(fills)), oid, at)
  {
    forall d | d in Grouped(Expand(fills))
      ensures forall f :: f in Grouped(Expand(fills))[d] ==> f.oid == oid && f.dir == d && !TooOld(at, f)
    {
      GroupIsOwn(fills, oid, d, at);
    }
  }

  lemma ExtendSchedule(schedule: seq<Fill>, group: seq<Fill>, oid: int, dir: string)
    requires forall f :: f in group ==> f.oid == oid && f.dir == dir
    ensures forall o: int, d: string ::
      Filter(schedule + group, OfLeg(o, d)) ==
        Filter(schedule, OfLeg(o, d)) + if o == oid && d == dir then group else []
  {
    forall o: int, d: string
      ensures Filter(schedule + group, OfLeg(o, d)) ==
              Filter(schedule, OfLeg(o, d)) + if o == oid && d == dir then group else []
    {
      FilterConcat(schedule, group, OfLeg(o, d));
      LegOfGroup(group, oid, dir, o, d);
    }
  }

  predicate OwnAndFresh(fills: seq<Fill>, oid: int, now: int) {
    forall f :: f in fills ==> f.oid == oid && !TooOld(now, f)
  }

  predicate OwnOrders(groups: map<int, seq<Fill>>, now: int) {
    forall oid :: oid in groups ==> OwnAndFresh(groups[oid], oid, now)
  }

  lemma OrderGroupsPass(fills: seq<Fill>, now: int)
    ensures OwnOrders(ByOid(Filter(fills, Passing(now))), now)
  {
    var passed := Filter(fills, Passing(now));
    FilterSound(fills, Passing(now));
    forall oid | oid in ByOid(passed) ensures OwnAndFresh(ByOid(passed)[oid], oid, now) {
      FilterSound(passed, OfOrder(oid));
      var at := FilterPositions(passed, OfOrder(oid));
      forall f | f in Filter(passed, OfOrder(oid)) ensures f.oid == oid && !TooOld(now, f) {
        var k :| 0 <= k < |at| && Filter(passed, OfOrder(oid))[k] == f;
        assert passed[at[k]] == f;
      }
    }
  }

  // The directions of one order that are no longer to do are scheduled.
  ghost predicate OfferedDirections(schedule: seq<Fill>, oid: int, grouped: map<string, seq<Fill>>, todo: set<string>) {
    forall o: int, d: string ::
      Filter(schedule, OfLeg(o, d)) == if o == oid && d in grouped && d !in todo then grouped[d] else []
  }

  lemma NoDirections(oid: int, grouped: map<string, seq<Fill>>, todo: set<string>)
    requires todo == grouped.Keys
    ensures OfferedDirections([], oid, grouped, todo)
  {
  }

  lemma MoreDirections(schedule: seq<Fill>, oid: int, grouped: map<string, seq<Fill>>, todo: set<string>, dir: string)
    requires OfferedDirections(schedule, oid, grouped, todo + {dir}) && dir in grouped && dir !in todo
    requires forall f :: f in grouped[dir] ==> f.oid == oid && f.dir == dir
    ensures OfferedDirections(schedule + grouped[dir], oid, grouped, todo)
  {
    ExtendSchedule(schedule, grouped[dir], oid, dir);
  }

  ghost predicate OneOrder(schedule: seq<Fill>, oid: int, fills: seq<Fill>) {
    forall o: int, d: string ::
      Filter(schedule, OfLeg(o, d)) == if o == oid then Filter(Expand(fills), InDirection(d)) else []
  }

  lemma AllDirections(schedule: seq<Fill>, oid: int, fills: seq<Fill>)
    requires OfferedDirections(schedule, oid, Grouped(Expand(fills)), {})
    ensures OneOrder(schedule, oid, fills)
  {
    forall o: int, d: string
      ensures Filter(schedule, OfLeg(o, d)) == if o == oid then Filter(Expand(fills), InDirection(d)) else []
    {
      if o == oid && d !in Grouped(Expand(fills)) {
        AbsentDirection(Expand(fills), d);
      }
    }
  }

  ghost predicate OfferedOrders(schedule: seq<Fill>, groups: map<int, seq<Fill>>, todo: set<int>) {
    forall o: int, d: string ::
      Filter(schedule, OfLeg(o, d)) ==
        if o in groups && o !in todo then Filter(Expand(groups[o]), InDirection(d)) else []
  }

  lemma NothingOffered(groups: map<int, seq<Fill>>, todo: set<int>)
    requires todo == groups.Keys
    ensures OfferedOrders([], groups, todo)
  {
  }

  lemma NothingAdded(a: seq<Fill>, b: seq<Fill>)
    ensures a == [] ==> a + b == b
    ensures b == [] ==> a + b == a
  {
  }

  lemma MoreOrders(schedule: seq<Fill>, groups: map<int, seq<Fill>>, todo: set<int>, oid: int, more: seq<Fill>)
    requires OfferedOrders(schedule, groups, todo + {oid}) && oid in groups && oid !in todo
    requires OneOrder(more, oid, groups[oid])
    ensures OfferedOrders(schedule + more, groups, todo)
  {
    forall o: int, d: string
      ensures Filter(schedule + more, OfLeg(o, d)) ==
              if o in groups && o !in todo then Filter(Expand(groups[o]), InDirection(d)) else []
    {
      FilterConcat(schedule, more, OfLeg(o, d));
      NothingAdded(Filter(schedule, OfLeg(o, d)), Filter(more, OfLeg(o, d)));
    }
  }

  lemma WholeSchedule(schedule: seq<Fill>, passed: seq<Fill>)
    requires OfferedOrders(schedule, ByOid(passed), {})
    ensures Respects(schedule, Expand(passed))
  {
    forall o: int, d: string
      ensures Filter(schedule, OfLeg(o, d)) == Filter(Expand(passed), OfLeg(o, d))
    {
      LegParts(passed, o, d);
      if o !in Oids(passed) {
        NoSuchOrder(passed, o);
      }
    }
  }

  // What the forgotten owners cost: until a new fill arrives no status of any
  // order is passed on, so its legs wait for the timeout.
  lemma {:induction false} ForgottenOwnersSilenceUpdates(addresses: set<string>, steps: seq<Delivery>)
    ensures Messages(map[], addresses, steps) == [] && Forget(map[], addresses, steps) == map[]
  {
    if steps != [] {
      ForgottenOwnersSilenceUpdates(addresses, steps[..|steps| - 1]);
    }
  }
}
