// Which legs a status and a timeout scan ask for, and what becomes of a request.
module RequestRules {
  import opened Basics
  import opened Keys
  import opened OrderProtocol
  import opened OrderInvariants
  import opened FlushRequests

  // ----- Requests are queued while there is room -----

  // The state with these requests made: the first ones are queued, and those for
  // which there is no room are dropped.
  predicate Made(s: Proc, t: Proc, reqs: seq<FlushReq>) {
    && Quiet(s, t)
    && |t.flushChan| - |s.flushChan| ==
       (if |s.flushChan| + |reqs| <= 1000 then |reqs| else if |s.flushChan| < 1000 then 1000 - |s.flushChan| else 0)
    && (var k := |t.flushChan| - |s.flushChan|;
        t.flushChan == s.flushChan + reqs[..k] && t.dropped == s.dropped + reqs[k..])
  }

  lemma MadeNone(s: Proc)
    ensures Made(s, s, [])
  {
  }

  lemma MadeOneMore(s: Proc, s1: Proc, t: Proc, req: FlushReq, reqs: seq<FlushReq>)
    requires s1 == Request(s, req).(tracker := s1.tracker) && Made(s1, t, reqs)
    ensures Made(s, t, [req] + reqs)
  {
    var all := [req] + reqs;
    var k := |t.flushChan| - |s.flushChan|;
    if |s.flushChan| < FLUSH_CAPACITY {
      assert all[..k] == [req] + reqs[..k - 1] && all[k..] == reqs[k - 1..];
    } else {
      assert reqs[..0] == [] && reqs[0..] == reqs;
    }
  }

  // ----- What a terminal status asks for -----

  // The request for the order's leg of one direction, if that leg is pending.
  function AskedFor(pending: map<string, Leg>, a: string, oid: int, status: string, d: string): seq<FlushReq> {
    var key := OrderKey(a, oid, d);
    if key in pending then [FlushReq(key, ByStatus, status)] else []
  }

  function Asked(pending: map<string, Leg>, a: string, oid: int, status: string): seq<FlushReq> {
    AskedFor(pending, a, oid, status, "Open Long") + (AskedFor(pending, a, oid, status, "Open Short") +
    (AskedFor(pending, a, oid, status, "Close Long") + (AskedFor(pending, a, oid, status, "Close Short") +
    (AskedFor(pending, a, oid, status, "Buy") + AskedFor(pending, a, oid, status, "Sell")))))
  }

  function AskedAlong(pending: map<string, Leg>, a: string, oid: int, status: string, dirs: seq<string>): seq<FlushReq> {
    if dirs == [] then [] else AskedFor(pending, a, oid, status, dirs[0]) + AskedAlong(pending, a, oid, status, dirs[1..])
  }

  lemma GoneTwice<V>(m: map<string, V>, k: string)
    ensures m - {k} - {k} == m - {k}
  {
  }

  lemma {:induction false} NotifyMakes(s: Proc, a: string, oid: int, status: string, dirs: seq<string>)
    ensures var t, reqs := Notify(s, a, oid, status, dirs), AskedAlong(s.pending, a, oid, status, dirs);
            && Made(s, t, reqs)
            && t.tracker == if reqs == [] then s.tracker else s.tracker - {TrackKey(a, oid)}
    decreases |dirs|
  {
    if dirs == [] {
      MadeNone(s);
    } else {
      var key, rest := OrderKey(a, oid, dirs[0]), AskedAlong(s.pending, a, oid, status, dirs[1..]);
      if key in s.pending {
        var req := FlushReq(key, ByStatus, status);
        var s1 := Untrack(Request(s, req), a, oid);
        NotifyMakes(s1, a, oid, status, dirs[1..]);
        MadeOneMore(s, s1, Notify(s1, a, oid, status, dirs[1..]), req, rest);
        GoneTwice(s.tracker, TrackKey(a, oid));
      } else {
        NotifyMakes(s, a, oid, status, dirs[1..]);
        assert [] + rest == rest;
      }
    }
  }

  lemma AlongNext(pending: map<string, Leg>, a: string, oid: int, status: string, d: string, rest: seq<string>)
    ensures AskedAlong(pending, a, oid, status, [d] + rest) ==
            AskedFor(pending, a, oid, status, d) + AskedAlong(pending, a, oid, status, rest)
  {
    assert ([d] + rest)[1..] == rest;
  }

  lemma AlongThree(pending: map<string, Leg>, a: string, oid: int, status: string, d: string, e: string, f: string,
                   rest: seq<string>)
    ensures AskedAlong(pending, a, oid, status, [d] + ([e] + ([f] + rest))) ==
            AskedFor(pending, a, oid, status, d) + (AskedFor(pending, a, oid, status, e) +
            (AskedFor(pending, a, oid, status, f) + AskedAlong(pending, a, oid, status, rest)))
  {
    AlongNext(pending, a, oid, status, f, rest);
    AlongNext(pending, a, oid, status, e, [f] + rest);
    AlongNext(pending, a, oid, status, d, [e] + ([f] + rest));
  }

  lemma AlongAll(pending: map<string, Leg>, a: string, oid: int, status: string)
    ensures AskedAlong(pending, a, oid, status, Directions("")) == Asked(pending, a, oid, status)
  {
    var rest := ["Close Short"] + (["Buy"] + (["Sell"] + []));
    AlongThree(pending, a, oid, status, "Close Short", "Buy", "Sell", []);
    AlongThree(pending, a, oid, status, "Open Long", "Open Short", "Close Long", rest);
    assert Directions("") == ["Open Long"] + (["Open Short"] + (["Close Long"] + rest));
    assert AskedFor(pending, a, oid, status, "Sell") + [] == AskedFor(pending, a, oid, status, "Sell");
  }

  lemma {:induction false} MarkedAsks(s: Proc, a: string, oid: int, status: string, dirs: seq<string>)
    ensures MarkedMade(s, Notify(OrderProtocol.Mark(s, a, oid, status), a, oid, status, dirs),
                       AskedAlong(s.pending, a, oid, status, dirs), TrackKey(a, oid), status)
  {
    var marked := OrderProtocol.Mark(s, a, oid, status);
    NotifyMakes(marked, a, oid, status, dirs);
    MarkedFirst(s, marked, Notify(marked, a, oid, status, dirs), AskedAlong(s.pending, a, oid, status, dirs),
                TrackKey(a, oid), status);
  }

  // The requests are made, and the status is on record for ten minutes unless
  // there are any.
  predicate MarkedMade(s: Proc, t: Proc, reqs: seq<FlushReq>, order: string, status: string) {
    && Made(s, t, reqs)
    && t.tracker == if reqs == [] then s.tracker[order := Tracked(status, s.now + 600_000_000_000)]
                    else s.tracker - {order}
  }

  lemma MarkedFirst(s: Proc, m: Proc, t: Proc, reqs: seq<FlushReq>, order: string, status: string)
    requires m == s.(tracker := s.tracker[order := Tracked(status, s.now + 600_000_000_000)]) && Made(m, t, reqs)
    requires t.tracker == if reqs == [] then m.tracker else m.tracker - {order}
    ensures MarkedMade(s, t, reqs, order, status)
  {
  }

  // A terminal status, as the program reports it: the pending legs of its order
  // in the six directions are requested, in this order and once each, as far as
  // there is room; the status is on record for ten minutes unless one of them was
  // pending.  Any other status changes nothing.
  lemma StatusAsks(s: Proc, a: string, oid: int, status: string)
    ensures var t, reqs := Step(s, StatusMsg(a, oid, status, "")), Asked(s.pending, a, oid, status);
            if status == "open" || status == "triggered" then t == s
            else MarkedMade(s, t, reqs, TrackKey(a, oid), status)
  {
    if status != "open" && status != "triggered" {
      AlongAll(s.pending, a, oid, status);
      MarkedAsks(s, a, oid, status, Directions(""));
    }
  }

  predicate SixDirections(d: string) {
    d == "Open Long" || d == "Open Short" || d == "Close Long" || d == "Close Short" || d == "Buy" || d == "Sell"
  }

  lemma InOneOfSix<T>(x: T, a: seq<T>, b: seq<T>, c: seq<T>, d: seq<T>, e: seq<T>, f: seq<T>)
    ensures x in a + (b + (c + (d + (e + f)))) <==> x in a || x in b || x in c || x in d || x in e || x in f
  {
  }

  lemma InAskedFor(s: Proc, a: string, oid: int, status: string, d: string, r: FlushReq)
    ensures r in AskedFor(s.pending, a, oid, status, d) <==>
            OrderKey(a, oid, d) in s.pending && r == FlushReq(OrderKey(a, oid, d), ByStatus, status)
  {
  }

  // So a request is made for exactly the pending legs of the order.
  lemma AskedIff(s: Proc, a: string, oid: int, status: string, r: FlushReq)
    ensures r in Asked(s.pending, a, oid, status) <==>
            exists d :: SixDirections(d) && OrderKey(a, oid, d) in s.pending &&
                        r == FlushReq(OrderKey(a, oid, d), ByStatus, status)
  {
    InOneOfSix(r, AskedFor(s.pending, a, oid, status, "Open Long"), AskedFor(s.pending, a, oid, status, "Open Short"),
               AskedFor(s.pending, a, oid, status, "Close Long"), AskedFor(s.pending, a, oid, status, "Close Short"),
               AskedFor(s.pending, a, oid, status, "Buy"), AskedFor(s.pending, a, oid, status, "Sell"));
    assert r in Asked(s.pending, a, oid, status) <==>
           exists d :: SixDirections(d) && r in AskedFor(s.pending, a, oid, status, d);
    forall d ensures r in AskedFor(s.pending, a, oid, status, d) <==>
                     OrderKey(a, oid, d) in s.pending && r == FlushReq(OrderKey(a, oid, d), ByStatus, status)
    {
      InAskedFor(s, a, oid, status, d, r);
    }
  }

  lemma {:induction false} AlongOnce(s: Proc, a: string, oid: int, status: string, dirs: seq<string>)
    requires Distinct(dirs)
    ensures Distinct(AskedAlong(s.pending, a, oid, status, dirs))
    ensures forall r :: r in AskedAlong(s.pending, a, oid, status, dirs) ==>
              exists d :: d in dirs && r.key == OrderKey(a, oid, d)
  {
    if dirs != [] {
      var rest := AskedAlong(s.pending, a, oid, status, dirs[1..]);
      AlongOnce(s, a, oid, status, dirs[1..]);
      forall r | r in rest ensures r.key != OrderKey(a, oid, dirs[0]) {
        var d :| d in dirs[1..] && r.key == OrderKey(a, oid, d);
        LegKeysDiffer(a, oid, d, dirs[0]);
      }
      forall r | r in AskedAlong(s.pending, a, oid, status, dirs)
        ensures exists d :: d in dirs && r.key == OrderKey(a, oid, d)
      {
        if r in rest {
          var d :| d in dirs[1..] && r.key == OrderKey(a, oid, d);
          assert d in dirs;
        } else {
          assert dirs[0] in dirs && r.key == OrderKey(a, oid, dirs[0]);
        }
      }
    }
  }

  lemma SixAreDistinct()
    ensures Distinct(Directions(""))
  {
    assert "Open Long"[0] == 'O' && "Open Short"[0] == 'O' && "Close Long"[0] == 'C' && "Close Short"[0] == 'C';
    assert "Buy"[0] == 'B' && "Sell"[0] == 'S' && |"Open Long"| != |"Open Short"| && |"Close Long"| != |"Close Short"|;
  }

  // And once each.
  lemma AskedOnce(s: Proc, a: string, oid: int, status: string)
    ensures Distinct(Asked(s.pending, a, oid, status))
  {
    SixAreDistinct();
    AlongAll(s.pending, a, oid, status);
    AlongOnce(s, a, oid, status, Directions(""));
  }

  // ----- What a timeout scan asks for -----

  // The leg is pending, unsent and its first fill came more than five minutes ago.
  predicate Overdue(pending: map<string, Leg>, now: int, key: string) {
    key in pending && !pending[key].agg.signalSent && now - pending[key].firstFillTime > 300_000_000_000
  }

  function OverdueAlong(pending: map<string, Leg>, now: int, order: seq<string>): seq<FlushReq> {
    if order == [] then []
    else
      (if Overdue(pending, now, order[0]) then [FlushReq(order[0], ByTimeout, "filled")] else []) +
      OverdueAlong(pending, now, order[1..])
  }

  // A scan, whatever keys it visits in whatever order: each visited leg that is
  // overdue is requested, as far as there is room, and nothing else happens.
  lemma {:induction false} ScanAsks(s: Proc, order: seq<string>)
    ensures var t := Step(s, TimeoutScan(order));
            Made(s, t, OverdueAlong(s.pending, s.now, order)) && t.tracker == s.tracker
    decreases |order|
  {
    if order == [] {
      MadeNone(s);
    } else {
      var s1, rest := Visit(s, order[0]), OverdueAlong(s.pending, s.now, order[1..]);
      ScanAsks(s1, order[1..]);
      if Overdue(s.pending, s.now, order[0]) {
        MadeOneMore(s, s1, Scan(s1, order[1..]), FlushReq(order[0], ByTimeout, "filled"), rest);
      } else {
        assert [] + rest == rest;
      }
    }
  }

  // So with each key visited once, a request is made once for exactly the overdue
  // legs among them.
  lemma {:induction false} OverdueIff(s: Proc, order: seq<string>)
    ensures forall r :: r in OverdueAlong(s.pending, s.now, order) <==>
              r.key in order && Overdue(s.pending, s.now, r.key) && r == FlushReq(r.key, ByTimeout, "filled")
    ensures Distinct(order) ==> Distinct(OverdueAlong(s.pending, s.now, order))
  {
    if order != [] {
      OverdueIff(s, order[1..]);
      assert forall k :: k in order <==> k == order[0] || k in order[1..];
    }
  }

  // ----- What becomes of a request -----

  lemma OthersStay<T>(chan: seq<T>, i: nat, r: T)
    requires i < |chan| && r in chan && chan[i] != r
    ensures r in chan[..i] + chan[i + 1..]
  {
    var k :| 0 <= k < |chan| && chan[k] == r;
    var rest := chan[..i] + chan[i + 1..];
    assert rest[if k < i then k else k - 1] == r;
  }

  // A waiting request stays until a flush takes it.
  lemma StepKeepsRequest(s: Proc, e: Event, r: FlushReq)
    requires r in s.flushChan && r !in Step(s, e).flushChan
    ensures e.FlushAt? && e.index < |s.flushChan| && s.flushChan[e.index] == r
  {
    match e
    case FillMsg(address, fill, direction) =>
    case StatusMsg(address, oid, status, direction) =>
      NotifyGrows(OrderProtocol.Mark(s, address, oid, status), address, oid, status, Directions(direction));
    case TimeoutScan(order) => ScanGrows(s, order);
    case FlushAt(i, _) =>
      if i < |s.flushChan| && s.flushChan[i] != r {
        OthersStay(s.flushChan, i, r);
      }
    case Tick(_) =>
  }

  lemma {:induction false} NotifyGrows(s: Proc, a: string, oid: int, status: string, dirs: seq<string>)
    ensures s.flushChan <= Notify(s, a, oid, status, dirs).flushChan
  {
    NotifyMakes(s, a, oid, status, dirs);
  }

  lemma {:induction false} ScanGrows(s: Proc, order: seq<string>)
    ensures s.flushChan <= Scan(s, order).flushChan
  {
    ScanAsks(s, order);
  }

  predicate SignalledSince(s: Proc, n: nat, key: string) {
    exists i :: n <= i < |s.published| && s.published[i].agg.Key() == key
  }

  // From the time it is asked for, the leg is waited for or its signal is out.
  predicate OnItsWay(s: Proc, n: nat, r: FlushReq) {
    n <= |s.published| &&
    (SignalledSince(s, n, r.key) ||
     (r in s.flushChan && r.key in s.pending && SixDirections(s.pending[r.key].agg.direction)))
  }

  lemma DirectionStays(s: Proc, e: Event, key: string)
    requires key in s.pending && key in Step(s, e).pending
    ensures Step(s, e).pending[key].agg.direction == s.pending[key].agg.direction
  {
    match e
    case FillMsg(address, fill, direction) => FillEffect(s, address, fill, direction);
    case StatusMsg(address, oid, status, direction) => StatusIsQuiet(s, address, oid, status, direction);
    case TimeoutScan(order) => ScanIsQuiet(s, order);
    case _ =>
  }

  lemma LogGrows(s: Proc, e: Event)
    ensures s.published <= Step(s, e).published
  {
    match e
    case FillMsg(address, fill, direction) => FillEffect(s, address, fill, direction);
    case StatusMsg(address, oid, status, direction) => StatusIsQuiet(s, address, oid, status, direction);
    case TimeoutScan(order) => ScanIsQuiet(s, order);
    case _ =>
  }

  lemma StillSignalled(s: Proc, t: Proc, n: nat, key: string)
    requires SignalledSince(s, n, key) && s.published <= t.published
    ensures SignalledSince(t, n, key)
  {
    var i :| n <= i < |s.published| && s.published[i].agg.Key() == key;
    assert t.published[i] == s.published[i];
  }

  lemma StepOnItsWay(s: Proc, e: Event, n: nat, r: FlushReq)
    requires Inv(s) && OnItsWay(s, n, r) && (e.FlushAt? ==> e.publishOk)
    ensures OnItsWay(Step(s, e), n, r)
  {
    var t := Step(s, e);
    LogGrows(s, e);
    if SignalledSince(s, n, r.key) {
      StillSignalled(s, t, n, r.key);
    } else if r.key in t.pending {
      DirectionStays(s, e, r.key);
      if r !in t.flushChan {
        StepKeepsRequest(s, e, r);
        TakenLegGoes(s, e.index);
      }
    } else {
      LegLeavesOnlyByPublication(s, e, r.key);
      assert LegInvariant(s, r.key);
      assert t.published[|s.published|].agg.Key() == r.key;
    }
  }

  lemma TakenLegGoes(s: Proc, i: nat)
    requires Inv(s) && i < |s.flushChan| && s.flushChan[i].key in s.pending
    requires SixDirections(s.pending[s.flushChan[i].key].agg.direction)
    ensures s.flushChan[i].key !in Step(s, FlushAt(i, true)).pending
  {
    FlushSucceedsExactlyOnMappedDirections(s, i);
    SixAreMapped(s.pending[s.flushChan[i].key].agg.direction);
  }

  lemma SixAreMapped(d: string)
    requires SixDirections(d)
    ensures d in DIRECTIONS
  {
    MappedDirections(d);
  }

  lemma {:induction false} RunOnItsWay(s: Proc, es: seq<Event>, n: nat, r: FlushReq)
    requires Inv(s) && OnItsWay(s, n, r) && forall i :: 0 <= i < |es| && es[i].FlushAt? ==> es[i].publishOk
    ensures Inv(Run(s, es)) && OnItsWay(Run(s, es), n, r)
  {
    if es != [] {
      RunOnItsWay(s, es[..|es| - 1], n, r);
      StepKeepsInv(Run(s, es[..|es| - 1]), es[|es| - 1]);
      StepOnItsWay(Run(s, es[..|es| - 1]), es[|es| - 1], n, r);
    }
  }

  // After any run: a terminal status is followed by the signal of every pending
  // leg of its order, at the latest when the leg's request has been taken, given
  // room in the channel and a publisher that is up.
  lemma StatusLeadsToSignal(now: int, es: seq<Event>, a: string, oid: int, status: string, d: string, more: seq<Event>)
    requires var s := Run(Init(now), es);
             var key := OrderKey(a, oid, d);
             SixDirections(d) && key in s.pending && s.pending[key].agg.direction == d && |s.flushChan| <= 994
    requires status != "open" && status != "triggered"
    requires forall i :: 0 <= i < |more| && more[i].FlushAt? ==> more[i].publishOk
    requires FlushReq(OrderKey(a, oid, d), ByStatus, status) !in
             Run(Run(Init(now), es + [StatusMsg(a, oid, status, "")]), more).flushChan
    ensures SignalledSince(Run(Run(Init(now), es + [StatusMsg(a, oid, status, "")]), more),
                           |Run(Init(now), es).published|, OrderKey(a, oid, d))
  {
    var s, last := Run(Init(now), es), StatusMsg(a, oid, status, "");
    RunNext(Init(now), es, last);
    Reachable(now, es);
    Reachable(now, es + [last]);
    StatusFindsLeg(s, a, oid, status, d);
    RunOnItsWay(Run(Init(now), es + [last]), more, |s.published|, FlushReq(OrderKey(a, oid, d), ByStatus, status));
  }

  lemma StatusFindsLeg(s: Proc, a: string, oid: int, status: string, d: string)
    requires SixDirections(d) && OrderKey(a, oid, d) in s.pending && |s.flushChan| <= 994
    requires s.pending[OrderKey(a, oid, d)].agg.direction == d && status != "open" && status != "triggered"
    ensures OnItsWay(Step(s, StatusMsg(a, oid, status, "")), |s.published|, FlushReq(OrderKey(a, oid, d), ByStatus, status))
  {
    var t, reqs := Step(s, StatusMsg(a, oid, status, "")), Asked(s.pending, a, oid, status);
    var r := FlushReq(OrderKey(a, oid, d), ByStatus, status);
    StatusAsks(s, a, oid, status);
    AskedIff(s, a, oid, status, r);
    AtMostSix(s, a, oid, status);
    assert reqs[..|reqs|] == reqs && r in t.flushChan;
  }

  lemma AtMostSix(s: Proc, a: string, oid: int, status: string)
    ensures |Asked(s.pending, a, oid, status)| <= 6
  {
  }

  // ----- How old the leg of a timeout request is -----

  // The request was made by the scan at position j, of a leg overdue then.
  predicate MadeAt(now: int, es: seq<Event>, j: nat, r: FlushReq) {
    && j < |es| && es[j].TimeoutScan? && r.key in es[j].order
    && r.status == "filled"
    && var s := Run(Init(now), es[..j]); Overdue(s.pending, s.now, r.key)
  }

  lemma NewTimeout(s: Proc, e: Event, r: FlushReq)
    requires r.trigger == ByTimeout && r !in s.flushChan && r in Step(s, e).flushChan
    ensures e.TimeoutScan? && r.key in e.order && Overdue(s.pending, s.now, r.key) && r.status == "filled"
  {
    match e
    case FillMsg(address, fill, direction) =>
    case StatusMsg(address, oid, status, direction) =>
      NotifyTriggers(OrderProtocol.Mark(s, address, oid, status), address, oid, status, Directions(direction), r);
    case TimeoutScan(order) => ScanTriggers(s, order, r);
    case FlushAt(i, _) =>
    case Tick(_) =>
  }

  lemma InQueued(s: Proc, t: Proc, reqs: seq<FlushReq>, r: FlushReq)
    requires Made(s, t, reqs) && r in t.flushChan && r !in s.flushChan
    ensures r in reqs
  {
    var k := |t.flushChan| - |s.flushChan|;
    assert r in reqs[..k];
  }

  lemma {:induction false} NotifyTriggers(s: Proc, a: string, oid: int, status: string, dirs: seq<string>, r: FlushReq)
    requires r !in s.flushChan && r in Notify(s, a, oid, status, dirs).flushChan
    ensures r.trigger == ByStatus
  {
    NotifyMakes(s, a, oid, status, dirs);
    InQueued(s, Notify(s, a, oid, status, dirs), AskedAlong(s.pending, a, oid, status, dirs), r);
    ByStatusOnly(s, a, oid, status, dirs);
  }

  lemma {:induction false} ByStatusOnly(s: Proc, a: string, oid: int, status: string, dirs: seq<string>)
    ensures forall r :: r in AskedAlong(s.pending, a, oid, status, dirs) ==> r.trigger == ByStatus
  {
    if dirs != [] {
      ByStatusOnly(s, a, oid, status, dirs[1..]);
    }
  }

  lemma {:induction false} ScanTriggers(s: Proc, order: seq<string>, r: FlushReq)
    requires r !in s.flushChan && r in Scan(s, order).flushChan
    ensures r.key in order && Overdue(s.pending, s.now, r.key) && r.status == "filled"
  {
    ScanAsks(s, order);
    InQueued(s, Scan(s, order), OverdueAlong(s.pending, s.now, order), r);
    OverdueIff(s, order);
  }

  // Over any run: every waiting timeout request was made by a scan that visited
  // its leg when that was overdue.
  lemma {:induction false} TimeoutsAreDue(now: int, es: seq<Event>, r: FlushReq) returns (j: nat)
    requires r in Run(Init(now), es).flushChan && r.trigger == ByTimeout
    ensures MadeAt(now, es, j, r)
  {
    var n := |es| - 1;
    var s := Run(Init(now), es[..n]);
    if r in s.flushChan {
      j := TimeoutsAreDue(now, es[..n], r);
      assert es[..n][..j] == es[..j];
    } else {
      NewTimeout(s, es[n], r);
      j := n;
    }
  }

  // A leg that stays pending without a signal of its key is the same leg.
  lemma StepSameLeg(s: Proc, e: Event, key: string)
    requires key in s.pending && key in Step(s, e).pending
    ensures Step(s, e).pending[key].firstFillTime == s.pending[key].firstFillTime && s.now <= Step(s, e).now
  {
    match e
    case FillMsg(address, fill, direction) => FillEffect(s, address, fill, direction);
    case StatusMsg(address, oid, status, direction) => StatusIsQuiet(s, address, oid, status, direction);
    case TimeoutScan(order) => ScanIsQuiet(s, order);
    case _ =>
  }

  // The leg is as old as that at least, or a signal of its key went out since.
  predicate SameOrSignalled(s: Proc, t: Proc, key: string) {
    key in s.pending && |s.published| <= |t.published| &&
    (SignalledSince(t, |s.published|, key) ||
     (key in t.pending && t.pending[key].firstFillTime == s.pending[key].firstFillTime && s.now <= t.now))
  }

  lemma StepSameOrSignalled(s: Proc, t: Proc, e: Event, key: string)
    requires Inv(t) && SameOrSignalled(s, t, key)
    ensures SameOrSignalled(s, Step(t, e), key)
  {
    LogGrows(t, e);
    if SignalledSince(t, |s.published|, key) {
      StillSignalled(t, Step(t, e), |s.published|, key);
    } else if key in Step(t, e).pending {
      StepSameLeg(t, e, key);
    } else {
      LegLeavesOnlyByPublication(t, e, key);
      assert LegInvariant(t, key);
      assert Step(t, e).published[|t.published|].agg.Key() == key;
    }
  }

  lemma {:induction false} RunSameOrSignalled(s: Proc, es: seq<Event>, key: string)
    requires Inv(s) && key in s.pending
    ensures SameOrSignalled(s, Run(s, es), key)
  {
    if es != [] {
      RunSameOrSignalled(s, es[..|es| - 1], key);
      RunKeepsInv(s, es[..|es| - 1]);
      StepSameOrSignalled(s, Run(s, es[..|es| - 1]), es[|es| - 1], key);
    }
  }

  // Over any run: a timeout request that waits for a pending leg waits for one
  // older than five minutes, unless a signal of its key went out since it was made.
  lemma TimeoutLegIsOld(now: int, es: seq<Event>, r: FlushReq) returns (j: nat)
    requires r in Run(Init(now), es).flushChan && r.trigger == ByTimeout
    ensures MadeAt(now, es, j, r)
    ensures var before, s := Run(Init(now), es[..j]), Run(Init(now), es);
            SignalledSince(s, |before.published|, r.key) ||
            (r.key in s.pending && s.now - s.pending[r.key].firstFillTime > 300_000_000_000)
  {
    j := TimeoutsAreDue(now, es, r);
    assert es[..j] + es[j..] == es;
    RunParts(Init(now), es[..j], es[j..]);
    Reachable(now, es[..j]);
    RunSameOrSignalled(Run(Init(now), es[..j]), es[j..], r.key);
  }
}
