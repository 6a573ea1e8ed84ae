// Order updates carry no user, so every message is broadcast to the callbacks
// of all subscribed addresses; the oid map decides whose order it is.
module Broadcast {
  import opened Basics
  import opened OrderProtocol
  import opened Filters

  datatype Update = Update(oid: int, coin: string, status: string)

  function BeforeColon(s: string): string {
    if s == "" || s[0] == ':' then "" else [s[0]] + BeforeColon(s[1..])
  }

  // Coins of another deployer's market are skipped.
  predicate ForeignCoin(coin: string) {
    ':' in coin && BeforeColon(coin) != "xyz"
  }

  lemma {:induction false} BeforeColonIs(s: string, p: string, rest: string)
    requires s == p + ":" + rest && ':' !in p
    ensures BeforeColon(s) == p
  {
    if p == "" {
      assert s[0] == ':';
    } else {
      assert s[0] == p[0] && p[0] in p;
      assert s[1..] == p[1..] + ":" + rest;
      BeforeColonIs(s[1..], p[1..], rest);
      assert p == [p[0]] + p[1..];
    }
  }

  lemma {:induction false} ColonSplits(s: string)
    requires ':' in s
    ensures BeforeColon(s) + ":" <= s && ':' !in BeforeColon(s)
  {
    if s[0] != ':' {
      ColonSplits(s[1..]);
      assert s == [s[0]] + s[1..];
    }
  }

  lemma ForeignCoinIff(coin: string)
    ensures ForeignCoin(coin) <==> ':' in coin && !("xyz:" <= coin)
  {
    if "xyz:" <= coin {
      assert coin == "xyz" + ":" + coin[4..];
      assert coin[3] == ':';
      BeforeColonIs(coin, "xyz", coin[4..]);
    }
    if ':' in coin {
      ColonSplits(coin);
    }
  }

  // One order of one callback's message: what is enqueued, and whether the oid
  // is forgotten.
  predicate Delivers(owners: map<int, string>, addresses: set<string>, user: string, u: Update) {
    && !ForeignCoin(u.coin) && u.oid in owners && user == owners[u.oid]
    && !NonTerminal(u.status) && owners[u.oid] in addresses
  }

  datatype Delivery = Delivery(user: string, update: Update)

  // The effect of any interleaving of callbacks, order by order.
  function Forget(owners: map<int, string>, addresses: set<string>, steps: seq<Delivery>): map<int, string> {
    if steps == [] then owners
    else
      var before := Forget(owners, addresses, steps[..|steps| - 1]);
      var d := steps[|steps| - 1];
      if Delivers(before, addresses, d.user, d.update) then before - {d.update.oid} else before
  }

  function Messages(owners: map<int, string>, addresses: set<string>, steps: seq<Delivery>): seq<Event> {
    if steps == [] then []
    else
      var before := Forget(owners, addresses, steps[..|steps| - 1]);
      var d := steps[|steps| - 1];
      Messages(owners, addresses, steps[..|steps| - 1]) +
      (if Delivers(before, addresses, d.user, d.update)
       then [StatusMsg(before[d.update.oid], d.update.oid, d.update.status, "")] else [])
  }

  function ForOid(oid: int): Event -> bool {
    (e: Event) => e.StatusMsg? && e.oid == oid
  }

  function UpdatesTo(steps: seq<Delivery>, user: string): seq<Update> {
    if steps == [] then []
    else UpdatesTo(steps[..|steps| - 1], user) +
         (if steps[|steps| - 1].user == user then [steps[|steps| - 1].update] else [])
  }

  // The status that ends the order, as its owner's callback sees it.
  function Terminal(updates: seq<Update>, oid: int): Option<string> {
    if updates == [] then None
    else
      var earlier := Terminal(updates[..|updates| - 1], oid);
      var u := updates[|updates| - 1];
      if earlier.Some? then earlier
      else if u.oid == oid && !ForeignCoin(u.coin) && !NonTerminal(u.status) then Some(u.status)
      else None
  }

  function Expected(owners: map<int, string>, addresses: set<string>, steps: seq<Delivery>, oid: int): Option<string> {
    if oid in owners && owners[oid] in addresses
    then Terminal(UpdatesTo(steps, owners[oid]), oid) else None
  }

  // What has been enqueued for the order and whether it is still remembered,
  // when status is what it has ended with so far.
  predicate Agrees(owners: map<int, string>, before: map<int, string>, sent: seq<Event>, oid: int, status: Option<string>) {
    && (status.Some? ==> oid in owners)
    && Filter(sent, ForOid(oid)) ==
       (if status.Some? then [StatusMsg(owners[oid], oid, status.value, "")] else [])
    && (oid in before <==> oid in owners && status.None?)
    && (oid in before ==> before[oid] == owners[oid])
  }

  predicate Ends(owners: map<int, string>, addresses: set<string>, d: Delivery, oid: int) {
    && oid in owners && owners[oid] in addresses && d.user == owners[oid]
    && d.update.oid == oid && !ForeignCoin(d.update.coin) && !NonTerminal(d.update.status)
  }

  lemma ExpectedStep(owners: map<int, string>, addresses: set<string>, steps: seq<Delivery>, d: Delivery, oid: int)
    ensures Expected(owners, addresses, steps + [d], oid) ==
            var earlier := Expected(owners, addresses, steps, oid);
            if earlier.None? && Ends(owners, addresses, d, oid) then Some(d.update.status) else earlier
  {
    assert (steps + [d])[..|steps|] == steps;
    if oid in owners {
      var own := UpdatesTo(steps, owners[oid]);
      assert (own + [d.update])[..|own|] == own;
      assert own + [] == own;
    }
  }

  lemma AgreesStep(owners: map<int, string>, before: map<int, string>, addresses: set<string>, sent: seq<Event>,
                   d: Delivery, oid: int, status: Option<string>)
    requires Agrees(owners, before, sent, oid, status)
    ensures var next := if status.None? && Ends(owners, addresses, d, oid) then Some(d.update.status) else status;
            if Delivers(before, addresses, d.user, d.update)
            then Agrees(owners, before - {d.update.oid},
                        sent + [StatusMsg(before[d.update.oid], d.update.oid, d.update.status, "")], oid, next)
            else Agrees(owners, before, sent, oid, next)
  {
    if Delivers(before, addresses, d.user, d.update) {
      FilterSnoc(sent, StatusMsg(before[d.update.oid], d.update.oid, d.update.status, ""), ForOid(oid));
    }
  }

  // Under any interleaving: the order's status is enqueued exactly once, for
  // the owner, with the first terminal status the owner's callback meets; or
  // never.  The oid is forgotten exactly when it is enqueued.
  lemma {:induction false} Ownership(owners: map<int, string>, addresses: set<string>, steps: seq<Delivery>, oid: int)
    ensures Agrees(owners, Forget(owners, addresses, steps), Messages(owners, addresses, steps), oid,
                   Expected(owners, addresses, steps, oid))
  {
    if steps != [] {
      var front, d := steps[..|steps| - 1], steps[|steps| - 1];
      Ownership(owners, addresses, front, oid);
      ExpectedStep(owners, addresses, front, d, oid);
      assert front + [d] == steps;
      var sent := Messages(owners, addresses, front);
      assert sent + [] == sent;
      AgreesStep(owners, Forget(owners, addresses, front), addresses, sent, d, oid,
                 Expected(owners, addresses, front, oid));
    }
  }

  // One message broadcast to every subscribed address's callback, in any
  // interleaving (and to any other callbacks besides): a terminal order that is
  // not filtered is enqueued exactly once if its oid maps to a subscribed
  // address, for that owner only, and otherwise never.
  lemma BroadcastOwnership(owners: map<int, string>, addresses: set<string>, steps: seq<Delivery>,
                           orders: seq<Update>, oid: int)
    requires forall a :: a in addresses ==> UpdatesTo(steps, a) == orders
    ensures Filter(Messages(owners, addresses, steps), ForOid(oid)) ==
            if oid in owners && owners[oid] in addresses && Terminal(orders, oid).Some?
            then [StatusMsg(owners[oid], oid, Terminal(orders, oid).value, "")] else []
  {
    Ownership(owners, addresses, steps, oid);
  }

  // Nothing else is ever enqueued.
  lemma {:induction false} OnlyStatuses(owners: map<int, string>, addresses: set<string>, steps: seq<Delivery>)
    ensures forall i :: 0 <= i < |Messages(owners, addresses, steps)| ==>
              Messages(owners, addresses, steps)[i].StatusMsg? && Messages(owners, addresses, steps)[i].direction == ""
  {
    if steps != [] {
      OnlyStatuses(owners, addresses, steps[..|steps| - 1]);
    }
  }
}
