// The address loader's grace period: which addresses a sequence of snapshots
// keeps subscribed, and exactly when one is given up.
module GracePeriod {

  datatype Load = Load(at: int, snapshot: set<string>)

  datatype Loader = Loader(lastAddrs: set<string>, pendingRemove: map<string, int>, subscribed: set<string>)

  const EMPTY := Loader({}, map[], {})

  // Addresses missing from the snapshot, with the time they were first missed.
  function Missing(s: Loader, load: Load): map<string, int> {
    map a | a in s.pendingRemove.Keys + s.lastAddrs && a !in load.snapshot ::
      if a in s.pendingRemove then s.pendingRemove[a] else load.at
  }

  function Expired(s: Loader, load: Load, grace: int): set<string> {
    set a | a in Missing(s, load) && load.at - Missing(s, load)[a] >= grace
  }

  function Added(s: Loader, load: Load): set<string> {
    load.snapshot - s.lastAddrs
  }

  function Sync(s: Loader, load: Load, grace: int): Loader {
    var pending := Missing(s, load) - Expired(s, load, grace);
    Loader(load.snapshot + pending.Keys, pending,
           s.subscribed + Added(s, load) - Expired(s, load, grace))
  }

  function Run(h: seq<Load>, grace: int): Loader {
    if h == [] then EMPTY else Sync(Run(h[..|h| - 1], grace), h[|h| - 1], grace)
  }

  // ----- What the history alone says -----

  predicate Ordered(h: seq<Load>) {
    forall i, j :: 0 <= i <= j < |h| ==> h[i].at <= h[j].at
  }

  // Load f is the first of the absences that lasts until the last load.
  predicate AbsentFrom(h: seq<Load>, a: string, f: int) {
    && 0 < f < |h| && a in h[f - 1].snapshot
    && forall k :: f <= k < |h| ==> a !in h[k].snapshot
  }

  function Last(h: seq<Load>): Load
    requires h != []
  {
    h[|h| - 1]
  }

  // Present in the latest snapshot, or missing from it for less than the grace.
  ghost predicate Wanted(h: seq<Load>, a: string, grace: int) {
    h != [] &&
    (a in Last(h).snapshot || exists f :: AbsentFrom(h, a, f) && Last(h).at - h[f].at < grace)
  }

  lemma OneFirstAbsence(h: seq<Load>, a: string, f: int, g: int)
    requires AbsentFrom(h, a, f) && AbsentFrom(h, a, g)
    ensures f == g
  {
  }

  // An absence that lasts through one more load.
  lemma AbsenceExtends(h: seq<Load>, load: Load, a: string, f: int)
    requires a !in load.snapshot
    ensures f < |h| ==> (AbsentFrom(h + [load], a, f) <==> AbsentFrom(h, a, f))
    ensures AbsentFrom(h + [load], a, |h|) <==> h != [] && a in Last(h).snapshot
  {
    var l := h + [load];
    assert forall k :: 0 <= k < |h| ==> l[k] == h[k];
    if f < |h| && AbsentFrom(l, a, f) {
      assert AbsentFrom(h, a, f);
    }
  }

  ghost predicate Tracks(s: Loader, h: seq<Load>, grace: int) {
    && s.subscribed == s.lastAddrs
    && (h == [] ==> s == EMPTY)
    && (h != [] ==> s.lastAddrs == Last(h).snapshot + s.pendingRemove.Keys)
    && (forall a :: a in s.pendingRemove ==>
          exists f :: AbsentFrom(h, a, f) && s.pendingRemove[a] == h[f].at && Last(h).at - h[f].at < grace)
    && (forall a, f :: AbsentFrom(h, a, f) && Last(h).at - h[f].at < grace ==> a in s.pendingRemove)
  }

  // What the loader finds missing is what the history says is missing, unless
  // it was given up at an earlier load.
  lemma MissingTracks(s: Loader, h: seq<Load>, load: Load, grace: int, a: string)
    requires Tracks(s, h, grace)
    ensures a in Missing(s, load) ==>
              exists f :: AbsentFrom(h + [load], a, f) && Missing(s, load)[a] == (h + [load])[f].at &&
                          (f == |h| || Last(h).at - h[f].at < grace)
    ensures forall f :: AbsentFrom(h + [load], a, f) && (f == |h| || Last(h).at - h[f].at < grace) ==>
              a in Missing(s, load)
  {
    var l := h + [load];
    assert l[|h|] == load && forall k :: 0 <= k < |h| ==> l[k] == h[k];
    if a in Missing(s, load) {
      AbsenceExtends(h, load, a, |h|);
      if a in s.pendingRemove {
        var f :| AbsentFrom(h, a, f) && s.pendingRemove[a] == h[f].at && Last(h).at - h[f].at < grace;
        AbsenceExtends(h, load, a, f);
        assert AbsentFrom(l, a, f);
      } else {
        assert AbsentFrom(l, a, |h|);
      }
    }
    forall f | AbsentFrom(l, a, f) && (f == |h| || Last(h).at - h[f].at < grace)
      ensures a in Missing(s, load)
    {
      AbsenceExtends(h, load, a, f);
    }
  }

  // Whether an address is pending after one more load.
  lemma PendingTracks(s: Loader, h: seq<Load>, load: Load, grace: int, a: string)
    requires Tracks(s, h, grace) && Ordered(h + [load])
    ensures var l, t := h + [load], Sync(s, load, grace);
            && (a in t.pendingRemove ==>
                  exists f :: AbsentFrom(l, a, f) && t.pendingRemove[a] == l[f].at && load.at - l[f].at < grace)
            && (forall f :: AbsentFrom(l, a, f) && load.at - l[f].at < grace ==> a in t.pendingRemove)
  {
    var l, t := h + [load], Sync(s, load, grace);
    assert l[|h|] == load && forall k :: 0 <= k < |h| ==> l[k] == h[k];
    MissingTracks(s, h, load, grace, a);
    forall f | AbsentFrom(l, a, f) && load.at - l[f].at < grace
      ensures a in t.pendingRemove
    {
      if f < |h| {
        assert l[|h| - 1].at <= l[|h|].at;
      }
      assert a in Missing(s, load);
      var g :| AbsentFrom(l, a, g) && Missing(s, load)[a] == l[g].at;
      OneFirstAbsence(l, a, f, g);
    }
  }

  lemma SyncTracks(s: Loader, h: seq<Load>, load: Load, grace: int)
    requires Tracks(s, h, grace) && Ordered(h + [load])
    ensures Tracks(Sync(s, load, grace), h + [load], grace)
  {
    var l, t := h + [load], Sync(s, load, grace);
    assert Last(l) == load;
    forall a | a in t.pendingRemove
      ensures exists f :: AbsentFrom(l, a, f) && t.pendingRemove[a] == l[f].at && Last(l).at - l[f].at < grace
    {
      PendingTracks(s, h, load, grace, a);
    }
    forall a, f | AbsentFrom(l, a, f) && Last(l).at - l[f].at < grace
      ensures a in t.pendingRemove
    {
      PendingTracks(s, h, load, grace, a);
    }
    SubscribedTracks(s, h, load, grace);
  }

  lemma SubscribedTracks(s: Loader, h: seq<Load>, load: Load, grace: int)
    requires Tracks(s, h, grace)
    ensures Sync(s, load, grace).subscribed == Sync(s, load, grace).lastAddrs
  {
    var expired := Expired(s, load, grace);
    assert expired !! load.snapshot;
    assert Missing(s, load).Keys == (s.pendingRemove.Keys + s.lastAddrs) - load.snapshot;
    assert s.pendingRemove.Keys <= s.lastAddrs;
    assert s.subscribed + Added(s, load) - expired == load.snapshot + (Missing(s, load) - expired).Keys;
  }

  lemma {:induction false} RunTracks(h: seq<Load>, grace: int)
    requires Ordered(h)
    ensures Tracks(Run(h, grace), h, grace)
  {
    if h != [] {
      var front := h[..|h| - 1];
      RunTracks(front, grace);
      assert h == front + [h[|h| - 1]];
      SyncTracks(Run(front, grace), front, h[|h| - 1], grace);
    }
  }

  // The subscribed set after any run: the latest snapshot and the addresses
  // missing from it for less than the grace period.
  lemma SubscribedSet(h: seq<Load>, grace: int, a: string)
    requires Ordered(h)
    ensures var s := Run(h, grace);
            && s.subscribed == s.lastAddrs
            && (h != [] ==> s.lastAddrs == Last(h).snapshot + s.pendingRemove.Keys)
            && (a in s.subscribed <==> Wanted(h, a, grace))
  {
    RunTracks(h, grace);
  }

  // A load unsubscribes an address exactly when the address has been missing
  // from every snapshot since a first absence at least the grace period ago,
  // and this is the first load to find it so.
  lemma UnsubscribedExactlyOnExpiry(h: seq<Load>, load: Load, grace: int, a: string)
    requires Ordered(h + [load])
    ensures var l := h + [load];
            a in Expired(Run(h, grace), load, grace) <==>
            exists f :: AbsentFrom(l, a, f) && load.at - l[f].at >= grace &&
                        (f == |h| || Last(h).at - h[f].at < grace)
  {
    var l, s := h + [load], Run(h, grace);
    assert Ordered(h) by {
      assert forall k :: 0 <= k < |h| ==> l[k] == h[k];
    }
    RunTracks(h, grace);
    MissingTracks(s, h, load, grace, a);
    if a in Missing(s, load) {
      var g :| AbsentFrom(l, a, g) && Missing(s, load)[a] == l[g].at && (g == |h| || Last(h).at - h[g].at < grace);
      forall f | AbsentFrom(l, a, f) ensures f == g {
        OneFirstAbsence(l, a, f, g);
      }
    }
  }

  lemma SubscribedExactlyWhenNew(h: seq<Load>, load: Load, grace: int, a: string)
    requires Ordered(h)
    ensures a in Added(Run(h, grace), load) <==> a in load.snapshot && !Wanted(h, a, grace)
  {
    SubscribedSet(h, grace, a);
  }

  // An absence shorter than the grace period causes no call at all: neither
  // while it lasts nor at the load that ends it.
  lemma ShortFlapsAreSilent(h: seq<Load>, grace: int, a: string, i: nat, k: nat, m: nat)
    requires Ordered(h) && i < m <= k < |h|
    requires a in h[i].snapshot && a in h[k].snapshot
    requires forall j :: i < j < k ==> a !in h[j].snapshot
    requires i + 1 < k ==> h[k - 1].at - h[i + 1].at < grace
    ensures a !in Added(Run(h[..m], grace), h[m]) && a !in Expired(Run(h[..m], grace), h[m], grace)
  {
    var before := h[..m];
    if m == i + 1 {
      assert Last(before) == h[i];
    } else {
      assert AbsentFrom(before, a, i + 1);
      assert Last(before).at <= h[k - 1].at;
    }
    SubscribedSet(before, grace, a);
    if m < k {
      assert before + [h[m]] == h[..m + 1];
      UnsubscribedExactlyOnExpiry(before, h[m], grace, a);
      forall f | AbsentFrom(before + [h[m]], a, f) ensures f == i + 1 {
        assert AbsentFrom(before + [h[m]], a, i + 1);
        OneFirstAbsence(before + [h[m]], a, f, i + 1);
      }
      assert h[m].at <= h[k - 1].at;
    }
  }
}
