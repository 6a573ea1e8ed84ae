// Subsequences picked out by a test.
module Filters {

  function Without<T>(s: seq<T>, i: nat): seq<T>
    requires i < |s|
  {
    s[..i] + s[i + 1..]
  }

  function Filter<T>(s: seq<T>, p: T -> bool): (r: seq<T>)
    ensures |r| <= |s|
  {
    if s == [] then []
    else Filter(s[..|s| - 1], p) + (if p(s[|s| - 1]) then [s[|s| - 1]] else [])
  }

  lemma FilterSnoc<T>(s: seq<T>, x: T, p: T -> bool)
    ensures Filter(s + [x], p) == Filter(s, p) + (if p(x) then [x] else [])
  {
    assert (s + [x])[..|s|] == s;
  }

  lemma {:induction false} FilterConcat<T>(s: seq<T>, t: seq<T>, p: T -> bool)
    ensures Filter(s + t, p) == Filter(s, p) + Filter(t, p)
    decreases |t|
  {
    if t == [] {
      assert s + t == s;
    } else {
      var front := t[..|t| - 1];
      assert s + t == (s + front) + [t[|t| - 1]];
      FilterSnoc(s + front, t[|t| - 1], p);
      FilterConcat(s, front, p);
    }
  }

  // Taking out one element takes out its image, or nothing.
  lemma FilterWithout<T>(s: seq<T>, i: nat, p: T -> bool)
    requires i < |s|
    ensures var k := |Filter(s[..i], p)|;
            if p(s[i])
            then k < |Filter(s, p)| && Filter(s, p)[k] == s[i] &&
                 Filter(Without(s, i), p) == Without(Filter(s, p), k)
            else Filter(Without(s, i), p) == Filter(s, p)
  {
    FilterParts(s[..i], s[i], s[i + 1..], p);
    assert (s[..i] + [s[i]]) + s[i + 1..] == s;
  }

  lemma FilterParts<T>(l: seq<T>, x: T, r: seq<T>, p: T -> bool)
    ensures var all, k := Filter((l + [x]) + r, p), |Filter(l, p)|;
            if p(x) then k < |all| && all[k] == x && Filter(l + r, p) == Without(all, k) else Filter(l + r, p) == all
  {
    FilterConcat(l + [x], r, p);
    FilterSnoc(l, x, p);
    FilterConcat(l, r, p);
    if p(x) {
      WithoutMiddle(Filter(l, p), x, Filter(r, p));
    }
  }

  lemma WithoutMiddle<T>(l: seq<T>, x: T, r: seq<T>)
    ensures Without((l + [x]) + r, |l|) == l + r && ((l + [x]) + r)[|l|] == x
  {
  }

  lemma {:induction false} FilterSound<T>(s: seq<T>, p: T -> bool)
    ensures forall i :: 0 <= i < |Filter(s, p)| ==> p(Filter(s, p)[i])
  {
    if s != [] {
      FilterSound(s[..|s| - 1], p);
    }
  }

  // The picked elements are those that pass, in the order of their positions.
  ghost predicate Picks<T>(at: seq<nat>, s: seq<T>, p: T -> bool) {
    && |at| == |Filter(s, p)|
    && (forall k :: 0 <= k < |at| ==> at[k] < |s| && s[at[k]] == Filter(s, p)[k])
    && (forall k, l :: 0 <= k < l < |at| ==> at[k] < at[l])
    && (forall i :: 0 <= i < |s| && p(s[i]) ==> i in at)
  }

  lemma PicksNext<T>(at: seq<nat>, s: seq<T>, x: T, p: T -> bool)
    requires Picks(at, s, p)
    ensures Picks(if p(x) then at + [|s|] else at, s + [x], p)
  {
    FilterSnoc(s, x, p);
    var all, next := s + [x], if p(x) then at + [|s|] else at;
    forall k | 0 <= k < |next| ensures next[k] < |all| && all[next[k]] == Filter(all, p)[k] {
      if k < |at| {
        assert next[k] == at[k] && s[at[k]] == Filter(s, p)[k];
      }
    }
    forall k, l | 0 <= k < l < |next| ensures next[k] < next[l] {
      assert next[k] == at[k];
      if l < |at| {
        assert next[l] == at[l];
      }
    }
    forall i | 0 <= i < |all| && p(all[i]) ensures i in next {
      if i == |s| {
        assert next[|at|] == i;
      } else {
        assert all[i] == s[i] && i in at;
      }
    }
  }

  lemma {:induction false} FilterPositions<T>(s: seq<T>, p: T -> bool) returns (at: seq<nat>)
    ensures Picks(at, s, p)
    decreases |s|, 0
  {
    if s == [] {
      at := [];
    } else {
      at := PositionsNext(s[..|s| - 1], s[|s| - 1], p);
      assert s[..|s| - 1] + [s[|s| - 1]] == s;
    }
  }

  lemma {:induction false} PositionsNext<T>(front: seq<T>, x: T, p: T -> bool) returns (at: seq<nat>)
    ensures Picks(at, front + [x], p)
    decreases |front|, 1
  {
    at := FilterPositions(front, p);
    PicksNext(at, front, x, p);
    if p(x) {
      at := at + [|front|];
    }
  }
}
