// Splitting a reversal fill into the part that closes the old position and the
// part that opens the new one, and grouping an order's fills by direction.
module ReversalSplit {
  import opened Basics
  import opened Filters
  import opened OrderProtocol
  import opened OrderInvariants

  const LONG_TO_SHORT := "Long > Short"
  const SHORT_TO_LONG := "Short > Long"

  predicate IsReversal(dir: string) {
    dir == LONG_TO_SHORT || dir == SHORT_TO_LONG
  }

  function ReverseDirections(dir: string): (string, string) {
    if dir == LONG_TO_SHORT then ("Close Long", "Open Short")
    else if dir == SHORT_TO_LONG then ("Close Short", "Open Long")
    else ("", "")
  }

  function ClosePart(f: Fill): Fill {
    f.(dir := ReverseDirections(f.dir).0, sz := Abs(f.startPosition))
  }

  function OpenPart(f: Fill): Fill {
    f.(dir := ReverseDirections(f.dir).1, sz := Max(f.sz - Abs(f.startPosition), 0.0))
  }

  function Parts(f: Fill): seq<Fill> {
    if IsReversal(f.dir) then [ClosePart(f), OpenPart(f)] else [f]
  }

  function Expand(fills: seq<Fill>): seq<Fill> {
    if fills == [] then [] else Expand(fills[..|fills| - 1]) + Parts(fills[|fills| - 1])
  }

  function InDirection(d: string): Fill -> bool {
    (f: Fill) => f.dir == d
  }

  function Directions(parts: seq<Fill>): set<string> {
    set f | f in parts :: f.dir
  }

  // The parts of each direction, in their order of arrival.
  function Grouped(parts: seq<Fill>): map<string, seq<Fill>> {
    map d | d in Directions(parts) :: Filter(parts, InDirection(d))
  }

  function Append(grouped: map<string, seq<Fill>>, f: Fill): map<string, seq<Fill>> {
    grouped[f.dir := (if f.dir in grouped then grouped[f.dir] else []) + [f]]
  }

  lemma {:induction false} AbsentDirection(parts: seq<Fill>, d: string)
    requires d !in Directions(parts)
    ensures Filter(parts, InDirection(d)) == []
  {
    if parts != [] {
      forall f | f in parts[..|parts| - 1] ensures f.dir in Directions(parts) {
        assert f in parts;
      }
      assert parts[|parts| - 1] in parts;
      AbsentDirection(parts[..|parts| - 1], d);
    }
  }

  lemma GroupedSnoc(parts: seq<Fill>, f: Fill)
    ensures Grouped(parts + [f]) == Append(Grouped(parts), f)
  {
    var all := parts + [f];
    assert forall g :: g in all <==> g in parts || g == f;
    assert f in all;
    assert Directions(all) == Directions(parts) + {f.dir} by {
      forall d | d in Directions(parts) ensures d in Directions(all) {
        var g :| g in parts && g.dir == d;
        assert g in all;
      }
    }
    forall d | d in Directions(all)
      ensures Grouped(all)[d] == Append(Grouped(parts), f)[d]
    {
      FilterSnoc(parts, f, InDirection(d));
      if d !in Directions(parts) {
        AbsentDirection(parts, d);
      }
    }
  }

  function CloneFillWithDirection(fill: Fill, dir: string, sz: real): Fill {
    fill.(dir := dir, sz := sz)
  }

  method AddReversedFills(grouped: map<string, seq<Fill>>, fill: Fill, ghost before: seq<Fill>)
    returns (result: map<string, seq<Fill>>)
    requires IsReversal(fill.dir) && grouped == Grouped(before)
    ensures result == Grouped(before + Parts(fill))
  {
    var (closeDir, openDir) := ReverseDirections(fill.dir);
    var closeSize := Abs(fill.startPosition);
    var openSize := Max(fill.sz - closeSize, 0.0);
    var close := CloneFillWithDirection(fill, closeDir, closeSize);
    var open := CloneFillWithDirection(fill, openDir, openSize);
    result := AppendBoth(grouped, close, open, before);
    assert Parts(fill) == [close, open];
  }

  method AppendBoth(grouped: map<string, seq<Fill>>, close: Fill, open: Fill, ghost before: seq<Fill>)
    returns (result: map<string, seq<Fill>>)
    requires grouped == Grouped(before)
    ensures result == Grouped(before + [close, open])
  {
    GroupedSnoc(before, close);
    GroupedSnoc(before + [close], open);
    result := Append(grouped, close);
    result := Append(result, open);
    assert before + [close, open] == (before + [close]) + [open];
  }

  // ----- What a fill means for one direction -----

  // A fill turning a long position short closes the long and opens a short; one
  // turning a short position long closes the short and opens a long.  The old
  // position is closed whole, and opened is what the fill has beyond it.
  function Share(f: Fill, d: string): seq<Fill> {
    var position := if f.startPosition < 0.0 then -f.startPosition else f.startPosition;
    if (d == "Close Long" && f.dir == "Long > Short") || (d == "Close Short" && f.dir == "Short > Long")
    then [f.(dir := d, sz := position)]
    else if (d == "Open Short" && f.dir == "Long > Short") || (d == "Open Long" && f.dir == "Short > Long")
    then [f.(dir := d, sz := if f.sz > position then f.sz - position else 0.0)]
    else if f.dir == d && d != "Long > Short" && d != "Short > Long" then [f]
    else []
  }

  function Shares(fills: seq<Fill>, d: string): seq<Fill> {
    if fills == [] then [] else Shares(fills[..|fills| - 1], d) + Share(fills[|fills| - 1], d)
  }

  lemma FilterTwo(x: Fill, y: Fill, d: string)
    ensures Filter([x, y], InDirection(d)) == (if x.dir == d then [x] else []) + (if y.dir == d then [y] else [])
  {
    assert [x, y][..1] == [x] && [x][..0] == [];
  }

  lemma PartsInDirection(f: Fill, d: string)
    ensures Filter(Parts(f), InDirection(d)) == Share(f, d)
  {
    assert "Close Long"[0] == 'C' && "Open Short"[0] == 'O' && "Close Short"[0] == 'C' && "Open Long"[0] == 'O';
    assert LONG_TO_SHORT[0] == 'L' && SHORT_TO_LONG[0] == 'S';
    if IsReversal(f.dir) {
      FilterTwo(ClosePart(f), OpenPart(f), d);
    } else {
      assert [f][..0] == [];
    }
  }

  lemma {:induction false} ExpandInDirection(fills: seq<Fill>, d: string)
    ensures Filter(Expand(fills), InDirection(d)) == Shares(fills, d)
  {
    if fills != [] {
      var front, last := fills[..|fills| - 1], fills[|fills| - 1];
      ExpandInDirection(front, d);
      FilterConcat(Expand(front), Parts(last), InDirection(d));
      PartsInDirection(last, d);
    }
  }

  // A group is the fills' shares of its direction, and there is one for every
  // direction with a share.
  lemma GroupIsShares(fills: seq<Fill>, d: string)
    ensures d in Grouped(Expand(fills)) <==> Shares(fills, d) != []
    ensures d in Grouped(Expand(fills)) ==> Grouped(Expand(fills))[d] == Shares(fills, d)
  {
    ExpandInDirection(fills, d);
    if d !in Directions(Expand(fills)) {
      AbsentDirection(Expand(fills), d);
    } else {
      var f :| f in Expand(fills) && f.dir == d;
      PresentDirection(Expand(fills), f);
    }
  }

  lemma {:induction false} PresentDirection(parts: seq<Fill>, f: Fill)
    requires f in parts
    ensures Filter(parts, InDirection(f.dir)) != []
  {
    var front := parts[..|parts| - 1];
    if f in front {
      PresentDirection(front, f);
    }
  }

  ghost predicate ByShares(grouped: map<string, seq<Fill>>, fills: seq<Fill>) {
    && (forall d :: d in grouped <==> Shares(fills, d) != [])
    && (forall d :: d in grouped ==> grouped[d] == Shares(fills, d))
  }

  lemma GroupsAreShares(fills: seq<Fill>)
    ensures ByShares(Grouped(Expand(fills)), fills)
  {
    forall d
      ensures d in Grouped(Expand(fills)) <==> Shares(fills, d) != []
      ensures d in Grouped(Expand(fills)) ==> Grouped(Expand(fills))[d] == Shares(fills, d)
    {
      GroupIsShares(fills, d);
    }
  }

  method SplitReversedOrder(fills: seq<Fill>) returns (grouped: map<string, seq<Fill>>)
    ensures grouped == Grouped(Expand(fills))
    ensures ByShares(grouped, fills)
  {
    GroupsAreShares(fills);
    grouped := map[];
    for i := 0 to |fills|
      invariant grouped == Grouped(Expand(fills[..i]))
    {
      assert fills[..i + 1][..i] == fills[..i];
      if fills[i].dir == LONG_TO_SHORT || fills[i].dir == SHORT_TO_LONG {
        grouped := AddReversedFills(grouped, fills[i], Expand(fills[..i]));
      } else {
        GroupedSnoc(Expand(fills[..i]), fills[i]);
        grouped := Append(grouped, fills[i]);
      }
    }
    assert fills[..|fills|] == fills;
  }

  // ----- What the split keeps -----

  // Each reversal fill yields one closing and one opening part, of the same
  // trade: the closing one of the old side and the whole old position, the opening
  // one of the new side and what the fill has beyond that.
  lemma ReversalParts(f: Fill)
    requires IsReversal(f.dir)
    ensures var close, open := ClosePart(f), OpenPart(f);
            && Parts(f) == [close, open]
            && !IsReversal(close.dir) && !IsReversal(open.dir) && close.dir != open.dir
            && close.dir in OrderProtocol.DIRECTIONS && open.dir in OrderProtocol.DIRECTIONS
            && close == f.(dir := close.dir, sz := close.sz) && open == f.(dir := open.dir, sz := open.sz)
            && (f.dir == "Long > Short" ==> close.dir == "Close Long" && open.dir == "Open Short")
            && (f.dir == "Short > Long" ==> close.dir == "Close Short" && open.dir == "Open Long")
            && close.sz == (if f.startPosition < 0.0 then -f.startPosition else f.startPosition)
            && open.sz == (if f.sz > close.sz then f.sz - close.sz else 0.0)
            && close.sz >= 0.0 && open.sz >= 0.0
            && close.sz + open.sz == Max(f.sz, Abs(f.startPosition))
  {
    assert OrderProtocol.DIRECTIONS[0] == "Open Long" && OrderProtocol.DIRECTIONS[1] == "Open Short";
    assert OrderProtocol.DIRECTIONS[2] == "Close Long" && OrderProtocol.DIRECTIONS[3] == "Close Short";
    assert "Close Long"[0] == 'C' && "Open Short"[0] == 'O' && "Close Short"[0] == 'C' && "Open Long"[0] == 'O';
    assert LONG_TO_SHORT[0] == 'L' && SHORT_TO_LONG[0] == 'S';
    assert SHORT_TO_LONG != LONG_TO_SHORT;
  }

  lemma {:induction false} NoReversalLeft(fills: seq<Fill>, g: Fill)
    requires g in Expand(fills)
    ensures !IsReversal(g.dir)
    ensures exists f :: f in fills && g in Parts(f)
  {
    var front, last := fills[..|fills| - 1], fills[|fills| - 1];
    if g in Expand(front) {
      NoReversalLeft(front, g);
      var f :| f in front && g in Parts(f);
      assert f in fills;
    } else {
      assert g in Parts(last) && last in fills;
      if IsReversal(last.dir) {
        ReversalParts(last);
      }
    }
  }

  // A group holds exactly the parts of its direction, in order of arrival.
  lemma GroupHoldsItsDirection(fills: seq<Fill>, d: string) returns (at: seq<nat>)
    requires d in Grouped(Expand(fills))
    ensures !IsReversal(d)
    ensures var parts, group := Expand(fills), Grouped(Expand(fills))[d];
            && |at| == |group|
            && (forall k :: 0 <= k < |at| ==> at[k] < |parts| && parts[at[k]] == group[k] && group[k].dir == d)
            && (forall k, l :: 0 <= k < l < |at| ==> at[k] < at[l])
            && (forall i :: 0 <= i < |parts| && parts[i].dir == d ==> i in at)
  {
    var parts := Expand(fills);
    var f :| f in parts && f.dir == d;
    NoReversalLeft(fills, f);
    at := FilterPositions(parts, InDirection(d));
    FilterSound(parts, InDirection(d));
  }

  predicate Covered(f: Fill) {
    IsReversal(f.dir) ==> f.sz >= Abs(f.startPosition)
  }

  predicate AllCovered(fills: seq<Fill>) {
    forall i :: 0 <= i < |fills| ==> Covered(fills[i])
  }

  lemma CoveredSnoc(front: seq<Fill>, last: Fill)
    ensures AllCovered(front + [last]) <==> AllCovered(front) && Covered(last)
  {
    var all := front + [last];
    assert all[|front|] == last;
    if AllCovered(all) {
      forall i | 0 <= i < |front| ensures Covered(front[i]) {
        assert all[i] == front[i];
      }
    }
  }

  lemma PartsSize(f: Fill)
    ensures SumSize(Parts(f)) >= f.sz
    ensures SumSize(Parts(f)) == f.sz <==> Covered(f)
  {
    if IsReversal(f.dir) {
      assert Parts(f) == [ClosePart(f)] + [OpenPart(f)];
      SumsOfConcat([ClosePart(f)], [OpenPart(f)]);
      SumsOfOne(ClosePart(f));
      SumsOfOne(OpenPart(f));
    } else {
      SumsOfOne(f);
    }
  }

  lemma SumsAgree(a: real, b: real, c: real, d: real)
    requires a >= b && c >= d
    ensures a + c >= b + d && (a + c == b + d <==> a == b && c == d)
  {
  }

  lemma {:induction false} SplitSnoc(front: seq<Fill>, last: Fill)
    ensures var fills := front + [last];
            && SumSize(Expand(fills)) >= SumSize(fills)
            && (SumSize(Expand(fills)) == SumSize(fills) <==> AllCovered(fills))
    decreases |front|, 1
  {
    SplitConservesSize(front);
    assert (front + [last])[..|front|] == front;
    assert Expand(front + [last]) == Expand(front) + Parts(last);
    PartsSize(last);
    SumsOfConcat(Expand(front), Parts(last));
    SumsSnoc(front, last);
    CoveredSnoc(front, last);
    SumsAgree(SumSize(Expand(front)), SumSize(front), SumSize(Parts(last)), last.sz);
  }

  // The split never loses size, and it invents none exactly when every reversal
  // fill is at least as large as the position it reverses.
  lemma {:induction false} SplitConservesSize(fills: seq<Fill>)
    ensures SumSize(Expand(fills)) >= SumSize(fills)
    ensures SumSize(Expand(fills)) == SumSize(fills) <==> AllCovered(fills)
    decreases |fills|, 0
  {
    if fills != [] {
      SplitSnoc(fills[..|fills| - 1], fills[|fills| - 1]);
      assert fills[..|fills| - 1] + [fills[|fills| - 1]] == fills;
    }
  }

  function SumGroups(grouped: map<string, seq<Fill>>, dirs: seq<string>): real
    requires forall i :: 0 <= i < |dirs| ==> dirs[i] in grouped
  {
    if dirs == [] then 0.0
    else SumGroups(grouped, dirs[..|dirs| - 1]) + SumSize(grouped[dirs[|dirs| - 1]])
  }

  function SizeIn(parts: seq<Fill>, dirs: seq<string>): real {
    if parts == [] then 0.0
    else SizeIn(parts[..|parts| - 1], dirs) +
         (if parts[|parts| - 1].dir in dirs then parts[|parts| - 1].sz else 0.0)
  }

  lemma {:induction false} SizeInMore(parts: seq<Fill>, dirs: seq<string>, d: string)
    requires d !in dirs
    ensures SizeIn(parts, dirs + [d]) == SizeIn(parts, dirs) + SumSize(Filter(parts, InDirection(d)))
  {
    assert forall e :: e in dirs + [d] <==> e in dirs || e == d;
    if parts != [] {
      SizeInMore(parts[..|parts| - 1], dirs, d);
      var front, last := Filter(parts[..|parts| - 1], InDirection(d)), parts[|parts| - 1];
      SumsOfConcat(front, [last]);
      SumsOfOne(last);
      assert front + [] == front;
    }
  }

  lemma {:induction false} GroupSizes(parts: seq<Fill>, dirs: seq<string>)
    requires Distinct(dirs) && forall i :: 0 <= i < |dirs| ==> dirs[i] in Grouped(parts)
    ensures SumGroups(Grouped(parts), dirs) == SizeIn(parts, dirs)
  {
    if dirs == [] {
      NoSizeInNone(parts);
    } else {
      var front, d := dirs[..|dirs| - 1], dirs[|dirs| - 1];
      GroupSizes(parts, front);
      assert dirs == front + [d];
      SizeInMore(parts, front, d);
    }
  }

  lemma {:induction false} NoSizeInNone(parts: seq<Fill>)
    ensures SizeIn(parts, []) == 0.0
  {
    if parts != [] {
      NoSizeInNone(parts[..|parts| - 1]);
    }
  }

  lemma {:induction false} AllSizeInAll(parts: seq<Fill>, dirs: seq<string>)
    requires forall f :: f in parts ==> f.dir in dirs
    ensures SizeIn(parts, dirs) == SumSize(parts)
  {
    if parts != [] {
      AllSizeInAll(parts[..|parts| - 1], dirs);
    }
  }

  // Summed over the groups: the sizes of the groups add up to the sizes of the
  // input fills exactly when every reversal fill covers its start position.
  lemma GroupsConserveSize(fills: seq<Fill>, dirs: seq<string>)
    requires Distinct(dirs) && forall d :: d in dirs <==> d in Grouped(Expand(fills))
    ensures SumGroups(Grouped(Expand(fills)), dirs) >= SumSize(fills)
    ensures SumGroups(Grouped(Expand(fills)), dirs) == SumSize(fills) <==> AllCovered(fills)
  {
    var parts := Expand(fills);
    forall f | f in parts ensures f.dir in dirs {
      assert f.dir in Directions(parts);
    }
    GroupSizes(parts, dirs);
    AllSizeInAll(parts, dirs);
    SplitConservesSize(fills);
  }
}
