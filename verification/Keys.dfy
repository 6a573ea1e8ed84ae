// The formatted string keys: "address-oid-direction" for pending legs and the
// dedup cache, "address-oid" for the status tracker.
module Keys {
  import opened Decimal

  function TrackKey(address: string, oid: int): string {
    address + "-" + FormatInt(oid)
  }

  // What every leg key of one order starts with.
  function LegPrefix(address: string, oid: int): string {
    TrackKey(address, oid) + "-"
  }

  function OrderKey(address: string, oid: int, direction: string): string {
    LegPrefix(address, oid) + direction
  }

  predicate Free(s: string, c: char) {
    forall i :: 0 <= i < |s| ==> s[i] != c
  }

  // Text up to the first separator is determined by the whole string.
  lemma SplitAtFirst(a: string, x: string, b: string, y: string, c: char)
    requires Free(a, c) && Free(b, c)
    requires a + [c] + x == b + [c] + y
    ensures a == b && x == y
  {
    var s, t := a + [c] + x, b + [c] + y;
    assert s[|a|] == c && t[|b|] == c;
    assert s[..|a|] == a && t[..|b|] == b;
    assert s[|a| + 1..] == x && t[|b| + 1..] == y;
  }

  lemma DigitsFree(n: nat, c: char)
    requires !IsDigit(c)
    ensures Free(Digits(n), c)
  {
    var s := Digits(n);
    forall i | 0 <= i < |s| ensures s[i] != c {
      assert IsDigit(s[i]);
    }
  }

  lemma SignOf(m: int)
    ensures |FormatInt(m)| > 0 && (FormatInt(m)[0] == '-' <==> m < 0)
    ensures FormatInt(m) == (if m < 0 then "-" else "") + Digits(if m < 0 then -m else m)
  {
    var digits := Digits(if m < 0 then -m else m);
    assert IsDigit(digits[0]);
    assert "" + digits == digits;
  }

  // An integer ends at the first separator that is neither a digit nor its own sign.
  lemma SplitAfterInt(m: int, x: string, n: int, y: string, c: char)
    requires !IsDigit(c)
    requires FormatInt(m) + [c] + x == FormatInt(n) + [c] + y
    ensures m == n && x == y
  {
    SignOf(m);
    SignOf(n);
    assert (FormatInt(m) + [c] + x)[0] == FormatInt(m)[0] && (FormatInt(n) + [c] + y)[0] == FormatInt(n)[0];
    var sign := if m < 0 then "-" else "";
    var dm, dn := Digits(if m < 0 then -m else m), Digits(if n < 0 then -n else n);
    DropPrefix(sign, dm + [c] + x, dn + [c] + y, FormatInt(m) + [c] + x, FormatInt(n) + [c] + y);
    DigitsFree(if m < 0 then -m else m, c);
    DigitsFree(if n < 0 then -n else n, c);
    SplitAtFirst(dm, x, dn, y, c);
    FormatIntInjective(m, n);
  }

  lemma DropPrefix(prefix: string, x: string, y: string, s: string, t: string)
    requires s == prefix + x && t == prefix + y && s == t
    ensures x == y
  {
    assert s[|prefix|..] == x && t[|prefix|..] == y;
  }

  lemma OrderKeyShape(a: string, m: int, d: string)
    ensures OrderKey(a, m, d) == a + ['-'] + (FormatInt(m) + ['-'] + d)
  {
  }

  lemma OrderKeyInjective(a: string, m: int, d: string, b: string, n: int, e: string)
    requires Free(a, '-') && Free(b, '-')
    requires OrderKey(a, m, d) == OrderKey(b, n, e)
    ensures a == b && m == n && d == e
  {
    OrderKeyShape(a, m, d);
    OrderKeyShape(b, n, e);
    SplitAtFirst(a, FormatInt(m) + ['-'] + d, b, FormatInt(n) + ['-'] + e, '-');
    SplitAfterInt(m, d, n, e, '-');
  }

  lemma TrackKeyInjective(a: string, m: int, b: string, n: int)
    requires Free(a, '-') && Free(b, '-')
    requires TrackKey(a, m) == TrackKey(b, n)
    ensures a == b && m == n
  {
    assert OrderKey(a, m, "") == TrackKey(a, m) + "-";
    assert OrderKey(b, n, "") == TrackKey(b, n) + "-";
    OrderKeyInjective(a, m, "", b, n, "");
  }

  // Two strings that agree, split at the last separator.
  lemma SplitAtLast(a: string, x: string, b: string, y: string, c: char)
    requires Free(x, c) && Free(y, c) && a + [c] + x == b + [c] + y
    ensures a == b && x == y
  {
    var s, t := a + [c] + x, b + [c] + y;
    assert s[|a|] == c && t[|b|] == c;
    assert s[..|a|] == a && t[..|b|] == b;
    assert s[|a| + 1..] == x && t[|b| + 1..] == y;
  }

  // For real oids and directions, which have no separator, the address may be anything.
  lemma TrackKeyInjectiveOnOids(a: string, m: nat, b: string, n: nat)
    requires TrackKey(a, m) == TrackKey(b, n)
    ensures a == b && m == n
  {
    assert TrackKey(a, m) == a + ['-'] + Digits(m) && TrackKey(b, n) == b + ['-'] + Digits(n);
    DigitsFree(m, '-');
    DigitsFree(n, '-');
    SplitAtLast(a, Digits(m), b, Digits(n), '-');
    FormatIntInjective(m, n);
  }

  lemma OrderKeyInjectiveOnOids(a: string, m: nat, d: string, b: string, n: nat, e: string)
    requires Free(d, '-') && Free(e, '-') && OrderKey(a, m, d) == OrderKey(b, n, e)
    ensures a == b && m == n && d == e
  {
    assert OrderKey(a, m, d) == TrackKey(a, m) + ['-'] + d && OrderKey(b, n, e) == TrackKey(b, n) + ['-'] + e;
    SplitAtLast(TrackKey(a, m), d, TrackKey(b, n), e, '-');
    TrackKeyInjectiveOnOids(a, m, b, n);
  }

  lemma CutPrefix(prefix: string, s: string)
    requires prefix <= s
    ensures prefix + s[|prefix|..] == s
  {
  }

  // A leg key belongs to an order exactly when it starts with the order's prefix.
  lemma PrefixDecidesOwner(a: string, m: int, b: string, n: int, e: string)
    requires Free(a, '-') && Free(b, '-')
    ensures LegPrefix(a, m) <= OrderKey(b, n, e) <==> a == b && m == n
  {
    if LegPrefix(a, m) <= OrderKey(b, n, e) {
      var rest := OrderKey(b, n, e)[|LegPrefix(a, m)|..];
      CutPrefix(LegPrefix(a, m), OrderKey(b, n, e));
      OrderKeyInjective(a, m, rest, b, n, e);
    }
  }

  // Without either restriction keys collide: with a dash in one address, and in
  // one direction, or in a negative oid.
  lemma DashedAddressesCollide()
    ensures OrderKey("a", 1, "2-Buy") == OrderKey("a-1", 2, "Buy") == "a-1-2-Buy"
    ensures TrackKey("a", -2) == TrackKey("a-", 2) == "a--2"
  {
    assert Digits(1) == "1" && Digits(2) == "2";
    assert FormatInt(-2) == "-2";
    assert OrderKey("a", 1, "2-Buy") == "a-1-2-Buy" == OrderKey("a-1", 2, "Buy");
    assert TrackKey("a", -2) == "a--2" == TrackKey("a-", 2);
  }

  // And with a dashed address an order's prefix can start another order's key,
  // whatever the oids and directions are.
  lemma DashedAddressesShadow()
    ensures LegPrefix("a", 1) <= OrderKey("a-1-b", 2, "Buy")
  {
    assert Digits(1) == "1" && Digits(2) == "2";
    assert LegPrefix("a", 1) == "a-1-";
    assert OrderKey("a-1-b", 2, "Buy") == "a-1-" + "b-2-Buy";
  }
}
