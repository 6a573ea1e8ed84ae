// Printing an amount for the wire: eight decimals, checked, then trimmed.
module Wire {
  import opened Basics
  import opened Decimal

  datatype Result = Ok(text: string) | NotANumber | CausesRounding

  const SCALE := 100_000_000

  // ----- The operations -----

  // The nearest integer, ties to even, as the "%.8f" verb picks the last digit.
  function Nearest(y: real): (n: nat)
    requires y >= 0.0
    ensures n as real - 0.5 <= y <= n as real + 0.5
  {
    var down := y.Floor;
    var rest := y - down as real;
    if rest < 0.5 || (rest == 0.5 && down % 2 == 0) then down else down + 1
  }

  function Pad(s: string, w: nat): (t: string)
    ensures AllDigits(s) ==> AllDigits(t)
    decreases w - |s|
  {
    if |s| < w then Pad("0" + s, w) else s
  }

  // The fraction digits of n units, zero-padded to the width of the verb.
  function Decimals(n: nat): (s: string)
    ensures AllDigits(s)
  {
    Pad(Digits(n % SCALE), 8)
  }

  function Plain(n: nat): string {
    Digits(n / SCALE) + "." + Decimals(n)
  }

  // The magnitude of x in units of 10^-8.
  function Units(x: real): nat {
    Nearest((if x < 0.0 then -x else x) * 100_000_000.0)
  }

  // The "%.8f" verb; it prints the sign of a negative number that rounds to zero.
  function FormatEight(x: real): string {
    (if x < 0.0 then "-" else "") + Plain(Units(x))
  }

  function TrimRight(s: string, c: char): string {
    if s != "" && s[|s| - 1] == c then TrimRight(s[..|s| - 1], c) else s
  }

  // x / 10^k.
  function Tenths(x: real, k: nat): real
    decreases k
  {
    if k == 0 then x else Tenths(x / 10.0, k - 1)
  }

  // The rest of a fraction, after digits that stand for n, places of them decimals.
  function ReadFraction(s: string, n: nat, places: nat): Option<real> {
    if s == "" then Some(Tenths(n as real, places))
    else if IsDigit(s[0]) then ReadFraction(s[1..], n * 10 + DigitValue(s[0]), places + 1)
    else None
  }

  // The rest of a numeral, after digits that stand for n.
  function ReadWhole(s: string, n: nat): Option<real> {
    if s == "" then Some(n as real)
    else if s[0] == '.' then ReadFraction(s[1..], n, 0)
    else if IsDigit(s[0]) then ReadWhole(s[1..], n * 10 + DigitValue(s[0]))
    else None
  }

  function ParseUnsigned(s: string): Option<real> {
    if s != "" && IsDigit(s[0]) then ReadWhole(s, 0) else None
  }

  // Reading a decimal numeral: an optional sign, digits, an optional fraction.
  function Parse(s: string): Option<real> {
    if s != "" && s[0] == '-' then
      match ParseUnsigned(s[1..])
      case Some(x) => Some(-x)
      case None => None
    else ParseUnsigned(s)
  }

  function Distance(x: real, y: real): real { if x < y then y - x else x - y }

  const TOLERANCE: real := 0.000_000_000_001

  // The repair of the zero's sign and the two trims.
  function Strip(rounded: string): string {
    var unsigned := if rounded == "-0.00000000" then "0.00000000" else rounded;
    TrimRight(TrimRight(unsigned, '0'), '.')
  }

  function CheckAndStrip(x: real, rounded: string): Result {
    match Parse(rounded)
    case None => NotANumber
    case Some(parsed) => if Distance(parsed, x) >= TOLERANCE then CausesRounding else Ok(Strip(rounded))
  }

  function FloatToWire(x: real): Result {
    CheckAndStrip(x, FormatEight(x))
  }

  // ----- What a numeral should look like -----

  // x rounded to eight decimals, in units of 10^-8.
  function Signed(x: real): int {
    if x < 0.0 then -(Units(x) as int) else Units(x)
  }

  function Amount(m: int): real { m as real / 100_000_000.0 }

  function Decimal8(x: real): real { Amount(Signed(x)) }

  predicate CanonicalWhole(s: string) {
    s != "" && AllDigits(s) && (s[0] == '0' ==> s == "0")
  }

  function Numeral(negative: bool, whole: string, decimals: string): string {
    (if negative then "-" else "") + whole + (if decimals == "" then "" else "." + decimals)
  }

  // At most eight decimals, no superfluous zero on either side, no "-0".
  predicate CanonicalParts(negative: bool, whole: string, decimals: string) {
    CanonicalWhole(whole) && AllDigits(decimals) && |decimals| <= 8 &&
    (decimals != "" ==> decimals[|decimals| - 1] != '0') &&
    (negative ==> whole != "0" || decimals != "")
  }

  ghost predicate Canonical(s: string) {
    exists negative, whole, decimals ::
      CanonicalParts(negative, whole, decimals) && s == Numeral(negative, whole, decimals)
  }

  // ----- Reading what was printed -----

  function Magnitude(whole: string, decimals: string): real
    requires AllDigits(whole) && AllDigits(decimals)
  {
    Tenths(NatValue(whole + decimals) as real, |decimals|)
  }

  lemma ReadOne(read: string, s: string)
    requires AllDigits(read) && AllDigits(s) && s != ""
    ensures NatValue(read + [s[0]]) == NatValue(read) * 10 + DigitValue(s[0])
    ensures (read + [s[0]]) + s[1..] == read + s
  {
    assert (read + [s[0]])[..|read|] == read;
  }

  lemma {:induction false} FractionIsRead(read: string, s: string, places: nat)
    requires AllDigits(read) && AllDigits(s)
    ensures ReadFraction(s, NatValue(read), places)
            == Some(Tenths(NatValue(read + s) as real, places + |s|))
    decreases |s|
  {
    if s == "" {
      assert read + s == read;
    } else {
      ReadOne(read, s);
      FractionIsRead(read + [s[0]], s[1..], places + 1);
    }
  }

  lemma RestIsRead(read: string, rest: string, decimals: string)
    requires AllDigits(read) && AllDigits(decimals)
    requires rest == "." + decimals || (rest == "" && decimals == "")
    ensures ReadWhole(rest, NatValue(read)) == Some(Magnitude(read, decimals))
  {
    if rest == "" {
      assert read + decimals == read;
    } else {
      assert rest[1..] == decimals;
      FractionIsRead(read, decimals, 0);
    }
  }

  lemma {:induction false} WholeIsRead(read: string, s: string, rest: string, decimals: string)
    requires AllDigits(read) && AllDigits(s) && AllDigits(decimals)
    requires rest == "." + decimals || (rest == "" && decimals == "")
    ensures ReadWhole(s + rest, NatValue(read)) == Some(Magnitude(read + s, decimals))
    decreases |s|
  {
    if s == "" {
      assert s + rest == rest && read + s == read;
      RestIsRead(read, rest, decimals);
    } else {
      ReadOne(read, s);
      assert (s + rest)[1..] == s[1..] + rest;
      WholeIsRead(read + [s[0]], s[1..], rest, decimals);
    }
  }

  function Tail(decimals: string): string {
    if decimals == "" then "" else "." + decimals
  }

  lemma ParsesUnsigned(whole: string, rest: string, decimals: string)
    requires whole != "" && AllDigits(whole) && AllDigits(decimals)
    requires rest == "." + decimals || (rest == "" && decimals == "")
    ensures ParseUnsigned(whole + rest) == Some(Magnitude(whole, decimals))
  {
    WholeIsRead("", whole, rest, decimals);
    assert "" + whole == whole;
  }

  lemma ParsesSigned(negative: bool, s: string, value: real)
    requires s != "" && IsDigit(s[0]) && ParseUnsigned(s) == Some(value)
    ensures Parse((if negative then "-" else "") + s) == Some(if negative then -value else value)
  {
    assert ("-" + s)[1..] == s;
    assert "" + s == s;
  }

  lemma PowerEight()
    ensures Power(8) == SCALE
  {
    assert Power(4) == 10_000;
    assert Power(8) == 10 * (10 * (10 * (10 * Power(4))));
  }

  lemma EightTenths(x: real)
    ensures Tenths(x, 8) == x / 100_000_000.0
  {
    var y := x / 10.0 / 10.0 / 10.0 / 10.0;
    assert Tenths(x, 8) == Tenths(y, 4);
    assert Tenths(y, 4) == y / 10.0 / 10.0 / 10.0 / 10.0;
  }

  lemma {:induction false} DigitsWidth(n: nat, w: nat)
    requires w >= 1 && n < Power(w)
    ensures |Digits(n)| <= w
  {
    if n >= 10 {
      assert w > 1;
      DigitsWidth(n / 10, w - 1);
    }
  }

  lemma {:induction false} LeadingZero(s: string)
    requires AllDigits(s)
    ensures NatValue("0" + s) == NatValue(s)
  {
    if s != "" {
      LeadingZero(s[..|s| - 1]);
      assert ("0" + s)[..|s|] == "0" + s[..|s| - 1];
    } else {
      assert "0" + s == "0";
    }
  }

  lemma {:induction false} PadKeepsValue(s: string, w: nat)
    requires AllDigits(s)
    ensures NatValue(Pad(s, w)) == NatValue(s)
    ensures |Pad(s, w)| == if |s| < w then w else |s|
    decreases w - |s|
  {
    if |s| < w {
      LeadingZero(s);
      PadKeepsValue("0" + s, w);
    }
  }

  lemma DecimalsShape(n: nat)
    ensures |Decimals(n)| == 8 && NatValue(Decimals(n)) == n % SCALE
  {
    var digits := Digits(n % SCALE);
    PowerEight();
    DigitsWidth(n % SCALE, 8);
    DigitsRoundTrip(n % SCALE);
    PadKeepsValue(digits, 8);
  }

  lemma {:induction false} NatConcat(s: string, t: string)
    requires AllDigits(s) && AllDigits(t)
    ensures NatValue(s + t) == NatValue(s) * Power(|t|) + NatValue(t)
  {
    if t == "" {
      assert s + t == s;
    } else {
      var front, last := t[..|t| - 1], DigitValue(t[|t| - 1]);
      NatConcat(s, front);
      assert (s + t)[..|s + t| - 1] == s + front;
      ShiftIn(NatValue(s), Power(|front|), NatValue(front), last);
    }
  }

  lemma ShiftIn(x: nat, p: nat, y: nat, d: nat)
    ensures (x * p + y) * 10 + d == x * (10 * p) + (y * 10 + d)
  {
  }

  // The digits printed for n units stand for n units.
  lemma UnitsAreRead(n: nat)
    ensures Magnitude(Digits(n / SCALE), Decimals(n)) == n as real / 100_000_000.0
  {
    DigitsRoundTrip(n / SCALE);
    DecimalsShape(n);
    NatConcat(Digits(n / SCALE), Decimals(n));
    PowerEight();
    EightTenths(n as real);
    assert n == n / SCALE * SCALE + n % SCALE;
  }

  lemma PlainIsRead(n: nat)
    ensures Plain(n) != "" && IsDigit(Plain(n)[0])
    ensures ParseUnsigned(Plain(n)) == Some(n as real / 100_000_000.0)
  {
    UnitsAreRead(n);
    ParsesUnsigned(Digits(n / SCALE), "." + Decimals(n), Decimals(n));
    assert Plain(n) == Digits(n / SCALE) + ("." + Decimals(n));
  }

  // The eight-decimal form is read as the eight-decimal value.
  lemma FormatIsRead(x: real)
    ensures Parse(FormatEight(x)) == Some(Decimal8(x))
  {
    var n := Units(x);
    PlainIsRead(n);
    ParsesSigned(x < 0.0, Plain(n), n as real / 100_000_000.0);
  }

  // ----- Trimming -----

  lemma {:induction false} TrimShape(s: string, c: char)
    ensures var t := TrimRight(s, c);
            t <= s && (t != "" ==> t[|t| - 1] != c) &&
            (forall k :: |t| <= k < |s| ==> s[k] == c)
  {
    if s != "" && s[|s| - 1] == c {
      TrimShape(s[..|s| - 1], c);
    }
  }

  // Trimming zeros never crosses the point.
  lemma {:induction false} TrimZeros(front: string, decimals: string)
    ensures TrimRight(front + "." + decimals, '0') == front + "." + TrimRight(decimals, '0')
  {
    var s := front + "." + decimals;
    if decimals != "" && decimals[|decimals| - 1] == '0' {
      assert s[..|s| - 1] == front + "." + decimals[..|decimals| - 1];
      TrimZeros(front, decimals[..|decimals| - 1]);
    } else if decimals == "" {
      assert s[|s| - 1] == '.';
    } else {
      assert s[|s| - 1] == decimals[|decimals| - 1];
    }
  }

  lemma TrimNumeral(negative: bool, whole: string, decimals: string)
    requires whole != "" && AllDigits(whole) && AllDigits(decimals)
    ensures var front := (if negative then "-" else "") + whole;
            TrimRight(TrimRight(front + "." + decimals, '0'), '.')
            == Numeral(negative, whole, TrimRight(decimals, '0'))
  {
    var front := (if negative then "-" else "") + whole;
    TrimZeros(front, decimals);
    var t := TrimRight(decimals, '0');
    TrimShape(decimals, '0');
    assert IsDigit(whole[|whole| - 1]) && front[|front| - 1] == whole[|whole| - 1];
    if t == "" {
      assert front + "." + t == front + ".";
      assert (front + ".")[..|front|] == front;
    } else {
      assert t[|t| - 1] == decimals[|t| - 1];
      assert (front + "." + t)[|front| + |t|] == t[|t| - 1];
      assert front + "." + t == front + ("." + t);
    }
  }

  // Removing trailing zeros does not change the number.
  lemma {:induction false} TrimKeepsMagnitude(whole: string, s: string)
    requires AllDigits(whole) && AllDigits(s)
    ensures AllDigits(TrimRight(s, '0')) && Magnitude(whole, TrimRight(s, '0')) == Magnitude(whole, s)
  {
    if s != "" && s[|s| - 1] == '0' {
      var front := s[..|s| - 1];
      TrimKeepsMagnitude(whole, front);
      assert (whole + s)[..|whole + s| - 1] == whole + front;
      assert Tenths(NatValue(whole + s) as real, |s|) == Tenths(NatValue(whole + front) as real, |front|);
    }
  }

  // ----- The text as a function of the eight-decimal value -----

  function Text(units: int): string {
    var n := if units < 0 then -units else units;
    Numeral(units < 0, Digits(n / SCALE), TrimRight(Decimals(n), '0'))
  }

  lemma {:induction false} PadOfZeros(s: string, w: nat)
    requires forall k :: 0 <= k < |s| ==> s[k] == '0'
    ensures |Pad(s, w)| == if |s| < w then w else |s|
    ensures forall k :: 0 <= k < |Pad(s, w)| ==> Pad(s, w)[k] == '0'
    decreases w - |s|
  {
    if |s| < w {
      PadOfZeros("0" + s, w);
    }
  }

  lemma ZeroText()
    ensures Plain(0) == "0.00000000"
  {
    assert Digits(0) == "0";
    PadOfZeros("0", 8);
    assert Pad("0", 8) == "00000000";
  }

  // Only the zero amount prints as zeros.
  lemma OnlyZeroIsZeros(n: nat)
    ensures Plain(n) == "0.00000000" <==> n == 0
  {
    ZeroText();
    PlainIsRead(n);
    PlainIsRead(0);
  }

  lemma TextOfPlain(n: nat, negative: bool)
    ensures TrimRight(TrimRight((if negative then "-" else "") + Plain(n), '0'), '.')
            == Numeral(negative, Digits(n / SCALE), TrimRight(Decimals(n), '0'))
  {
    var whole, sign := Digits(n / SCALE), if negative then "-" else "";
    TrimNumeral(negative, whole, Decimals(n));
    assert sign + Plain(n) == sign + whole + "." + Decimals(n);
  }

  // A negative amount that rounds to zero loses its sign, any other keeps it.
  lemma SignRepaired(x: real)
    ensures (if FormatEight(x) == "-0.00000000" then "0.00000000" else FormatEight(x))
            == (if Signed(x) < 0 then "-" else "") + Plain(Units(x))
  {
    var n := Units(x);
    OnlyZeroIsZeros(n);
    assert "" + Plain(n) == Plain(n);
    assert ("-" + Plain(n))[1..] == Plain(n);
    assert "-0.00000000" == "-" + "0.00000000";
    assert Plain(n)[0] == Digits(n / SCALE)[0];
  }

  lemma StripsTo(rounded: string, units: int, n: nat)
    requires n == if units < 0 then -units else units
    requires (if units < 0 then "-" else "") + Plain(n)
             == if rounded == "-0.00000000" then "0.00000000" else rounded
    ensures Strip(rounded) == Text(units)
  {
    TextOfPlain(n, units < 0);
  }

  lemma Checked(x: real, rounded: string, parsed: real, text: string)
    requires Parse(rounded) == Some(parsed) && Strip(rounded) == text
    ensures CheckAndStrip(x, rounded) == if Distance(parsed, x) < TOLERANCE then Ok(text) else CausesRounding
  {
  }

  lemma TextOfFloat(x: real)
    ensures FloatToWire(x) ==
            if Distance(Decimal8(x), x) < TOLERANCE then Ok(Text(Signed(x))) else CausesRounding
  {
    FormatIsRead(x);
    SignRepaired(x);
    StripsTo(FormatEight(x), Signed(x), Units(x));
    Checked(x, FormatEight(x), Decimal8(x), Text(Signed(x)));
  }

  lemma NumeralIsRead(negative: bool, whole: string, decimals: string, value: real)
    requires whole != "" && AllDigits(whole) && AllDigits(decimals) && Magnitude(whole, decimals) == value
    ensures Parse(Numeral(negative, whole, decimals)) == Some(if negative then -value else value)
  {
    var s := whole + Tail(decimals);
    ParsesUnsigned(whole, Tail(decimals), decimals);
    ParsesSigned(negative, s, value);
    assert Numeral(negative, whole, decimals) == (if negative then "-" else "") + s;
  }

  lemma TrimmedIsRead(n: nat)
    ensures AllDigits(TrimRight(Decimals(n), '0'))
    ensures Magnitude(Digits(n / SCALE), TrimRight(Decimals(n), '0')) == n as real / 100_000_000.0
  {
    TrimKeepsMagnitude(Digits(n / SCALE), Decimals(n));
    UnitsAreRead(n);
  }

  lemma TextIsRead(units: int)
    ensures Parse(Text(units)) == Some(Amount(units))
  {
    var n := if units < 0 then -units else units;
    TrimmedIsRead(n);
    NumeralIsRead(units < 0, Digits(n / SCALE), TrimRight(Decimals(n), '0'), n as real / 100_000_000.0);
  }

  lemma TextInjective(m: int, n: int)
    requires Text(m) == Text(n)
    ensures m == n
  {
    TextIsRead(m);
    TextIsRead(n);
  }

  // ----- Main results -----

  // The conversion succeeds exactly on the neighbourhoods of the eight-decimal
  // numbers, so the printing of ties never shows.
  lemma AcceptedExactly(x: real)
    ensures FloatToWire(x).Ok? <==>
            exists m: int :: -0.000_000_000_001 < Amount(m) - x < 0.000_000_000_001
    ensures !FloatToWire(x).Ok? ==> FloatToWire(x) == CausesRounding
  {
    TextOfFloat(x);
    assert forall m: int :: Distance(Amount(m), x) < TOLERANCE <==> -0.000_000_000_001 < Amount(m) - x < 0.000_000_000_001;
    if m: int :| Distance(Amount(m), x) < TOLERANCE {
      OnlyOneAmount(x, m);
    }
  }

  lemma OnlyOneAmount(x: real, m: int)
    requires Distance(Amount(m), x) < TOLERANCE
    ensures Signed(x) == m
  {
    var y := x * 100_000_000.0;
    assert m as real - 0.0001 <= y <= m as real + 0.0001;
    if x < 0.0 {
      assert Units(x) as real - 0.5 <= -y <= Units(x) as real + 0.5;
    }
    assert Signed(x) as real - 0.5 <= y <= Signed(x) as real + 0.5;
    assert -1.0 < (Signed(x) - m) as real < 1.0;
  }

  // Reading the text gives the eight-decimal value, within 10^-12 of the input.
  lemma WireRoundTrip(x: real)
    requires FloatToWire(x).Ok?
    ensures Parse(FloatToWire(x).text) == Some(Decimal8(x))
    ensures -0.000_000_000_001 < Decimal8(x) - x < 0.000_000_000_001
  {
    TextOfFloat(x);
    TextIsRead(Signed(x));
  }

  lemma WireIsCanonical(x: real)
    requires FloatToWire(x).Ok?
    ensures Canonical(FloatToWire(x).text)
  {
    TextOfFloat(x);
    TextIsCanonical(Signed(x));
  }

  lemma NoNegativeZero(n: nat)
    requires n > 0
    ensures Digits(n / SCALE) != "0" || TrimRight(Decimals(n), '0') != ""
  {
    assert Digits(0) == "0";
    DigitsRoundTrip(0);
    UnitsAreRead(n);
    TrimKeepsMagnitude(Digits(n / SCALE), Decimals(n));
  }

  lemma TextIsCanonical(units: int)
    ensures Canonical(Text(units))
  {
    var n := if units < 0 then -units else units;
    var t := TrimRight(Decimals(n), '0');
    TrimShape(Decimals(n), '0');
    TrimKeepsMagnitude(Digits(n / SCALE), Decimals(n));
    DecimalsShape(n);
    if units < 0 {
      NoNegativeZero(n);
    }
    assert CanonicalParts(units < 0, Digits(n / SCALE), t);
  }

  // Two amounts get the same text exactly when their eight-decimal values agree.
  lemma SameTextIff(x: real, y: real)
    requires FloatToWire(x).Ok? && FloatToWire(y).Ok?
    ensures FloatToWire(x) == FloatToWire(y) <==> Decimal8(x) == Decimal8(y)
  {
    TextOfFloat(x);
    TextOfFloat(y);
    SameText(FloatToWire(x), FloatToWire(y), Signed(x), Signed(y));
  }

  lemma SameText(r: Result, s: Result, m: int, n: int)
    requires r == Ok(Text(m)) && s == Ok(Text(n))
    ensures r == s <==> Amount(m) == Amount(n)
  {
    if r == s {
      TextInjective(m, n);
    }
  }

  // ----- Every canonical numeral is printed -----

  lemma TensAndUnits(a: nat, c: nat, b: nat, e: nat)
    requires c < 10 && e < 10 && a * 10 + c == b * 10 + e
    ensures a == b && c == e
  {
  }

  // Equal width and equal value: equal digits.
  lemma {:induction false} SameDigits(s: string, t: string)
    requires |s| == |t| && AllDigits(s) && AllDigits(t) && NatValue(s) == NatValue(t)
    ensures s == t
  {
    if s != "" {
      var a, c, b, e := s[..|s| - 1], s[|s| - 1], t[..|t| - 1], t[|t| - 1];
      assert IsDigit(c) && IsDigit(e);
      TensAndUnits(NatValue(a), DigitValue(c), NatValue(b), DigitValue(e));
      SameDigits(a, b);
      assert c == DigitChar(DigitValue(c)) == DigitChar(DigitValue(e)) == e;
      assert s == a + [c] && t == b + [e];
    }
  }

  lemma LastDigit(n: nat, last: char)
    requires n > 0 && IsDigit(last)
    ensures Digits(n * 10 + DigitValue(last)) == Digits(n) + [last]
  {
    var m := n * 10 + DigitValue(last);
    assert m / 10 == n && m % 10 == DigitValue(last);
  }

  lemma {:induction false} DigitsOfValue(s: string)
    requires CanonicalWhole(s)
    ensures Digits(NatValue(s)) == s && (s != "0" ==> NatValue(s) > 0)
  {
    if |s| == 1 {
      assert NatValue(s[..0]) == 0;
      assert s == [DigitChar(NatValue(s))];
    } else {
      var front, last := s[..|s| - 1], s[|s| - 1];
      assert front[0] == s[0];
      DigitsOfValue(front);
      LastDigit(NatValue(front), last);
      assert s == front + [last];
    }
  }

  function Zeros(n: nat): (s: string)
    ensures |s| == n && AllDigits(s)
  {
    if n == 0 then "" else Zeros(n - 1) + "0"
  }

  lemma {:induction false} PadThenTrim(s: string, n: nat)
    requires AllDigits(s) && (s != "" ==> s[|s| - 1] != '0')
    ensures AllDigits(s + Zeros(n)) && TrimRight(s + Zeros(n), '0') == s
  {
    if n > 0 {
      PadThenTrim(s, n - 1);
      assert (s + Zeros(n))[..|s| + n - 1] == s + Zeros(n - 1);
    } else {
      assert s + Zeros(n) == s;
    }
  }

  lemma {:induction false} ValueBelowPower(s: string)
    requires AllDigits(s)
    ensures NatValue(s) < Power(|s|)
  {
    if s != "" {
      ValueBelowPower(s[..|s| - 1]);
    }
  }

  lemma PartsOfUnits(whole: string, decimals: string, padded: string, n: nat)
    requires CanonicalWhole(whole) && AllDigits(padded) && |padded| == 8
    requires TrimRight(padded, '0') == decimals
    requires n / SCALE == NatValue(whole) && n % SCALE == NatValue(padded)
    ensures Digits(n / SCALE) == whole && TrimRight(Decimals(n), '0') == decimals
  {
    DecimalsShape(n);
    SameDigits(Decimals(n), padded);
    DigitsOfValue(whole);
  }

  lemma DivideUnits(whole: nat, rest: nat)
    requires rest < SCALE
    ensures (whole * SCALE + rest) / SCALE == whole && (whole * SCALE + rest) % SCALE == rest
  {
  }

  lemma UnitsOfParts(whole: string, decimals: string) returns (n: nat)
    requires CanonicalWhole(whole) && AllDigits(decimals) && |decimals| <= 8
    requires decimals != "" ==> decimals[|decimals| - 1] != '0'
    ensures Digits(n / SCALE) == whole && TrimRight(Decimals(n), '0') == decimals
  {
    var padded := decimals + Zeros(8 - |decimals|);
    PadThenTrim(decimals, 8 - |decimals|);
    ValueBelowPower(padded);
    PowerEight();
    n := NatValue(whole) * SCALE + NatValue(padded);
    DivideUnits(NatValue(whole), NatValue(padded));
    PartsOfUnits(whole, decimals, padded, n);
  }

  // The number of units a canonical numeral stands for is printed as that numeral.
  lemma CanonicalIsText(negative: bool, whole: string, decimals: string) returns (units: int)
    requires CanonicalParts(negative, whole, decimals)
    ensures Text(units) == Numeral(negative, whole, decimals)
  {
    var n := UnitsOfParts(whole, decimals);
    if negative {
      PositiveValue(whole, decimals, n);
    }
    units := n;
    if negative {
      units := -units;
    }
  }

  lemma PositiveValue(whole: string, decimals: string, n: nat)
    requires CanonicalParts(true, whole, decimals)
    requires Digits(n / SCALE) == whole && TrimRight(Decimals(n), '0') == decimals
    ensures n > 0
  {
    ZeroText();
    assert Digits(0) == "0";
    assert Decimals(0) == Plain(0)[2..];
    TrimOfZeros(Decimals(0));
  }

  lemma {:induction false} TrimOfZeros(s: string)
    requires forall k :: 0 <= k < |s| ==> s[k] == '0'
    ensures TrimRight(s, '0') == ""
  {
    if s != "" {
      TrimOfZeros(s[..|s| - 1]);
    }
  }

  // Printing undoes reading on every canonical numeral: the printed texts are
  // exactly the canonical numerals.
  lemma PrintUndoesRead(s: string)
    requires Canonical(s)
    ensures Parse(s).Some? && FloatToWire(Parse(s).value) == Ok(s)
  {
    var negative, whole, decimals :|
      CanonicalParts(negative, whole, decimals) && s == Numeral(negative, whole, decimals);
    var units := CanonicalIsText(negative, whole, decimals);
    TextIsRead(units);
    PrintsAmount(units);
  }

  lemma PrintsAmount(units: int)
    ensures FloatToWire(Amount(units)) == Ok(Text(units))
  {
    OnlyOneAmount(Amount(units), units);
    TextOfFloat(Amount(units));
  }
}
