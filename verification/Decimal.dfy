// Decimal numerals as the "%d" verb prints them, and the reading that undoes them.
module Decimal {

  predicate IsDigit(c: char) {
    '0' <= c <= '9'
  }

  predicate AllDigits(s: string) {
    forall i :: 0 <= i < |s| ==> IsDigit(s[i])
  }

  function DigitChar(d: nat): (c: char)
    requires d < 10
    ensures IsDigit(c) && DigitValue(c) == d
  {
    '0' + d as char
  }

  function DigitValue(c: char): (d: nat)
    requires IsDigit(c)
    ensures d < 10
  {
    (c - '0') as nat
  }

  function Digits(n: nat): (s: string)
    ensures |s| > 0 && AllDigits(s)
    ensures s[0] == '0' ==> s == "0"
  {
    if n < 10 then [DigitChar(n)] else Digits(n / 10) + [DigitChar(n % 10)]
  }

  function NatValue(s: string): nat
    requires AllDigits(s)
  {
    if s == "" then 0 else NatValue(s[..|s| - 1]) * 10 + DigitValue(s[|s| - 1])
  }

  function FormatInt(n: int): string {
    if n < 0 then "-" + Digits(-n) else Digits(n)
  }

  lemma {:induction false} DigitsRoundTrip(n: nat)
    ensures NatValue(Digits(n)) == n
  {
    if n >= 10 {
      var front := Digits(n / 10);
      assert Digits(n)[..|front|] == front;
      DigitsRoundTrip(n / 10);
    }
  }

  lemma FormatIntInjective(m: int, n: int)
    requires FormatInt(m) == FormatInt(n)
    ensures m == n
  {
    DigitsRoundTrip(if m < 0 then -m else m);
    DigitsRoundTrip(if n < 0 then -n else n);
    assert m < 0 <==> FormatInt(m)[0] == '-';
    assert n < 0 <==> FormatInt(n)[0] == '-';
    if m < 0 {
      assert FormatInt(m)[1..] == Digits(-m) && FormatInt(n)[1..] == Digits(-n);
    }
  }
}
