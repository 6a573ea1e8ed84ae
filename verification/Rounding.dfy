// Rounding a price to significant figures, over the real numbers.
module Rounding {
  import opened Basics

  // ----- Multiplying by powers of ten -----

  // x * 10^k, for any integer k: ShiftIsProduct below.
  function Shift(x: real, k: int): real
    decreases if k < 0 then -k else k
  {
    if k == 0 then x else if k > 0 then 10.0 * Shift(x, k - 1) else Shift(x, k + 1) / 10.0
  }

  function Ten(k: int): real { Shift(1.0, k) }

  lemma ShiftStep(x: real, k: int)
    ensures Shift(x, k + 1) == 10.0 * Shift(x, k)
  {
  }

  // It is the product with the power of ten.
  lemma {:induction false} ShiftIsProduct(x: real, k: int)
    ensures Shift(x, k) == x * Ten(k)
    decreases if k < 0 then -k else k
  {
    if k > 0 {
      ShiftIsProduct(x, k - 1);
      TimesTen(x, Ten(k - 1));
    } else if k < 0 {
      ShiftIsProduct(x, k + 1);
      TimesTen(x, Ten(k));
    }
  }

  lemma TimesTen(x: real, y: real)
    ensures x * (10.0 * y) == 10.0 * (x * y)
  {
  }

  lemma {:induction false} ShiftTwice(x: real, j: int, k: int)
    ensures Shift(Shift(x, j), k) == Shift(x, j + k)
    decreases if k < 0 then -k else k
  {
    if k > 0 {
      ShiftTwice(x, j, k - 1);
      ShiftStep(x, j + k - 1);
    } else if k < 0 {
      ShiftTwice(x, j, k + 1);
      ShiftStep(x, j + k);
    }
  }

  lemma {:induction false} ShiftMonotone(x: real, y: real, k: int)
    ensures x <= y ==> Shift(x, k) <= Shift(y, k)
    ensures x < y ==> Shift(x, k) < Shift(y, k)
    decreases if k < 0 then -k else k
  {
    if k > 0 {
      ShiftMonotone(x, y, k - 1);
    } else if k < 0 {
      ShiftMonotone(x, y, k + 1);
    }
  }

  lemma {:induction false} ShiftDifference(x: real, y: real, k: int)
    ensures Shift(x - y, k) == Shift(x, k) - Shift(y, k)
    decreases if k < 0 then -k else k
  {
    if k > 0 {
      ShiftDifference(x, y, k - 1);
    } else if k < 0 {
      ShiftDifference(x, y, k + 1);
    }
  }

  lemma ShiftBack(x: real, k: int)
    ensures Shift(Shift(x, k), -k) == x && Shift(Shift(x, -k), k) == x
  {
    ShiftTwice(x, k, -k);
    ShiftTwice(x, -k, k);
  }

  lemma ShiftPositive(x: real, k: int)
    requires x > 0.0
    ensures Shift(x, k) > 0.0
  {
    ShiftDifference(x, x, k);
    ShiftMonotone(0.0, x, k);
  }

  lemma {:induction false} TenMonotone(j: int, n: nat)
    ensures Ten(j) <= Ten(j + n)
  {
    if n > 0 {
      TenMonotone(j, n - 1);
      ShiftStep(1.0, j + n - 1);
      ShiftPositive(1.0, j + n - 1);
    }
  }

  lemma {:induction false} TenIsPower(n: nat)
    ensures Ten(n) == Power(n) as real
  {
    if n > 0 {
      TenIsPower(n - 1);
    }
  }

  // ----- The operations -----

  function Copysign(x: real, sign: real): real { if sign < 0.0 then -Abs(x) else Abs(x) }

  // math.Round: halves away from zero.
  function Round(x: real): int {
    if x < 0.0 then -((-x + 0.5).Floor) else (x + 0.5).Floor
  }

  function RoundToDecimals(value: real, decimals: int): real {
    Shift(Round(Shift(value, decimals)) as real, -decimals)
  }

  function Digits(n: nat): nat {
    if n == 0 then 0 else 1 + Digits(n / 10)
  }

  lemma ScaleProgress(x: real)
    requires 0.0 < x < 1.0
    ensures 0 <= (if x * 10.0 < 1.0 then (1.0 / (x * 10.0)).Floor else 0) < (1.0 / x).Floor
  {
    Reciprocal(x);
    if x * 10.0 < 1.0 {
      Reciprocal(x * 10.0);
      TenthOfReciprocal(x);
    }
  }

  lemma Reciprocal(x: real)
    requires 0.0 < x < 1.0
    ensures 1.0 / x > 1.0
  {
    var y := 1.0 / x;
    assert y * x == 1.0;
    if y <= 1.0 {
      Shrinks(x, y);
    }
  }

  lemma Shrinks(x: real, y: real)
    requires 0.0 < x < 1.0 && y <= 1.0
    ensures y * x < 1.0
  {
  }

  lemma TenthOfReciprocal(x: real)
    requires x > 0.0
    ensures 10.0 * (1.0 / (x * 10.0)) == 1.0 / x
  {
    var q := 1.0 / (x * 10.0);
    assert q * (x * 10.0) == 1.0;
    assert (10.0 * q) * x == 1.0;
  }

  // How often x has to be multiplied by ten to reach 1.
  function Scale(x: real): nat
    requires x > 0.0
    decreases if x < 1.0 then (1.0 / x).Floor else 0
  {
    if x >= 1.0 then 0
    else
      ScaleProgress(x);
      1 + Scale(x * 10.0)
  }

  function SigRound(price: real, sigFigs: int): real {
    if price == 0.0 then 0.0
    else
      var a := Abs(price);
      if a.Floor > 0 then
        var digits := Digits(a.Floor);
        if digits >= sigFigs then Copysign(a.Floor as real, price)
        else Copysign(RoundToDecimals(a, sigFigs - digits), price)
      else
        var m := Scale(a);
        Copysign(Shift(RoundToDecimals(Shift(a, m), sigFigs - 1), -(m as int)), price)
  }

  method CountDigits(integerPart: nat) returns (numIntegerDigits: nat)
    ensures numIntegerDigits == Digits(integerPart)
  {
    numIntegerDigits := 0;
    var temp := integerPart;
    while temp > 0
      invariant temp >= 0 && numIntegerDigits + Digits(temp) == Digits(integerPart)
    {
      temp := temp / 10;
      numIntegerDigits := numIntegerDigits + 1;
    }
  }

  method MultiplyUp(price: real) returns (absPrice: real, multiplications: nat)
    requires price > 0.0
    ensures multiplications == Scale(price) && absPrice == Shift(price, multiplications)
  {
    absPrice, multiplications := price, 0;
    while absPrice < 1.0
      invariant absPrice > 0.0 && multiplications + Scale(absPrice) == Scale(price)
      invariant absPrice == Shift(price, multiplications)
      decreases if absPrice < 1.0 then (1.0 / absPrice).Floor else 0
    {
      ScaleProgress(absPrice);
      absPrice := absPrice * 10.0;
      multiplications := multiplications + 1;
    }
  }

  method RoundToSignificantFigures(price: real, sigFigs: int) returns (r: real)
    ensures r == SigRound(price, sigFigs)
  {
    if price == 0.0 {
      return 0.0;
    }
    var absPrice := Abs(price);
    var integerPart := absPrice.Floor;
    if integerPart > 0 {
      var numIntegerDigits := CountDigits(integerPart);
      if numIntegerDigits >= sigFigs {
        return Copysign(integerPart as real, price);
      }
      var sigFigsLeft := sigFigs - numIntegerDigits;
      var rounded := RoundToDecimals(absPrice, sigFigsLeft);
      return Copysign(rounded, price);
    } else {
      var multiplications;
      absPrice, multiplications := MultiplyUp(absPrice);
      var rounded := RoundToDecimals(absPrice, sigFigs - 1);
      return Copysign(Shift(rounded, -(multiplications as int)), price);
    }
  }

  // ----- The decimal exponent -----

  predicate HasExponent(a: real, e: int) {
    Ten(e) <= a < Ten(e + 1)
  }

  lemma ExponentUnique(a: real, e: int, f: int)
    requires HasExponent(a, e) && HasExponent(a, f)
    ensures e == f
  {
    if e < f {
      TenMonotone(e + 1, f - e - 1);
    }
    if f < e {
      TenMonotone(f + 1, e - f - 1);
    }
  }

  lemma {:induction false} DigitsBound(n: nat)
    requires n > 0
    ensures Digits(n) >= 1 && Power(Digits(n) - 1) <= n < Power(Digits(n))
  {
    if n >= 10 {
      DigitsBound(n / 10);
      assert Power(Digits(n) - 1) == 10 * Power(Digits(n / 10) - 1);
      assert Power(Digits(n)) == 10 * Power(Digits(n / 10));
    } else {
      assert Digits(n / 10) == 0;
      assert Power(1) == 10 * Power(0);
    }
  }

  // For a price of at least 1: the digits of its integer part.
  lemma IntegerExponent(a: real)
    requires a >= 1.0
    ensures a.Floor > 0 && Digits(a.Floor) >= 1 && HasExponent(a, Digits(a.Floor) - 1)
  {
    var n := a.Floor;
    DigitsBound(n);
    TenIsPower(Digits(n));
    TenIsPower(Digits(n) - 1);
    assert n as real <= a < (n + 1) as real;
  }

  lemma {:induction false} ScaleReaches(x: real)
    requires x > 0.0
    ensures Shift(x, Scale(x)) >= 1.0
    ensures x < 1.0 ==> Scale(x) >= 1 && Shift(x, Scale(x)) < 10.0
    decreases if x < 1.0 then (1.0 / x).Floor else 0
  {
    if x < 1.0 {
      ScaleProgress(x);
      ScaleReaches(x * 10.0);
      ShiftTwice(x, 1, Scale(x * 10.0));
      assert Shift(x, 1) == 10.0 * Shift(x, 0) == x * 10.0;
    }
  }

  // For a price below 1: the multiplications it takes.
  lemma FractionExponent(a: real)
    requires 0.0 < a < 1.0
    ensures HasExponent(a, -(Scale(a) as int))
  {
    var m := Scale(a);
    ScaleReaches(a);
    ShiftBack(a, m);
    ShiftMonotone(1.0, Shift(a, m), -(m as int));
    ShiftMonotone(Shift(a, m), Ten(1), -(m as int));
    ShiftTwice(1.0, 1, -(m as int));
    assert Ten(1) == 10.0 * Shift(1.0, 0);
  }

  // ----- Both rounding branches are one -----

  lemma RoundIsNear(x: real)
    requires x >= 0.0
    ensures Round(x) as real - 0.5 <= x <= Round(x) as real + 0.5
    ensures Round(x) >= 0
  {
  }

  lemma RoundBetween(x: real, lo: int, hi: int)
    requires 0 <= lo && lo as real <= x <= hi as real
    ensures lo <= Round(x) <= hi
  {
  }

  // Rounding the scaled-up fraction and scaling back rounds the fraction.
  lemma ScaledNearest(a: real, m: int, d: int)
    ensures Shift(RoundToDecimals(Shift(a, m), d), -m) == RoundToDecimals(a, m + d)
  {
    ShiftTwice(a, m, d);
    ShiftTwice(Round(Shift(a, m + d)) as real, -d, -m);
  }

  // The shape of a rounded price: the integer part when that has enough digits,
  // and otherwise the nearest multiple of the unit of the last figure.
  lemma SigRoundShape(price: real, sigFigs: int, e: int)
    requires price != 0.0 && HasExponent(Abs(price), e) && sigFigs >= 1
    ensures SigRound(price, sigFigs) ==
            Copysign(if e + 1 >= sigFigs then Abs(price).Floor as real
                     else RoundToDecimals(Abs(price), sigFigs - 1 - e), price)
    ensures e >= 0 <==> Abs(price) >= 1.0
  {
    var a := Abs(price);
    if a >= 1.0 {
      IntegerExponent(a);
      ExponentUnique(a, e, Digits(a.Floor) - 1);
    } else {
      FractionExponent(a);
      ExponentUnique(a, e, -(Scale(a) as int));
      ScaleReaches(a);
      ScaledNearest(a, Scale(a), sigFigs - 1);
    }
  }

  lemma ExponentExists(a: real) returns (e: int)
    requires a > 0.0
    ensures HasExponent(a, e)
  {
    if a >= 1.0 {
      IntegerExponent(a);
      e := Digits(a.Floor) - 1;
    } else {
      FractionExponent(a);
      e := -(Scale(a) as int);
    }
  }

  // ----- Error of the nearest multiple -----

  lemma NearestScaled(a: real, k: int)
    ensures Shift(RoundToDecimals(a, k), k) == Round(Shift(a, k)) as real
  {
    ShiftBack(Round(Shift(a, k)) as real, k);
  }

  lemma NearestError(a: real, k: int)
    requires a > 0.0
    ensures Abs(RoundToDecimals(a, k) - a) <= Shift(0.5, -k)
  {
    var r := RoundToDecimals(a, k);
    NearestScaled(a, k);
    ShiftPositive(a, k);
    RoundIsNear(Shift(a, k));
    ShiftDifference(r, a, k);
    ShiftDifference(a, r, k);
    ShiftBack(r - a, k);
    ShiftBack(a - r, k);
    ShiftMonotone(Shift(r - a, k), 0.5, -k);
    ShiftMonotone(Shift(a - r, k), 0.5, -k);
  }

  // The scaled price lies between two powers of ten, and so does its rounding.
  lemma ScaledBounds(a: real, e: int, k: int)
    requires HasExponent(a, e) && e + k >= 0
    ensures Ten(e + k) <= Shift(a, k) < Ten(e + 1 + k)
    ensures Ten(e + k) <= Round(Shift(a, k)) as real <= Ten(e + 1 + k)
  {
    ShiftMonotone(Ten(e), a, k);
    ShiftMonotone(a, Ten(e + 1), k);
    ShiftTwice(1.0, e, k);
    ShiftTwice(1.0, e + 1, k);
    TenIsPower(e + k);
    TenIsPower(e + 1 + k);
    RoundBetween(Shift(a, k), Power(e + k), Power(e + 1 + k));
  }

  lemma NearestBounds(a: real, e: int, k: int)
    requires HasExponent(a, e) && e + k >= 0
    ensures 0.0 < Ten(e) <= RoundToDecimals(a, k) <= Ten(e + 1)
  {
    var n := Round(Shift(a, k)) as real;
    ScaledBounds(a, e, k);
    ShiftMonotone(Ten(e + k), n, -k);
    ShiftMonotone(n, Ten(e + 1 + k), -k);
    ShiftTwice(1.0, e + k, -k);
    ShiftTwice(1.0, e + 1 + k, -k);
    ShiftPositive(1.0, e);
  }

  // ----- Main results -----

  // The result has the sign of the price, and is zero for zero only.
  lemma SignPreserved(price: real, sigFigs: int)
    requires sigFigs >= 1
    ensures var r := SigRound(price, sigFigs);
            if price < 0.0 then r < 0.0 else if price > 0.0 then r > 0.0 else r == 0.0
  {
    if price != 0.0 {
      NonZeroSign(price, sigFigs);
    }
  }

  lemma NonZeroSign(price: real, sigFigs: int)
    requires price != 0.0 && sigFigs >= 1
    ensures var r := SigRound(price, sigFigs);
            if price < 0.0 then r < 0.0 else r > 0.0
  {
    var a := Abs(price);
    var e := ExponentExists(a);
    SigRoundShape(price, sigFigs, e);
    if e + 1 < sigFigs {
      NearestBounds(a, e, sigFigs - 1 - e);
    }
  }

  // One unit of the last figure is at most the allowed error.
  lemma UnitIsSmall(a: real, e: int, sigFigs: int)
    requires HasExponent(a, e)
    ensures Ten(e + 1 - sigFigs) <= Shift(a, 1 - sigFigs)
  {
    ShiftMonotone(Ten(e), a, 1 - sigFigs);
    ShiftTwice(1.0, e, 1 - sigFigs);
  }

  // The error of each branch is at most the price shifted right.
  lemma BranchError(a: real, e: int, sigFigs: int)
    requires a > 0.0 && HasExponent(a, e) && sigFigs >= 1
    ensures e + 1 >= sigFigs ==>
              a >= 1.0 && 0.0 < a.Floor as real && Abs(a.Floor as real - a) <= Shift(a, 1 - sigFigs)
    ensures e + 1 < sigFigs ==>
              RoundToDecimals(a, sigFigs - 1 - e) > 0.0 &&
              Abs(RoundToDecimals(a, sigFigs - 1 - e) - a) <= Shift(a, 1 - sigFigs)
  {
    UnitIsSmall(a, e, sigFigs);
    if e + 1 >= sigFigs {
      TenMonotone(0, e);
      TenMonotone(0, e + 1 - sigFigs);
    } else {
      var k := sigFigs - 1 - e;
      NearestError(a, k);
      NearestBounds(a, e, k);
      ShiftMonotone(0.5, 1.0, -k);
    }
  }

  lemma SignedDistance(x: real, price: real)
    requires x > 0.0 && price != 0.0
    ensures Abs(Copysign(x, price) - price) == Abs(x - Abs(price))
  {
  }

  // The relative error is at most 10^(1 - sigFigs), on every branch.
  lemma RelativeError(price: real, sigFigs: int)
    requires price != 0.0 && sigFigs >= 1
    ensures Abs(SigRound(price, sigFigs) - price) <= Shift(Abs(price), 1 - sigFigs)
  {
    var a := Abs(price);
    var e := ExponentExists(a);
    SigRoundShape(price, sigFigs, e);
    BranchError(a, e, sigFigs);
    SignedDistance(if e + 1 >= sigFigs then a.Floor as real else RoundToDecimals(a, sigFigs - 1 - e), price);
  }

  lemma NoneCloser(x: real, n: int)
    requires x >= 0.0
    ensures Abs(Round(x) as real - x) <= Abs(n as real - x)
  {
    RoundIsNear(x);
    HalfIsClosest(x, Round(x), n);
  }

  lemma HalvesGoUp(x: real, n: int)
    requires x >= 0.0
    ensures Abs(Round(x) as real - x) == Abs(n as real - x) ==> n <= Round(x)
  {
    if n > Round(x) {
      assert n as real >= Round(x) as real + 1.0 > x + 0.5;
    }
  }

  lemma HalfIsClosest(x: real, m: int, n: int)
    requires m as real - 0.5 <= x <= m as real + 0.5
    ensures Abs(m as real - x) <= Abs(n as real - x)
  {
    if n < m {
      assert n as real <= m as real - 1.0;
    } else if n > m {
      assert n as real >= m as real + 1.0;
    }
  }

  // With too few integer digits the rounded price is a multiple of the unit of
  // its last figure, no other multiple is closer, and of two that are equally close
  // it is the one further from zero; with enough of them it is the integer part.
  lemma NearestMultiple(price: real, sigFigs: int, e: int, n: int)
    requires price != 0.0 && sigFigs >= 1 && HasExponent(Abs(price), e)
    ensures var k := sigFigs - 1 - e;
            var a, r := Abs(price), Abs(SigRound(price, sigFigs));
            if k > 0
            then (exists whole: int :: Shift(r, k) == Whole(whole)) &&
                 Abs(Shift(r, k) - Shift(a, k)) <= Abs(n as real - Shift(a, k)) &&
                 (Abs(Shift(r, k) - Shift(a, k)) == Abs(n as real - Shift(a, k)) ==> n as real <= Shift(r, k))
            else r == a.Floor as real
  {
    var a, k := Abs(price), sigFigs - 1 - e;
    SigRoundShape(price, sigFigs, e);
    if k > 0 {
      NearestBounds(a, e, k);
      NearestScaled(a, k);
      ShiftPositive(a, k);
      NoneCloser(Shift(a, k), n);
      HalvesGoUp(Shift(a, k), n);
      assert Shift(RoundToDecimals(a, k), k) == Whole(Round(Shift(a, k)));
    }
  }

  function Whole(n: int): real { n as real }

  lemma RoundOfWhole(n: nat)
    ensures Round(n as real) == n
  {
    var y := n as real + 0.5;
    assert n as real <= y < (n + 1) as real;
  }

  // A multiple of the unit is its own nearest multiple.
  lemma MultiplesAreFixed(a: real, k: int, n: nat)
    requires Shift(a, k) == n as real
    ensures RoundToDecimals(a, k) == a
  {
    ShiftBack(a, k);
    RoundOfWhole(n);
  }

  // A power of ten is a fixed point.
  lemma PowersAreFixed(e: int, sigFigs: int, price: real)
    requires sigFigs >= 1 && Abs(price) == Ten(e)
    ensures SigRound(price, sigFigs) == price
  {
    ShiftStep(1.0, e);
    ShiftPositive(1.0, e);
    SigRoundShape(price, sigFigs, e);
    if e + 1 >= sigFigs {
      TenIsPower(e);
    } else {
      var k := sigFigs - 1 - e;
      ShiftTwice(1.0, e, k);
      TenIsPower(e + k);
      MultiplesAreFixed(Ten(e), k, Power(e + k));
    }
  }

  lemma IntegerPartFixed(price: real, sigFigs: int, e: int)
    requires sigFigs >= 1 && price != 0.0 && HasExponent(Abs(price), e) && e + 1 >= sigFigs
    ensures SigRound(SigRound(price, sigFigs), sigFigs) == SigRound(price, sigFigs)
  {
    var a := Abs(price);
    SigRoundShape(price, sigFigs, e);
    var r := SigRound(price, sigFigs);
    TenIsPower(e);
    assert Power(e) <= a.Floor;
    assert Abs(r) == a.Floor as real && (a.Floor as real).Floor == a.Floor;
    assert HasExponent(Abs(r), e);
    SigRoundShape(r, sigFigs, e);
  }

  lemma NearestFixed(price: real, sigFigs: int, e: int)
    requires sigFigs >= 1 && price != 0.0 && HasExponent(Abs(price), e) && e + 1 < sigFigs
    ensures SigRound(SigRound(price, sigFigs), sigFigs) == SigRound(price, sigFigs)
  {
    var a, k := Abs(price), sigFigs - 1 - e;
    SigRoundShape(price, sigFigs, e);
    var r := SigRound(price, sigFigs);
    NearestBounds(a, e, k);
    NearestScaled(a, k);
    if Abs(r) == Ten(e + 1) {
      PowersAreFixed(e + 1, sigFigs, r);
    } else {
      SigRoundShape(r, sigFigs, e);
      ShiftPositive(a, k);
      RoundIsNear(Shift(a, k));
      MultiplesAreFixed(Abs(r), k, Round(Shift(a, k)));
    }
  }

  // Rounding a rounded price changes nothing.
  lemma Idempotent(price: real, sigFigs: int)
    requires sigFigs >= 1
    ensures SigRound(SigRound(price, sigFigs), sigFigs) == SigRound(price, sigFigs)
  {
    if price != 0.0 {
      var e := ExponentExists(Abs(price));
      if e + 1 >= sigFigs {
        IntegerPartFixed(price, sigFigs, e);
      } else {
        NearestFixed(price, sigFigs, e);
      }
    }
  }
}
