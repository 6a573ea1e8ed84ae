// Small definitions that several parts share.
module Basics {

  datatype Option<+T> = None | Some(value: T)

  function Abs(x: real): real { if x < 0.0 then -x else x }

  function Max(x: real, y: real): real { if x > y then x else y }

  // 10^n.
  function Power(n: nat): (p: nat)
    ensures p >= 1
  {
    if n == 0 then 1 else 10 * Power(n - 1)
  }

  predicate Distinct<T(==)>(s: seq<T>) {
    forall i, j :: 0 <= i < j < |s| ==> s[i] != s[j]
  }
}
