/** Integers written in decimal, as Python's string formatting writes them,
    and read back. */
module Decimal {
  import opened Clock

  predicate AllDigits(s: string) {
    forall i :: 0 <= i < |s| ==> IsDigit(s[i])
  }

  /** A natural number in decimal, without leading zeros. */
  function ShowNat(n: nat): (s: string)
    ensures |s| >= 1 && AllDigits(s)
    decreases n
  {
    if n < 10 then [Digit(n)] else ShowNat(n / 10) + [Digit(n % 10)]
  }

  function ReadNat(s: string): nat
    requires AllDigits(s)
    decreases |s|
  {
    if s == [] then 0 else ReadNat(s[..|s| - 1]) * 10 + DigitValue(s[|s| - 1])
  }

  function Pow10(n: nat): (p: nat)
    ensures p >= 1
  {
    if n == 0 then 1 else 10 * Pow10(n - 1)
  }

  /** A string of k digits reads as a number below 10^k. */
  lemma {:induction false} ReadNatBelow(s: string)
    requires AllDigits(s)
    ensures ReadNat(s) < Pow10(|s|)
    decreases |s|
  {
    if s != [] {
      ReadNatBelow(s[..|s| - 1]);
    }
  }

  lemma {:induction false} ReadShowNat(n: nat)
    ensures ReadNat(ShowNat(n)) == n
    decreases n
  {
    var s := ShowNat(n);
    if n >= 10 {
      ReadShowNat(n / 10);
      assert s[..|s| - 1] == ShowNat(n / 10);
    }
  }

  /** An integer in decimal, with a leading '-' when negative. */
  function ShowInt(n: int): (s: string)
    ensures |s| >= 1
    ensures (s[0] == '-') <==> n < 0
  {
    if n < 0 then "-" + ShowNat(-n) else ShowNat(n)
  }

  /** Different integers are written differently. */
  lemma {:induction false} ShowIntInjective(a: int, b: int)
    requires ShowInt(a) == ShowInt(b)
    ensures a == b
  {
    if a < 0 {
      assert ShowInt(a)[1..] == ShowNat(-a);
      assert ShowInt(b)[1..] == ShowNat(-b);
      ReadShowNat(-a);
      ReadShowNat(-b);
    } else {
      ReadShowNat(a);
      ReadShowNat(b);
    }
  }
}
