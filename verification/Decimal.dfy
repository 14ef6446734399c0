/** Decimal text of integers, as the %u, %lu and %d conversions of printf and scanf treat it. */
module Decimal {

  function Digit(d: nat): char
    requires d < 10
  {
    ['0', '1', '2', '3', '4', '5', '6', '7', '8', '9'][d]
  }

  predicate IsDigit(c: char) {
    '0' <= c <= '9'
  }

  function Value(c: char): (d: nat)
    requires IsDigit(c)
    ensures d < 10
  {
    c as int - '0' as int
  }

  /** %u: the digits of `n`, without leading zeros. */
  function Unsigned(n: nat): (s: string)
    ensures |s| >= 1 && forall i :: 0 <= i < |s| ==> IsDigit(s[i])
  {
    if n < 10 then [Digit(n)] else Unsigned(n / 10) + [Digit(n % 10)]
  }

  /** %d */
  function Signed(i: int): string {
    if i < 0 then "-" + Unsigned(-i) else Unsigned(i)
  }

  /** The number of digits at the start of a text. */
  function DigitRun(s: string): (n: nat)
    ensures n <= |s|
    ensures forall i :: 0 <= i < n ==> IsDigit(s[i])
    ensures n < |s| ==> !IsDigit(s[n])
  {
    if s == [] || !IsDigit(s[0]) then 0 else 1 + DigitRun(s[1..])
  }

  /** The value of a text of digits. */
  function ValueOf(s: string): nat
    requires forall i :: 0 <= i < |s| ==> IsDigit(s[i])
  {
    if s == [] then 0 else ValueOf(s[..|s| - 1]) * 10 + Value(s[|s| - 1])
  }

  lemma {:induction false} ReadsBack(n: nat)
    ensures ValueOf(Unsigned(n)) == n
  {
    if n >= 10 {
      ReadsBack(n / 10);
      var s := Unsigned(n);
      assert s[..|s| - 1] == Unsigned(n / 10);
    } else {
      var s := Unsigned(n);
      assert s[..0] == [];
    }
  }

  /** Numerals are equal only for equal numbers. */
  lemma UnsignedInjective(m: nat, n: nat)
    requires Unsigned(m) == Unsigned(n)
    ensures m == n
  {
    ReadsBack(m);
    ReadsBack(n);
  }

  /** A numeral followed by anything but a digit is read back whole. */
  lemma RunOfNumeral(n: nat, rest: string)
    requires rest == [] || !IsDigit(rest[0])
    ensures DigitRun(Unsigned(n) + rest) == |Unsigned(n)|
  {
    RunOf(Unsigned(n), rest);
  }

  lemma {:induction false} RunOf(digits: string, rest: string)
    requires forall i :: 0 <= i < |digits| ==> IsDigit(digits[i])
    requires rest == [] || !IsDigit(rest[0])
    ensures DigitRun(digits + rest) == |digits|
  {
    if digits == [] {
      assert digits + rest == rest;
    } else {
      RunOf(digits[1..], rest);
      assert (digits + rest)[1..] == digits[1..] + rest;
    }
  }

  /** A numeral is as short as the power of ten above it allows. */
  lemma {:induction false} NumeralLength(n: nat, k: nat, bound: nat)
    requires k >= 1 && bound == PowerOf10(k) && n < bound
    ensures |Unsigned(n)| <= k
  {
    if n >= 10 {
      assert k >= 2;
      NumeralLength(n / 10, k - 1, PowerOf10(k - 1));
    }
  }

  function PowerOf10(k: nat): nat {
    if k == 0 then 1 else 10 * PowerOf10(k - 1)
  }
}
