/**
 * Java's fixed-width integer ranges and the decimal text of numbers
 * (`Integer.toString`, `String.valueOf(int)`, `%d`, and the value of a run of
 * decimal digits as `Integer.parseInt` reads it).
 */
module Numerals {

  const INT_MIN: int := -0x8000_0000
  const INT_MAX: int := 0x7fff_ffff
  const LONG_MIN: int := -0x8000_0000_0000_0000
  const LONG_MAX: int := 0x7fff_ffff_ffff_ffff

  /** A Java `int`. */
  type Int32 = x: int | INT_MIN <= x <= INT_MAX
  /** A Java `long`. */
  type Int64 = x: int | LONG_MIN <= x <= LONG_MAX

  /** Java `/` by a positive divisor: the quotient truncated toward zero. */
  function JavaDiv(a: int, b: int): int
    requires b > 0
  {
    if a >= 0 then a / b else -((-a) / b)
  }

  /** Java `%`: the remainder takes the sign of the dividend, whatever the divisor's sign. */
  function JavaRem(a: int, b: int): (r: int)
    requires b != 0
    ensures a >= 0 ==> 0 <= r < Abs(b)
    ensures a < 0 ==> 0 < r + Abs(b) && r <= 0
  {
    if a >= 0 then a % Abs(b) else -((-a) % Abs(b))
  }

  function Abs(x: int): nat { if x < 0 then -x else x }

  /** A Java `int` result of an overflowing computation: the value reduced modulo 2^32 into the int range. */
  function Wrap32(x: int): (r: Int32)
    ensures (x - r) % 0x1_0000_0000 == 0
    ensures INT_MIN <= x <= INT_MAX ==> r == x
  {
    (x + 0x8000_0000) % 0x1_0000_0000 - 0x8000_0000
  }

  /** Just below the int range, the wrap adds 2^32 once. */
  lemma WrapsOnceBelow(x: int)
    requires INT_MIN - 0x8000_0000 <= x < INT_MIN
    ensures Wrap32(x) == x + 0x1_0000_0000
  {
    DivModUnique(x + 0x8000_0000, 0x1_0000_0000, -1, x + 0x8000_0000 + 0x1_0000_0000);
  }

  /** Euclidean division is determined by its quotient and remainder. */
  lemma DivModUnique(x: int, d: int, q: int, r: int)
    requires d > 0 && x == q * d + r && 0 <= r < d
    ensures x / d == q && x % d == r
  {
    var q0 := x / d;
    assert x == q0 * d + x % d;
    MultipleAtLeastDivisor(q - q0, d);
    MultipleAtLeastDivisor(q0 - q, d);
  }

  lemma MultipleAtLeastDivisor(k: int, d: int)
    requires d > 0
    ensures k >= 1 ==> k * d >= d
  {
  }

  /** Multiplying by a positive factor keeps the order. */
  lemma MulIsMonotonic(a: int, b: int, d: int)
    requires d > 0 && a <= b
    ensures a * d <= b * d
  {
    if a < b {
      MultipleAtLeastDivisor(b - a, d);
      assert b * d == (b - a) * d + a * d;
    }
  }

  /** One more factor of `n` adds `x` once. */
  lemma ProductOfSuccessor(m: int, n: int, x: int)
    requires n == m + 1
    ensures n * x == m * x + x
  {
  }

  /** The `[0-9]` class of a Java regular expression (`\d` without UNICODE_CHARACTER_CLASS). */
  predicate IsDigit(c: char) { '0' <= c <= '9' }

  predicate AllDigits(s: string) { forall i :: 0 <= i < |s| ==> IsDigit(s[i]) }

  function DigitChar(d: nat): (c: char)
    requires d < 10
    ensures IsDigit(c)
  {
    ('0' as int + d) as char
  }

  function DigitValue(c: char): (d: nat)
    requires IsDigit(c)
    ensures d < 10 && DigitChar(d) == c
  {
    c as int - '0' as int
  }

  /** The number a run of decimal digits denotes, leading zeros allowed. */
  function DigitsValue(s: string): nat
    requires AllDigits(s)
  {
    if s == [] then 0 else DigitsValue(s[..|s| - 1]) * 10 + DigitValue(s[|s| - 1])
  }

  /** A leading zero does not change the number a digit run denotes. */
  lemma {:induction false} LeadingZeroKeepsValue(s: string)
    requires AllDigits(s)
    ensures AllDigits("0" + s) && DigitsValue("0" + s) == DigitsValue(s)
    decreases |s|
  {
    var t := "0" + s;
    if s == [] {
      assert t[..0] == [];
    } else {
      assert t[..|t| - 1] == "0" + s[..|s| - 1];
      LeadingZeroKeepsValue(s[..|s| - 1]);
    }
  }

  /** `Integer.toString` of a non-negative number: its shortest decimal text. */
  function NatToString(n: nat): (s: string)
    ensures 1 <= |s| && AllDigits(s)
    ensures |s| > 1 ==> s[0] != '0'
  {
    if n < 10 then [DigitChar(n)] else NatToString(n / 10) + [DigitChar(n % 10)]
  }

  /** `Integer.toString` / `%d`: a minus sign in front of a negative number. */
  function IntToString(i: int): (s: string)
    ensures 1 <= |s|
    ensures i >= 0 <==> IsDigit(s[0])
  {
    if i < 0 then "-" + NatToString(-i) else NatToString(i)
  }

  /** Reading the decimal text of a number gives the number back. */
  lemma {:induction false} NatToStringRoundTrip(n: nat)
    ensures DigitsValue(NatToString(n)) == n
  {
    var s := NatToString(n);
    if n >= 10 {
      NatToStringRoundTrip(n / 10);
      assert s[..|s| - 1] == NatToString(n / 10);
      assert DigitValue(s[|s| - 1]) == n % 10;
    }
  }

  /** Distinct numbers have distinct decimal texts. */
  lemma NatToStringInjective(a: nat, b: nat)
    ensures NatToString(a) == NatToString(b) ==> a == b
  {
    NatToStringRoundTrip(a);
    NatToStringRoundTrip(b);
  }

  lemma IntToStringInjective(a: int, b: int)
    ensures IntToString(a) == IntToString(b) ==> a == b
  {
    if IntToString(a) == IntToString(b) {
      if a < 0 && b < 0 {
        assert NatToString(-a) == IntToString(a)[1..];
        assert NatToString(-b) == IntToString(b)[1..];
        NatToStringInjective(-a, -b);
      } else if a >= 0 && b >= 0 {
        NatToStringInjective(a, b);
      }
    }
  }
}
