/**
 * Decimal rendering of unsigned integers, as `format!("{}", n)` prints a
 * `u64`: the shortest string of ASCII digits, with no sign and no leading zero.
 */
module Decimal {

  /** Rust's `u64`, the type of a user identifier. */
  newtype u64 = x: int | 0 <= x < 0x1_0000_0000_0000_0000

  predicate IsDigit(c: char) {
    '0' <= c <= '9'
  }

  predicate AllDigits(s: string) {
    forall i :: 0 <= i < |s| ==> IsDigit(s[i])
  }

  /** A canonical decimal numeral: non-empty, digits only, no leading zero except "0" itself. */
  predicate IsCanonical(s: string) {
    |s| >= 1 && AllDigits(s) && (s[0] == '0' ==> |s| == 1)
  }

  function DigitChar(d: nat): (c: char)
    requires d < 10
    ensures IsDigit(c) && DigitValue(c) == d
  {
    ('0' as int + d) as char
  }

  function DigitValue(c: char): nat
    requires IsDigit(c)
  {
    c as int - '0' as int
  }

  /** The value of a string of digits, most significant digit first. */
  function Parse(s: string): nat
    requires AllDigits(s)
  {
    if s == [] then 0 else Parse(s[..|s| - 1]) * 10 + DigitValue(s[|s| - 1])
  }

  /** The decimal rendering of `n`; it is canonical and reads back as `n`. */
  function Digits(n: nat): (r: string)
    ensures IsCanonical(r)
    ensures Parse(r) == n
    decreases n
  {
    if n < 10 then [DigitChar(n)]
    else
      var prefix := Digits(n / 10);
      var r := prefix + [DigitChar(n % 10)];
      assert r[..|r| - 1] == prefix;
      r
  }

  /** Distinct numbers have distinct renderings. */
  lemma DigitsInjective(a: nat, b: nat)
    ensures Digits(a) == Digits(b) ==> a == b
  {
  }

  /** A canonical numeral whose value is not zero starts with a non-zero digit, so it is positive. */
  lemma {:induction false} CanonicalPositive(s: string)
    requires AllDigits(s) && |s| >= 1 && s[0] != '0'
    ensures Parse(s) >= 1
  {
    if |s| > 1 {
      CanonicalPositive(s[..|s| - 1]);
    }
  }

  /** `Digits` is the only canonical rendering: every canonical numeral is the rendering of its value. */
  lemma {:induction false} DigitsIsTheOnlyRendering(s: string)
    requires IsCanonical(s)
    ensures s == Digits(Parse(s))
  {
    if |s| > 1 {
      var prefix := s[..|s| - 1];
      var d := DigitValue(s[|s| - 1]);
      assert prefix[0] == s[0] != '0';
      CanonicalPositive(prefix);
      DigitsIsTheOnlyRendering(prefix);
      var n := Parse(s);
      assert n == Parse(prefix) * 10 + d;
      assert n / 10 == Parse(prefix) && n % 10 == d;
      assert DigitChar(d) == s[|s| - 1];
      assert s == prefix + [s[|s| - 1]];
    }
  }
}
