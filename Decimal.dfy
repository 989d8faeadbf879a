/**
 * Signed 64-bit integers and their text forms: the decimal rendering Rust's
 * `to_string` gives an `i64`/`isize`, and `i64::from_str_radix`, which the
 * literal evaluator of the compiler uses.
 */
module Decimal {
  import opened Wrappers

  const I64_MIN: int := -0x8000_0000_0000_0000
  const I64_MAX: int := 0x7FFF_FFFF_FFFF_FFFF

  /** The range of Rust's `i64` (and of `isize` on a 64-bit target). */
  type I64 = x: int | I64_MIN <= x <= I64_MAX

  function DigitChar(d: nat): (c: char)
    requires d < 10
    ensures '0' <= c <= '9'
  {
    (('0' as int) + d) as char
  }

  /** The value of `c` read as a digit of base 36, as `char::to_digit` does. */
  function DigitValue(c: char): Option<nat>
  {
    if '0' <= c <= '9' then Some((c as int) - ('0' as int))
    else if 'a' <= c <= 'z' then Some((c as int) - ('a' as int) + 10)
    else if 'A' <= c <= 'Z' then Some((c as int) - ('A' as int) + 10)
    else None
  }

  predicate IsDigit(c: char, radix: nat)
  {
    DigitValue(c).Some? && DigitValue(c).value < radix
  }

  predicate AllDigits(s: string, radix: nat)
  {
    forall i | 0 <= i < |s| :: IsDigit(s[i], radix)
  }

  /** The number a string of digits denotes, read most significant digit first. */
  function DigitsValue(s: string, radix: nat): nat
    requires AllDigits(s, radix)
  {
    if s == [] then 0
    else DigitsValue(s[..|s| - 1], radix) * radix + DigitValue(s[|s| - 1]).value
  }

  /** Decimal digits of a natural number, without leading zeros. */
  function NatToString(n: nat): (s: string)
    ensures |s| >= 1 && AllDigits(s, 10)
    ensures '0' <= s[0] <= '9'
  {
    if n < 10 then [DigitChar(n)] else NatToString(n / 10) + [DigitChar(n % 10)]
  }

  /** Rust's `Display` for a signed integer: a minus sign, then the digits of the magnitude. */
  function IntToString(n: int): (r: string)
    ensures |r| >= 1 && (r[0] == '-' <==> n < 0)
  {
    if n < 0 then "-" + NatToString(-n) else NatToString(n)
  }

  /**
   * `i64::from_str_radix(s, radix)`: an optional `+` or `-`, then at least one
   * digit of the radix; a value outside the `i64` range is an error.
   */
  function FromStrRadix(s: string, radix: nat): (r: Option<I64>)
    requires 2 <= radix <= 36
    ensures r.Some? ==> |s| > 0
    ensures r.Some? && s[0] != '-' ==> r.value >= 0
  {
    if s == [] then None
    else
      var negative := s[0] == '-';
      var digits := if s[0] == '-' || s[0] == '+' then s[1..] else s;
      if digits == [] || !AllDigits(digits, radix) then None
      else
        var magnitude: int := DigitsValue(digits, radix);
        var v := if negative then -magnitude else magnitude;
        if I64_MIN <= v <= I64_MAX then Some(v) else None
  }

  lemma {:induction false} NatToStringValue(n: nat)
    ensures DigitsValue(NatToString(n), 10) == n
  {
    var s := NatToString(n);
    if n < 10 {
      assert s[..|s| - 1] == [];
    } else {
      var prefix := NatToString(n / 10);
      assert s[..|s| - 1] == prefix;
      NatToStringValue(n / 10);
    }
  }

  /** Parsing the decimal rendering of any `i64` with radix 10 gives the number back. */
  lemma DecimalRoundTrip(n: I64)
    ensures FromStrRadix(IntToString(n), 10) == Some(n)
  {
    var s := IntToString(n);
    if n < 0 {
      assert s[1..] == NatToString(-(n as int));
      NatToStringValue(-(n as int));
    } else {
      NatToStringValue(n);
    }
  }
}
