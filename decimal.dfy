/** Decimal text of Java integers, as the credential bookkeeping stores them:
    `Long.toString` / `Integer.toString` on the way in and `Long.parseLong` /
    `Integer.parseInt` on the way out.  Only ASCII digits are modelled. */
module Decimal {
  import opened Basics

  const LONG_MIN: int := -0x8000_0000_0000_0000
  const LONG_MAX: int := 0x7FFF_FFFF_FFFF_FFFF
  const INT_MIN: int := -0x8000_0000
  const INT_MAX: int := 0x7FFF_FFFF

  /** Java `long` and `int` values. */
  type Long = x: int | LONG_MIN <= x <= LONG_MAX
  type Int = x: int | INT_MIN <= x <= INT_MAX

  /** Two's-complement wrap-around of a mathematical result into a `long`. */
  function WrapLong(x: int): (r: Long)
    ensures LONG_MIN <= x <= LONG_MAX ==> r == x
    ensures (r - x) % 0x1_0000_0000_0000_0000 == 0
  {
    var m := (x - LONG_MIN) % 0x1_0000_0000_0000_0000;
    m + LONG_MIN
  }

  predicate IsDigit(c: char) {
    '0' <= c <= '9'
  }

  predicate AllDigits(s: string) {
    forall i :: 0 <= i < |s| ==> IsDigit(s[i])
  }

  function DigitChar(d: nat): (c: char)
    requires d < 10
    ensures IsDigit(c) && (c as int) - ('0' as int) == d
  {
    (('0' as int) + d) as char
  }

  /** `Long.toString(n)` for n >= 0: most significant digit first, no leading zeros. */
  function NatToString(n: nat): (s: string)
    ensures |s| >= 1 && AllDigits(s)
    ensures n >= 10 ==> s[0] != '0'
  {
    if n < 10 then [DigitChar(n)]
    else NatToString(n / 10) + [DigitChar(n % 10)]
  }

  /** `Long.toString(n)` / `Integer.toString(n)`. */
  function IntToString(n: int): (s: string)
    ensures |s| >= 1
    ensures s[0] == '-' <==> n < 0
    ensures n >= 0 ==> AllDigits(s)
    ensures n < 0 ==> |s| >= 2 && AllDigits(s[1..])
  {
    if n < 0 then "-" + NatToString(-n) else NatToString(n)
  }

  /** The value of a run of decimal digits. */
  function DigitsValue(s: string): nat
    requires AllDigits(s)
  {
    if s == [] then 0
    else DigitsValue(s[..|s| - 1]) * 10 + ((s[|s| - 1] as int) - ('0' as int))
  }

  /** `Long.parseLong(s)` when lo/hi are the `long` bounds and `Integer.parseInt(s)`
      when they are the `int` bounds: an optional sign, one or more digits, and a
      value in range; null or anything else throws NumberFormatException (None). */
  function ParseInteger(s: Option<string>, lo: int, hi: int): (r: Option<int>)
    ensures r.Some? ==> lo <= r.value <= hi
  {
    if s.None? then None
    else
      var t := s.value;
      var negative := |t| > 0 && t[0] == '-';
      var digits := if |t| > 0 && (t[0] == '-' || t[0] == '+') then t[1..] else t;
      if digits == [] || !AllDigits(digits) then None
      else
        var magnitude: int := DigitsValue(digits);
        var v := if negative then -magnitude else magnitude;
        if lo <= v <= hi then Some(v) else None
  }

  /** `Long.parseLong` */
  function ParseLong(s: Option<string>): (r: Option<Long>)
    ensures s.None? || s == Some("") ==> r.None?
    ensures r.Some? <==> ParseInteger(s, LONG_MIN, LONG_MAX).Some?
    ensures r.Some? ==> r.value as int == ParseInteger(s, LONG_MIN, LONG_MAX).value
  {
    var v := ParseInteger(s, LONG_MIN, LONG_MAX);
    if v.Some? then Some(v.value as Long) else None
  }

  /** `Integer.parseInt` */
  function ParseInt(s: Option<string>): (r: Option<Int>)
    ensures s.None? || s == Some("") ==> r.None?
    ensures r.Some? <==> ParseInteger(s, INT_MIN, INT_MAX).Some?
    ensures r.Some? ==> r.value as int == ParseInteger(s, INT_MIN, INT_MAX).value
  {
    var v := ParseInteger(s, INT_MIN, INT_MAX);
    if v.Some? then Some(v.value as Int) else None
  }

  lemma {:induction false} NatToStringValue(n: nat)
    ensures DigitsValue(NatToString(n)) == n
  {
    if n >= 10 {
      var s := NatToString(n);
      assert s[..|s| - 1] == NatToString(n / 10);
      NatToStringValue(n / 10);
    }
  }

  /** Reading back what was written: the text `Long.toString(n)` parses to n
      under any bounds that admit n. */
  lemma ParseIntToString(n: int, lo: int, hi: int)
    requires lo <= n <= hi
    ensures ParseInteger(Some(IntToString(n)), lo, hi) == Some(n)
  {
    var t := IntToString(n);
    if n < 0 {
      NatToStringValue(-n);
      assert t[1..] == NatToString(-n);
    } else {
      NatToStringValue(n);
    }
  }

  lemma ParseLongToString(n: Long)
    ensures ParseLong(Some(IntToString(n))) == Some(n)
  {
    ParseIntToString(n, LONG_MIN, LONG_MAX);
  }

  lemma ParseIntOfToString(n: Int)
    ensures ParseInt(Some(IntToString(n))) == Some(n)
  {
    ParseIntToString(n, INT_MIN, INT_MAX);
  }
}
