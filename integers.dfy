/**
 * The text form of `i64` values: `str::parse::<i64>` (used by the reader's
 * `atom`) and `format!("{}", i)` (used by `datatype2str`).
 */
module Integers {
  import opened Wrappers

  const I64Min: int := -0x8000_0000_0000_0000
  const I64Max: int := 0x7FFF_FFFF_FFFF_FFFF

  predicate InI64(i: int) { I64Min <= i <= I64Max }

  predicate IsDigit(c: char) { '0' <= c <= '9' }

  predicate AllDigits(s: string) { forall k :: 0 <= k < |s| ==> IsDigit(s[k]) }

  function DigitValue(c: char): (d: nat)
    requires IsDigit(c)
    ensures d < 10
  {
    c as int - '0' as int
  }

  function DigitChar(d: nat): (c: char)
    requires d < 10
    ensures IsDigit(c) && DigitValue(c) == d
  {
    ('0' as int + d) as char
  }

  /** The value of a run of decimal digits, read most significant first. */
  function DigitsValue(s: string): nat
    requires AllDigits(s)
  {
    if s == [] then 0 else DigitsValue(s[..|s| - 1]) * 10 + DigitValue(s[|s| - 1])
  }

  /**
   * `str::parse::<i64>`: an optional `+` or `-`, then one or more ASCII
   * digits, and the value must fit in an `i64`; anything else fails.
   */
  function ParseI64(t: string): (r: Option<int>)
    ensures r.Some? ==> InI64(r.value)
    ensures r.Some? ==> 0 < |t| && (IsDigit(t[0]) || t[0] == '+' || t[0] == '-')
    ensures r.Some? ==>
      var d := if t[0] == '+' || t[0] == '-' then t[1..] else t;
      d != [] && AllDigits(d) && r.value == (if t[0] == '-' then -(DigitsValue(d) as int) else DigitsValue(d) as int)
    ensures (0 < |t| &&
      var d := if t[0] == '+' || t[0] == '-' then t[1..] else t;
      d != [] && AllDigits(d) && InI64(if t[0] == '-' then -(DigitsValue(d) as int) else DigitsValue(d) as int)) ==> r.Some?
  {
    var negative := 0 < |t| && t[0] == '-';
    var digits := if 0 < |t| && (t[0] == '+' || t[0] == '-') then t[1..] else t;
    if digits == [] || !AllDigits(digits) then None
    else
      var magnitude: int := DigitsValue(digits);
      var v := if negative then -magnitude else magnitude;
      if InI64(v) then Some(v) else None
  }

  /** Decimal digits of a natural number, without leading zeros. */
  function NatToStr(n: nat): (s: string)
    ensures 0 < |s| && AllDigits(s)
    decreases n
  {
    if n < 10 then [DigitChar(n)] else NatToStr(n / 10) + [DigitChar(n % 10)]
  }

  /** `format!("{}", i)` for an integer: a `-` for negatives, then its digits. */
  function IntToStr(i: int): (s: string)
    ensures 0 < |s| && (s[0] == '-' || IsDigit(s[0]))
    ensures forall k :: 0 < k < |s| ==> IsDigit(s[k])
  {
    if i < 0 then "-" + NatToStr(-i) else NatToStr(i)
  }

  lemma {:induction false} DigitsOfNat(n: nat)
    ensures DigitsValue(NatToStr(n)) == n
    decreases n
  {
    if n >= 10 {
      var s := NatToStr(n);
      DigitsOfNat(n / 10);
      assert s[..|s| - 1] == NatToStr(n / 10);
    }
  }

  /**
   * Formatting an integer and parsing the text back gives the same integer
   * when it is in the `i64` range, and fails otherwise.
   */
  lemma ParseFormatted(i: int)
    ensures ParseI64(IntToStr(i)) == if InI64(i) then Some(i) else None
  {
    if i < 0 {
      DigitsOfNat(-i);
      assert IntToStr(i)[1..] == NatToStr(-i);
    } else {
      DigitsOfNat(i);
    }
  }
}
