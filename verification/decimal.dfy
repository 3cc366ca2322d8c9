/** Decimal text of Java integers: `String.valueOf(long)` for the size-limit
    attribute, and `Long.parseLong` / `Integer.parseInt` for the filter's
    init parameters. */
module Decimal {
  import opened Wrappers

  const LongMin: int := -0x8000_0000_0000_0000
  const LongMax: int := 0x7FFF_FFFF_FFFF_FFFF
  const IntMin: int := -0x8000_0000
  const IntMax: int := 0x7FFF_FFFF

  predicate IsDigit(ch: char) {
    '0' <= ch <= '9'
  }

  predicate AllDigits(s: string) {
    forall i :: 0 <= i < |s| ==> IsDigit(s[i])
  }

  function DigitValue(ch: char): (d: nat)
    requires IsDigit(ch)
    ensures d < 10
  {
    (ch as int) - ('0' as int)
  }

  function DigitChar(d: nat): (ch: char)
    requires d < 10
    ensures IsDigit(ch) && DigitValue(ch) == d
  {
    (('0' as int) + d) as char
  }

  /** The value of a run of decimal digits, most significant first. */
  function DigitsValue(s: string): nat
    requires AllDigits(s)
    decreases |s|
  {
    if |s| == 0 then 0 else DigitsValue(s[..|s| - 1]) * 10 + DigitValue(s[|s| - 1])
  }

  /** The shortest decimal digits of `n`: no leading zero unless `n` is 0. */
  function NatDigits(n: nat): (s: string)
    ensures |s| > 0 && AllDigits(s)
    ensures |s| > 1 ==> s[0] != '0'
    decreases n
  {
    if n < 10 then [DigitChar(n)] else NatDigits(n / 10) + [DigitChar(n % 10)]
  }

  lemma {:induction false} NatDigitsRoundTrip(n: nat)
    ensures DigitsValue(NatDigits(n)) == n
    decreases n
  {
    if n >= 10 {
      NatDigitsRoundTrip(n / 10);
      var s := NatDigits(n);
      assert s[..|s| - 1] == NatDigits(n / 10);
    }
  }

  /** `String.valueOf(long)`: a minus sign for negative values, then the digits. */
  function LongToString(n: int): (s: string)
    ensures |s| > 0
    ensures n < 0 <==> s[0] == '-'
    ensures var d := if n < 0 then s[1..] else s;
      |d| > 0 && AllDigits(d) && (|d| > 1 ==> d[0] != '0')
  {
    if n < 0 then "-" + NatDigits(-n) else NatDigits(n)
  }

  /** The parsing rule shared by `Long.parseLong` and `Integer.parseInt`: an
      optional `-` or `+`, at least one digit, nothing else, and the value in
      `[lo, hi]`; anything else is a `NumberFormatException` (here `None`). */
  function ParseSigned(s: string, lo: int, hi: int): (r: Option<int>)
    ensures r.Some? ==> lo <= r.value <= hi
    ensures r.Some? ==> |s| > 0 && AllDigits(s[1..])
    ensures r.Some? ==> s[0] == '-' || s[0] == '+' || IsDigit(s[0])
    ensures r.Some? ==> IsDigit(s[0]) || |s| > 1
  {
    if |s| == 0 then None
    else if s[0] == '-' || s[0] == '+' then
      var digits := s[1..];
      if |digits| == 0 || !AllDigits(digits) then None
      else
        var magnitude: int := DigitsValue(digits);
        var v := if s[0] == '-' then -magnitude else magnitude;
        if lo <= v <= hi then Some(v) else None
    else if !AllDigits(s) then None
    else
      var v := DigitsValue(s);
      if lo <= v <= hi then Some(v) else None
  }

  /** `Long.parseLong(s)`. */
  function ParseLong(s: string): (r: Option<int>)
    ensures r.Some? ==> LongMin <= r.value <= LongMax
  {
    ParseSigned(s, LongMin, LongMax)
  }

  /** `Integer.parseInt(s)`. */
  function ParseInt(s: string): (r: Option<int>)
    ensures r.Some? ==> IntMin <= r.value <= IntMax
  {
    ParseSigned(s, IntMin, IntMax)
  }

  /** The text `String.valueOf` writes for a long is read back by `Long.parseLong`. */
  lemma LongTextRoundTrip(n: int)
    requires LongMin <= n <= LongMax
    ensures ParseLong(LongToString(n)) == Some(n)
  {
    var s := LongToString(n);
    if n < 0 {
      assert s[1..] == NatDigits(-n);
      NatDigitsRoundTrip(-n);
    } else {
      NatDigitsRoundTrip(n);
    }
  }

  /** The value an optional sign and a run of digits stand for. */
  function SignedValue(sign: string, digits: string): int
    requires AllDigits(digits)
  {
    if sign == "-" then -(DigitsValue(digits) as int) else DigitsValue(digits)
  }

  /** `Long.parseLong` reads an optional sign and at least one digit as
      their value, and rejects it exactly when that value is out of range. */
  lemma ParseLongValue(sign: string, digits: string)
    requires sign == "" || sign == "-" || sign == "+"
    requires |digits| > 0 && AllDigits(digits)
    ensures var v := SignedValue(sign, digits);
      ParseLong(sign + digits) == if LongMin <= v <= LongMax then Some(v) else None
  {
    assert (sign + digits)[|sign|..] == digits;
    if sign != "" {
      assert (sign + digits)[0] == sign[0];
    }
  }

  /** `Integer.parseInt` reads the same texts, within the 32-bit range. */
  lemma ParseIntValue(sign: string, digits: string)
    requires sign == "" || sign == "-" || sign == "+"
    requires |digits| > 0 && AllDigits(digits)
    ensures var v := SignedValue(sign, digits);
      ParseInt(sign + digits) == if IntMin <= v <= IntMax then Some(v) else None
  {
    assert (sign + digits)[|sign|..] == digits;
    if sign != "" {
      assert (sign + digits)[0] == sign[0];
    }
  }

  /** The text `String.valueOf` writes for an int is read back by `Integer.parseInt`. */
  lemma IntTextRoundTrip(n: int)
    requires IntMin <= n <= IntMax
    ensures ParseInt(LongToString(n)) == Some(n)
  {
    LongTextRoundTrip(n);
  }

  /** Every value `Integer.parseInt` accepts, `Long.parseLong` accepts too. */
  lemma IntTextIsLongText(s: string)
    requires ParseInt(s).Some?
    ensures ParseLong(s) == ParseInt(s)
  {
  }
}
