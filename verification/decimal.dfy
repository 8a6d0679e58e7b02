/** Decimal rendering of integers (Go's `%d` / `%v` on integer kinds) and the
    reading of decimal text by `strconv.ParseInt(s, 10, 64)`. */
module Decimal {

  const MaxInt64: int := 0x7FFF_FFFF_FFFF_FFFF
  const MinInt64: int := -0x8000_0000_0000_0000
  const MaxUint64: int := 0xFFFF_FFFF_FFFF_FFFF

  predicate IsDigit(c: char) {
    '0' <= c <= '9'
  }

  predicate AllDigits(s: string) {
    forall i :: 0 <= i < |s| ==> IsDigit(s[i])
  }

  function DigitChar(d: nat): (c: char)
    requires d < 10
    ensures IsDigit(c) && c as int - '0' as int == d
  {
    ('0' as int + d) as char
  }

  function DigitValue(c: char): nat
    requires IsDigit(c)
  {
    c as int - '0' as int
  }

  /** Canonical decimal text of a natural number: digits only, and no
      leading zero unless the number is zero itself. */
  function NatToDecimal(n: nat): (s: string)
    ensures |s| >= 1 && AllDigits(s)
    ensures s[0] == '0' <==> n == 0
    decreases n
  {
    if n < 10 then [DigitChar(n)] else NatToDecimal(n / 10) + [DigitChar(n % 10)]
  }

  /** Go's `%d`: a minus sign followed by the magnitude for negative values. */
  function IntToDecimal(n: int): string {
    if n < 0 then "-" + NatToDecimal(-n) else NatToDecimal(n)
  }

  /** The number a string of decimal digits denotes (empty text denotes 0). */
  function DigitsValue(s: string): nat
    requires AllDigits(s)
  {
    if |s| == 0 then 0 else DigitsValue(s[..|s| - 1]) * 10 + DigitValue(s[|s| - 1])
  }

  /** Reading back the decimal text of `n` gives `n`. */
  lemma {:induction false} DecimalRoundTrip(n: nat)
    ensures DigitsValue(NatToDecimal(n)) == n
  {
    if n >= 10 {
      var s := NatToDecimal(n);
      assert s[..|s| - 1] == NatToDecimal(n / 10);
      DecimalRoundTrip(n / 10);
    }
  }

  /** Number of leading decimal digits of `s`. */
  function LeadingDigits(s: string): (k: nat)
    ensures k <= |s| && AllDigits(s[..k])
    ensures k < |s| ==> !IsDigit(s[k])
  {
    if |s| == 0 || !IsDigit(s[0]) then 0
    else
      var k := 1 + LeadingDigits(s[1..]);
      assert s[..k] == [s[0]] + s[1..][..k - 1];
      k
  }

  /** A digit string followed by text that does not start with a digit has
      exactly that many leading digits. */
  lemma {:induction false} LeadingDigitsOfConcat(d: string, rest: string)
    requires AllDigits(d)
    requires |rest| > 0 ==> !IsDigit(rest[0])
    ensures LeadingDigits(d + rest) == |d|
  {
    if |d| == 0 {
      assert d + rest == rest;
    } else {
      assert (d + rest)[1..] == d[1..] + rest;
      LeadingDigitsOfConcat(d[1..], rest);
    }
  }

  /** `strconv.ParseInt(s, 10, 64)` with its error discarded, as the caller
      does: an optional sign, then decimal digits. Text that is not a
      number reads as 0; a magnitude beyond the 64-bit range reads as the
      nearest bound, and that overflow is reported even when a stray
      character follows, because Go's scan stops at the first overflow. */
  function GoParseInt(s: string): (r: int)
    ensures MinInt64 <= r <= MaxInt64
    ensures |s| == 0 ==> r == 0
  {
    if |s| == 0 then 0
    else
      var neg := s[0] == '-';
      var t := if s[0] == '+' || s[0] == '-' then s[1..] else s;
      var k := LeadingDigits(t);
      var v: int := DigitsValue(t[..k]);
      if v > MaxUint64 then (if neg then MinInt64 else MaxInt64)
      else if k < |t| || |t| == 0 then 0
      else if !neg && v > MaxInt64 then MaxInt64
      else if neg && v > -MinInt64 then MinInt64
      else if neg then -v
      else v
  }

  /** Every 64-bit integer survives `%d` followed by `ParseInt`. */
  lemma ParseIntRoundTrip(n: int)
    requires MinInt64 <= n <= MaxInt64
    ensures GoParseInt(IntToDecimal(n)) == n
  {
    var m: nat := if n < 0 then -n else n;
    var d := NatToDecimal(m);
    DecimalRoundTrip(m);
    LeadingDigitsOfConcat(d, "");
    assert d + "" == d;
    assert d[..|d|] == d;
    if n < 0 {
      assert IntToDecimal(n)[1..] == d;
    }
  }
}
