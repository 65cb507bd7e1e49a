/**
 * System.Int32 and its decimal rendering (Int32.ToString() in the current
 * culture: an optional minus sign, then the digits without leading zeros; the
 * culture does not matter for the non-negative values that reach it).
 */
module Numbers {

  /** System.Int32 */
  newtype int32 = x: int | -0x8000_0000 <= x < 0x8000_0000

  /** `\d` (ASCII) */
  predicate IsDigit(c: char) { '0' <= c <= '9' }

  function DigitChar(d: nat): (c: char)
    requires d < 10
    ensures IsDigit(c)
  {
    ('0' as int + d) as char
  }

  function DigitValue(c: char): nat
    requires IsDigit(c)
  {
    c as int - '0' as int
  }

  /** The decimal digits of n, most significant first, without leading zeros. */
  function DecimalDigits(n: nat): (r: string)
    ensures |r| > 0 && forall i :: 0 <= i < |r| ==> IsDigit(r[i])
    ensures |r| > 1 ==> r[0] != '0'
  {
    if n < 10 then [DigitChar(n)] else DecimalDigits(n / 10) + [DigitChar(n % 10)]
  }

  /** The number a string of decimal digits denotes. */
  function DecimalValue(s: string): nat
    requires forall i :: 0 <= i < |s| ==> IsDigit(s[i])
  {
    if |s| == 0 then 0 else 10 * DecimalValue(s[..|s| - 1]) + DigitValue(s[|s| - 1])
  }

  /** Reading back the digits gives the number. */
  lemma {:induction false} DecimalDigitsRoundTrip(n: nat)
    ensures DecimalValue(DecimalDigits(n)) == n
  {
    var r := DecimalDigits(n);
    if n >= 10 {
      DecimalDigitsRoundTrip(n / 10);
      assert r[..|r| - 1] == DecimalDigits(n / 10);
    }
  }

  /** 10 to the power k. */
  function Power10(k: nat): (p: nat)
    ensures p >= 1
  {
    if k == 0 then 1 else 10 * Power10(k - 1)
  }

  /** A number below 10^k has at most k digits. */
  lemma {:induction false} DecimalDigitsLength(n: nat, k: nat)
    requires n < Power10(k)
    ensures |DecimalDigits(n)| <= if k == 0 then 1 else k
  {
    if n >= 10 {
      DecimalDigitsLength(n / 10, k - 1);
    }
  }

  /** Int32.ToString(): a minus sign for negative values, then the digits; at most 11 characters. */
  function DecimalString(n: int32): (r: string)
    ensures n >= 0 ==> r == DecimalDigits(n as int)
    ensures n < 0 ==> r == "-" + DecimalDigits(-(n as int))
    ensures 0 < |r| <= 11
  {
    var m := if n < 0 then -(n as int) else n as int;
    assert Power10(10) == 10_000_000_000;
    DecimalDigitsLength(m, 10);
    if n < 0 then "-" + DecimalDigits(m) else DecimalDigits(m)
  }
}
