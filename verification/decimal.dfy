/**
 * Decimal renderings of whole numbers, as produced by `String(n)` for a
 * non-negative integer `n`, and `String.prototype.padStart`; with the
 * parser that reads such a rendering back, so that every rendering can be
 * checked against the number it came from.
 */
module Decimal {
  import opened Common

  predicate IsDigit(c: char) {
    '0' <= c <= '9'
  }

  predicate AllDigits(s: string) {
    forall i :: 0 <= i < |s| ==> IsDigit(s[i])
  }

  function DigitChar(d: nat): (c: char)
    requires d < 10
    ensures IsDigit(c)
  {
    ('0' as int + d) as char
  }

  function DigitValue(c: char): (d: nat)
    requires IsDigit(c)
    ensures d < 10
  {
    c as int - '0' as int
  }

  /** `String(n)`: the shortest decimal numeral of `n`. */
  function ToDecimal(n: nat): (s: string)
    ensures |s| >= 1 && AllDigits(s)
    ensures |s| > 1 ==> s[0] != '0'
  {
    if n < 10 then [DigitChar(n)] else ToDecimal(n / 10) + [DigitChar(n % 10)]
  }

  /** The number a string of digits denotes (leading zeros allowed). */
  function ValueOf(s: string): nat
    requires AllDigits(s)
  {
    if |s| == 0 then 0 else ValueOf(Init(s)) * 10 + DigitValue(Last(s))
  }

  /** Reading a rendering back gives the number it was rendered from. */
  lemma {:induction false} ValueOfToDecimal(n: nat)
    ensures ValueOf(ToDecimal(n)) == n
  {
    if n >= 10 {
      ValueOfToDecimal(n / 10);
      InitOfAppend(ToDecimal(n / 10), DigitChar(n % 10));
    }
  }

  /** The rendering has `k` digits exactly when `n` lies in `[10^(k-1), 10^k)`. */
  lemma {:induction false} ToDecimalLength(n: nat, k: nat)
    requires k >= 1
    ensures |ToDecimal(n)| <= k <==> n < Pow10(k)
    ensures |ToDecimal(n)| >= k <==> (k == 1 || n >= Pow10(k - 1))
  {
    if n >= 10 {
      if k > 1 {
        ToDecimalLength(n / 10, k - 1);
      } else {
        ToDecimalLength(n / 10, 1);
      }
    }
  }

  /** Numbers from 1000 to 9999 render as exactly four digits. */
  lemma FourDigits(n: nat)
    ensures 1000 <= n <= 9999 ==> |ToDecimal(n)| == 4
  {
    assert Pow10(3) == 1000 && Pow10(4) == 10000;
    ToDecimalLength(n, 4);
  }

  function Pow10(k: nat): (p: nat)
    ensures p >= 1
  {
    if k == 0 then 1 else 10 * Pow10(k - 1)
  }

  /** A run of `n` copies of `c`. */
  function Repeat(c: char, n: nat): (r: string)
    ensures |r| == n
    ensures forall i :: 0 <= i < n ==> r[i] == c
  {
    if n == 0 then [] else Repeat(c, n - 1) + [c]
  }

  /** `s.padStart(width, c)` for a one-character pad string. */
  function PadStart(s: string, width: nat, c: char): (r: string)
    ensures |r| == if |s| >= width then |s| else width
    ensures r[|r| - |s|..] == s
    ensures forall i :: 0 <= i < |r| - |s| ==> r[i] == c
  {
    if |s| >= width then s else Repeat(c, width - |s|) + s
  }

  /** Leading zeros do not change the number a digit string denotes. */
  lemma {:induction false} ValueOfLeadingZeros(z: nat, s: string)
    requires AllDigits(s)
    ensures AllDigits(Repeat('0', z) + s)
    ensures ValueOf(Repeat('0', z) + s) == ValueOf(s)
    decreases |s|
  {
    var zs := Repeat('0', z);
    if |s| == 0 {
      assert zs + s == zs;
      ZerosValue(z);
    } else {
      assert zs + s == (zs + Init(s)) + [Last(s)];
      InitOfAppend(zs + Init(s), Last(s));
      ValueOfLeadingZeros(z, Init(s));
    }
  }

  lemma {:induction false} ZerosValue(z: nat)
    ensures AllDigits(Repeat('0', z)) && ValueOf(Repeat('0', z)) == 0
  {
    if z > 0 {
      ZerosValue(z - 1);
      InitOfAppend(Repeat('0', z - 1), '0');
    }
  }

  /**
   * Zero-padding a number's rendering to `width` gives a `width`-digit string
   * (when the number fits) that still reads back as that number.
   */
  lemma PadStartZerosValue(n: nat, width: nat)
    ensures AllDigits(PadStart(ToDecimal(n), width, '0'))
    ensures ValueOf(PadStart(ToDecimal(n), width, '0')) == n
  {
    var d := ToDecimal(n);
    ValueOfToDecimal(n);
    if |d| < width {
      ValueOfLeadingZeros(width - |d|, d);
    }
  }
}
