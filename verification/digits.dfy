/** Decimal rendering of non-negative integers, as the .NET formatter
    produces it for `int.ToString()` and the zero-padded `D<n>` / `yyyy`
    specifiers, together with the reading that inverts it. */
module Digits {

  predicate IsDigit(c: char) {
    '0' <= c <= '9'
  }

  predicate AllDigits(s: string) {
    forall i :: 0 <= i < |s| ==> IsDigit(s[i])
  }

  function DigitValue(c: char): nat
    requires IsDigit(c)
  {
    c as int - '0' as int
  }

  function DigitChar(d: nat): (c: char)
    requires d < 10
    ensures IsDigit(c) && DigitValue(c) == d
  {
    ('0' as int + d) as char
  }

  /** The number a string of decimal digits denotes, most significant digit
      first; the empty string denotes 0. */
  function Value(s: string): nat
    requires AllDigits(s)
  {
    if |s| == 0 then 0 else 10 * Value(s[..|s| - 1]) + DigitValue(s[|s| - 1])
  }

  function Pow10(k: nat): (p: nat)
    ensures p >= 1
  {
    if k == 0 then 1 else 10 * Pow10(k - 1)
  }

  function Max(a: int, b: int): int {
    if a >= b then a else b
  }

  /** The shortest decimal rendering of `n`: it reads back as `n` and has
      no leading zero unless `n` is zero. */
  function Decimal(n: nat): (r: string)
    ensures 1 <= |r| && AllDigits(r)
    ensures Value(r) == n
    ensures r[0] == '0' ==> n == 0
  {
    if n < 10 then [DigitChar(n)] else Decimal(n / 10) + [DigitChar(n % 10)]
  }

  /** Left-pads `s` with '0' to at least `width` characters; longer strings
      are kept whole. */
  function ZeroPad(s: string, width: nat): (r: string)
    ensures |r| == Max(|s|, width)
    ensures r[|r| - |s|..] == s
    ensures forall i :: 0 <= i < |r| - |s| ==> r[i] == '0'
  {
    if |s| >= width then s else seq(width - |s|, _ => '0') + s
  }

  lemma DigitsConcat(a: string, b: string)
    requires AllDigits(a) && AllDigits(b)
    ensures AllDigits(a + b)
  {
  }

  /** A number below 10^k needs at most k digits. */
  lemma {:induction false} DecimalLength(n: nat, k: nat)
    requires n < Pow10(k)
    ensures |Decimal(n)| <= k || (n == 0 && k == 0)
  {
    if n >= 10 {
      assert k != 0;
      DecimalLength(n / 10, k - 1);
    }
  }

  /** Leading zeros do not change the value of a digit string. */
  lemma {:induction false} LeadingZeros(z: string, s: string)
    requires forall i :: 0 <= i < |z| ==> z[i] == '0'
    requires AllDigits(s)
    ensures AllDigits(z + s)
    ensures Value(z + s) == Value(s)
  {
    if |s| == 0 {
      assert z + s == z;
      ZerosAreZero(z);
    } else {
      var t := s[..|s| - 1];
      LeadingZeros(z, t);
      assert (z + s)[..|z + s| - 1] == z + t;
    }
  }

  lemma {:induction false} ZerosAreZero(z: string)
    requires forall i :: 0 <= i < |z| ==> z[i] == '0'
    ensures AllDigits(z) && Value(z) == 0
  {
    if |z| > 0 {
      ZerosAreZero(z[..|z| - 1]);
    }
  }

  /** Zero padding keeps the digits and their value. */
  lemma PaddedValue(n: nat, width: nat)
    ensures AllDigits(ZeroPad(Decimal(n), width))
    ensures Value(ZeroPad(Decimal(n), width)) == n
  {
    var s := Decimal(n);
    if |s| < width {
      LeadingZeros(seq(width - |s|, _ => '0'), s);
    }
  }

  /** A padded rendering of a number below 10^width is exactly `width` long. */
  lemma PaddedLength(n: nat, width: nat)
    requires n < Pow10(width)
    ensures |ZeroPad(Decimal(n), width)| == Max(1, width)
  {
    DecimalLength(n, width);
  }
}
