/**
 * The few pieces of PHP string handling that voucher numbering relies on:
 * rendering an integer in decimal, the `(int)` cast of a string, `str_pad`
 * with STR_PAD_LEFT and `substr($s, -k)`.
 */
module Digits {

  predicate IsDigit(c: char) {
    '0' <= c <= '9'
  }

  predicate AllDigits(s: string) {
    forall i :: 0 <= i < |s| ==> IsDigit(s[i])
  }

  function DigitChar(d: nat): (c: char)
    requires d < 10
    ensures IsDigit(c)
  {
    ('0' as int + d) as char
  }

  function DigitValue(c: char): (d: nat)
    requires IsDigit(c)
    ensures d < 10
  {
    c as int - '0' as int
  }

  /** 10 to the power k. */
  function Pow10(k: nat): (p: nat)
    ensures p >= 1
  {
    if k == 0 then 1 else 10 * Pow10(k - 1)
  }

  /**
   * How PHP turns a non-negative integer into a string: its decimal digits,
   * most significant first, with no leading zero.
   */
  function Decimal(n: nat): (s: string)
    ensures |s| >= 1 && AllDigits(s)
    ensures n >= 1 ==> s[0] != '0'
    decreases n
  {
    if n < 10 then [DigitChar(n)] else Decimal(n / 10) + [DigitChar(n % 10)]
  }

  /** The number a string of digits denotes, most significant digit first. */
  function DigitsValue(s: string): nat
    requires AllDigits(s)
  {
    if s == [] then 0 else DigitsValue(s[..|s| - 1]) * 10 + DigitValue(s[|s| - 1])
  }

  /** Length of the longest prefix of `s` made only of digits. */
  function DigitRun(s: string): (k: nat)
    ensures k <= |s| && AllDigits(s[..k])
    ensures k < |s| ==> !IsDigit(s[k])
  {
    if s == [] || !IsDigit(s[0]) then 0
    else
      var k := 1 + DigitRun(s[1..]);
      assert s[..k] == [s[0]] + s[1..][..k - 1];
      k
  }

  /**
   * PHP's `(int)` cast of a string: the value of its leading run of digits,
   * 0 when it has none.
   */
  function IntCast(s: string): nat {
    DigitsValue(s[..DigitRun(s)])
  }

  /** `substr($s, -k)`: the last `k` characters, or all of `s` when it is shorter. */
  function LastChars(s: string, k: nat): (r: string)
    ensures |r| == if |s| <= k then |s| else k
    ensures s == s[..|s| - |r|] + r
  {
    if |s| <= k then s else s[|s| - k..]
  }

  /**
   * `str_pad($s, $w, $c, STR_PAD_LEFT)`: `s` preceded by as many copies of `c`
   * as it takes to reach width `w`; a string already that wide is kept whole.
   */
  function PadLeft(s: string, w: nat, c: char): (r: string)
    ensures |r| == if |s| >= w then |s| else w
    ensures r[|r| - |s|..] == s
    ensures forall i :: 0 <= i < |r| - |s| ==> r[i] == c
  {
    if |s| >= w then s else seq(w - |s|, _ => c) + s
  }

  // ---------------------------------------------------------------------
  // Lemmas

  /** Reading back the decimal rendering of `n` gives `n`. */
  lemma {:induction false} DecimalRoundTrip(n: nat)
    ensures DigitsValue(Decimal(n)) == n
    decreases n
  {
    if n >= 10 {
      var s := Decimal(n);
      assert s[..|s| - 1] == Decimal(n / 10);
      DecimalRoundTrip(n / 10);
    }
  }

  /** A number below 10^k has at most k decimal digits, and one at or above 10^(k-1) at least k. */
  lemma {:induction false} DecimalLength(n: nat, k: nat)
    requires k >= 1
    ensures n < Pow10(k) ==> |Decimal(n)| <= k
    ensures n >= Pow10(k - 1) ==> |Decimal(n)| >= k
    decreases k
  {
    if k > 1 {
      if n >= 10 {
        DecimalLength(n / 10, k - 1);
      } else {
        assert Pow10(k - 1) >= 10 by { Pow10Grows(k - 1); }
      }
    }
  }

  lemma {:induction false} Pow10Grows(k: nat)
    requires k >= 1
    ensures Pow10(k) >= 10
  {
    if k > 1 { Pow10Grows(k - 1); }
  }

  /** Leading zeros do not change the value of a digit string. */
  lemma {:induction false} LeadingZerosIgnored(z: string, s: string)
    requires forall i :: 0 <= i < |z| ==> z[i] == '0'
    requires AllDigits(s)
    ensures AllDigits(z + s)
    ensures DigitsValue(z + s) == DigitsValue(s)
    decreases |s|
  {
    if s == [] {
      assert z + s == z;
      ZerosValue(z);
    } else {
      var t := z + s;
      assert t[..|t| - 1] == z + s[..|s| - 1];
      LeadingZerosIgnored(z, s[..|s| - 1]);
    }
  }

  lemma {:induction false} ZerosValue(z: string)
    requires forall i :: 0 <= i < |z| ==> z[i] == '0'
    ensures AllDigits(z) && DigitsValue(z) == 0
    decreases |z|
  {
    if z != [] {
      ZerosValue(z[..|z| - 1]);
    }
  }

  /** On a string of digits, the cast reads the whole string. */
  lemma {:induction false} IntCastOfDigits(s: string)
    requires AllDigits(s)
    ensures IntCast(s) == DigitsValue(s)
  {
    AllDigitsRun(s);
    assert s[..|s|] == s;
  }

  lemma {:induction false} AllDigitsRun(s: string)
    requires AllDigits(s)
    ensures DigitRun(s) == |s|
    decreases |s|
  {
    if s != [] {
      AllDigitsRun(s[1..]);
    }
  }

  /**
   * Padding the decimal rendering of `n` with zeros gives a digit string that
   * the `(int)` cast reads back as `n`; its width is exactly `w` when `n` has
   * at most `w` digits.
   */
  lemma PaddedRoundTrip(n: nat, w: nat)
    ensures AllDigits(PadLeft(Decimal(n), w, '0'))
    ensures IntCast(PadLeft(Decimal(n), w, '0')) == n
    ensures w >= 1 && n < Pow10(w) ==> |PadLeft(Decimal(n), w, '0')| == w
  {
    var s := Decimal(n);
    if w >= 1 { DecimalLength(n, w); }
    var r := PadLeft(s, w, '0');
    var z := r[..|r| - |s|];
    assert r == z + s;
    LeadingZerosIgnored(z, s);
    IntCastOfDigits(r);
    DecimalRoundTrip(n);
  }
}
