/**
 * Payment voucher numbers `PV-YYYYMMDD-NNNN`: the date of issue followed by a
 * per-day sequence number. The next number is read off the most recent
 * voucher of the day: its last four characters, cast to an integer, plus one,
 * left-padded with zeros to four characters.
 */
module Voucher {
  import opened Common
  import opened Digits

  /** Width the sequence number is padded to. */
  const SuffixWidth: nat := 4

  /** Carbon's `format('Ymd')`: year to four digits, month and day to two. */
  function Ymd(d: Date): string {
    PadLeft(Decimal(d.year), 4, '0') + PadLeft(Decimal(d.month), 2, '0') + PadLeft(Decimal(d.day), 2, '0')
  }

  /** The voucher issued on day `d` with sequence part `suffix`. */
  function PaymentVoucher(d: Date, suffix: string): string {
    "PV-" + Ymd(d) + "-" + suffix
  }

  /** `str_pad(n, 4, '0', STR_PAD_LEFT)`. */
  function Suffix(n: nat): string {
    PadLeft(Decimal(n), SuffixWidth, '0')
  }

  /** PHP truthiness of a string. */
  predicate Truthy(s: string) {
    s != "" && s != "0"
  }

  /**
   * The sequence part of the next voucher, given the voucher of the most
   * recent row issued today (`None` when there is no such row). It is always
   * a digit string of at least four characters, and after a truthy voucher
   * its value is one more than the value of that voucher's last four
   * characters.
   */
  function NextSuffix(last: Option<string>): (r: string)
    ensures |r| >= SuffixWidth && AllDigits(r)
    ensures last.Some? && Truthy(last.value) ==> IntCast(r) == IntCast(LastChars(last.value, SuffixWidth)) + 1
    ensures !(last.Some? && Truthy(last.value)) ==> IntCast(r) == 1
  {
    if last.Some? && Truthy(last.value) then
      var n := IntCast(LastChars(last.value, SuffixWidth)) + 1;
      PaddedRoundTrip(n, SuffixWidth);
      Suffix(n)
    else
      PaddedRoundTrip(1, SuffixWidth);
      assert Suffix(1) == "0001";
      "0001"
  }

  // ---------------------------------------------------------------------
  // Lemmas

  /** The first voucher of a day carries sequence number 0001. */
  lemma FirstOfDay(d: Date)
    ensures PaymentVoucher(d, NextSuffix(None)) == "PV-" + Ymd(d) + "-0001"
    ensures NextSuffix(None) == Suffix(1)
  {
    assert Decimal(1) == "1";
  }

  /** A four-digit sequence part is the last four characters of its voucher. */
  lemma SuffixIsTail(d: Date, n: nat)
    requires n < Pow10(SuffixWidth)
    ensures |Suffix(n)| == SuffixWidth && AllDigits(Suffix(n))
    ensures LastChars(PaymentVoucher(d, Suffix(n)), SuffixWidth) == Suffix(n)
    ensures IntCast(Suffix(n)) == n
  {
    PaddedRoundTrip(n, SuffixWidth);
    var v := PaymentVoucher(d, Suffix(n));
    assert v[|v| - SuffixWidth..] == Suffix(n);
  }

  /**
   * While the day has issued fewer than 9999 vouchers, the next sequence
   * number is the previous one plus one, in four-digit form.
   */
  lemma NextAfter(d: Date, n: nat)
    requires n < 9999
    ensures NextSuffix(Some(PaymentVoucher(d, Suffix(n)))) == Suffix(n + 1)
  {
    SuffixIsTail(d, n);
    var v := PaymentVoucher(d, Suffix(n));
    VoucherParts(Ymd(d), Suffix(n));
    assert v[..3] == "PV-";
    NextFromTail(v, n);
  }

  /**
   * Past 9999 the sequence part grows to five characters; its last four,
   * "0000", read back as 0, so the number after "10000" is "0001" again and
   * the voucher repeats the day's first one.
   */
  lemma NumberingWraps(d: Date)
    ensures NextSuffix(Some(PaymentVoucher(d, Suffix(9999)))) == "10000"
    ensures NextSuffix(Some(PaymentVoucher(d, "10000"))) == "0001"
    ensures PaymentVoucher(d, NextSuffix(Some(PaymentVoucher(d, "10000")))) == PaymentVoucher(d, NextSuffix(None))
  {
    AfterLastFourDigit(d);
    AfterTenThousand(d);
    Suffix10000();
    SuffixOne();
  }

  lemma AfterLastFourDigit(d: Date)
    ensures NextSuffix(Some(PaymentVoucher(d, Suffix(9999)))) == "10000"
  {
    var n := 9999;
    SuffixIsTail(d, n);
    NextFromTail(PaymentVoucher(d, Suffix(n)), n);
    Suffix10000();
  }

  lemma AfterTenThousand(d: Date)
    ensures NextSuffix(Some(PaymentVoucher(d, "10000"))) == Suffix(1)
  {
    var w := "10000";
    PeelFirst(Ymd(d), w);
    WrapFrom(PaymentVoucher(d, w), "PV-" + Ymd(d) + "-" + w[..1], w[1..]);
  }

  /** A voucher splits after the first character of its sequence part. */
  lemma PeelFirst(y: string, w: string)
    requires |w| > 0
    ensures "PV-" + y + "-" + w == ("PV-" + y + "-" + w[..1]) + w[1..]
  {
  }

  lemma SuffixOne()
    ensures Suffix(1) == "0001"
  {
    PaddedRoundTrip(1, SuffixWidth);
  }

  /** A voucher that ends in four zeros is followed by sequence number 1. */
  lemma WrapFrom(w: string, p: string, t: string)
    requires w == p + t && |p| > 0 && p[0] == 'P'
    requires |t| == SuffixWidth && forall i :: 0 <= i < |t| ==> t[i] == '0'
    ensures NextSuffix(Some(w)) == Suffix(1)
  {
    assert LastChars(w, SuffixWidth) == t;
    ZerosValue(t);
    IntCastOfDigits(t);
    NextFromTail(w, 0);
  }

  /** The next sequence part after a voucher whose last four characters read as `n`. */
  lemma NextFromTail(v: string, n: nat)
    requires |v| > 0 && v[0] == 'P'
    requires IntCast(LastChars(v, SuffixWidth)) == n
    ensures NextSuffix(Some(v)) == Suffix(n + 1)
  {
  }

  lemma Suffix10000()
    ensures Suffix(10000) == "10000"
  {
    assert Decimal(1) == "1";
    assert Decimal(10) == Decimal(1) + "0";
    assert Decimal(100) == Decimal(10) + "0";
    assert Decimal(1000) == Decimal(100) + "0";
    assert Decimal(10000) == Decimal(1000) + "0";
  }

  /** Three fixed-width digit fields laid side by side read back one by one. */
  lemma DateFields(y: string, m: string, dd: string)
    requires |y| == 4 && |m| == 2 && |dd| == 2
    requires AllDigits(y) && AllDigits(m) && AllDigits(dd)
    ensures |y + m + dd| == 8 && AllDigits(y + m + dd)
    ensures (y + m + dd)[..4] == y && (y + m + dd)[4..6] == m && (y + m + dd)[6..] == dd
  {
  }

  /** The date part of a voucher: eight digits for a date of a four-digit year. */
  lemma YmdShape(d: Date)
    requires ValidDate(d) && d.year < 10000
    ensures |Ymd(d)| == 8 && AllDigits(Ymd(d))
    ensures IntCast(Ymd(d)[..4]) == d.year
    ensures IntCast(Ymd(d)[4..6]) == d.month
    ensures IntCast(Ymd(d)[6..]) == d.day
  {
    assert Pow10(2) == 100 && Pow10(4) == 10000;
    PaddedRoundTrip(d.year, 4);
    PaddedRoundTrip(d.month, 2);
    PaddedRoundTrip(d.day, 2);
    DateFields(PadLeft(Decimal(d.year), 4, '0'), PadLeft(Decimal(d.month), 2, '0'), PadLeft(Decimal(d.day), 2, '0'));
  }

  /** Where the date and the sequence part sit inside a voucher. */
  lemma VoucherParts(y: string, t: string)
    ensures ("PV-" + y + "-" + t)[..3] == "PV-"
    ensures ("PV-" + y + "-" + t)[3..3 + |y|] == y
    ensures ("PV-" + y + "-" + t)[3 + |y|] == '-'
    ensures ("PV-" + y + "-" + t)[4 + |y|..] == t
  {
  }

  /**
   * A voucher of a four-digit year and a four-digit sequence number is 16
   * characters: "PV-", the eight date digits, "-" and the four sequence
   * digits.
   */
  lemma VoucherShape(d: Date, n: nat)
    requires ValidDate(d) && d.year < 10000 && n < Pow10(SuffixWidth)
    ensures |PaymentVoucher(d, Suffix(n))| == 16
    ensures PaymentVoucher(d, Suffix(n))[..3] == "PV-"
    ensures PaymentVoucher(d, Suffix(n))[3..11] == Ymd(d)
    ensures PaymentVoucher(d, Suffix(n))[11] == '-'
    ensures PaymentVoucher(d, Suffix(n))[12..] == Suffix(n)
  {
    YmdShape(d);
    SuffixIsTail(d, n);
    VoucherParts(Ymd(d), Suffix(n));
  }

  /**
   * Within four-digit years and sequence numbers, a voucher determines its
   * date and its number: two vouchers are equal only when both agree.
   */
  lemma VoucherInjective(d1: Date, n1: nat, d2: Date, n2: nat)
    requires ValidDate(d1) && d1.year < 10000 && n1 < Pow10(SuffixWidth)
    requires ValidDate(d2) && d2.year < 10000 && n2 < Pow10(SuffixWidth)
    requires PaymentVoucher(d1, Suffix(n1)) == PaymentVoucher(d2, Suffix(n2))
    ensures d1 == d2 && n1 == n2
  {
    YmdShape(d1);
    YmdShape(d2);
    SuffixIsTail(d1, n1);
    SuffixIsTail(d2, n2);
    VoucherParts(Ymd(d1), Suffix(n1));
    VoucherParts(Ymd(d2), Suffix(n2));
    assert Ymd(d1) == Ymd(d2);
    assert Suffix(n1) == Suffix(n2);
  }
}
