/** The "Y years, M months" rendering of a month count shown next to each
    scenario's stop month. */
module Duration {
  import opened Wrappers

  /** A month count split into whole years and the months left over. */
  datatype YearsMonths = YearsMonths(years: int, months: nat)

  /** Floor division and remainder by 12; for a positive divisor the floor
      quotient and the non-negative remainder agree with Dafny's / and %. */
  function DurationParts(totalMonths: int): (p: YearsMonths)
    ensures 0 <= p.months < 12
    ensures 12 * p.years + p.months == totalMonths
  {
    YearsMonths(totalMonths / 12, totalMonths % 12)
  }

  /** The split is the only one with fewer than 12 left-over months: any
      years and months that add back up to the count are the ones returned. */
  lemma DurationPartsUnique(totalMonths: int, years: int, months: nat)
    requires months < 12
    requires 12 * years + months == totalMonths
    ensures DurationParts(totalMonths) == YearsMonths(years, months)
  {
  }

  // ---------------------------------------------------------------------
  // Decimal rendering of integers, as Python's str() of an int
  // ---------------------------------------------------------------------

  predicate IsDigit(ch: char) {
    '0' <= ch <= '9'
  }

  predicate AllDigits(s: string) {
    forall i :: 0 <= i < |s| ==> IsDigit(s[i])
  }

  function DigitChar(d: nat): (ch: char)
    requires d < 10
    ensures IsDigit(ch)
  {
    (48 + d) as char
  }

  function DigitValue(ch: char): (d: nat)
    requires IsDigit(ch)
    ensures d < 10
  {
    ch as int - 48
  }

  /** The decimal digits of n, most significant first, with no leading zero. */
  function NatToDecimal(n: nat): (s: string)
    ensures |s| >= 1 && AllDigits(s)
    ensures s[0] == '0' <==> n == 0
  {
    if n < 10 then [DigitChar(n)] else NatToDecimal(n / 10) + [DigitChar(n % 10)]
  }

  /** The number a string of decimal digits denotes. */
  function DecimalValue(s: string): nat
    requires AllDigits(s)
  {
    if |s| == 0 then 0 else DecimalValue(s[..|s| - 1]) * 10 + DigitValue(s[|s| - 1])
  }

  /** Reading back the digits of n gives n. */
  lemma {:induction false} NatToDecimalRoundTrip(n: nat)
    ensures DecimalValue(NatToDecimal(n)) == n
  {
    if n >= 10 {
      NatToDecimalRoundTrip(n / 10);
      var s := NatToDecimal(n);
      assert s[..|s| - 1] == NatToDecimal(n / 10);
    }
  }

  /** An integer as str() writes it: a minus sign before the digits of its
      magnitude when negative. */
  function IntToDecimal(i: int): (s: string)
    ensures |s| >= 1
    ensures forall k :: 0 <= k < |s| ==> s[k] != ' '
  {
    if i < 0 then "-" + NatToDecimal(-i) else NatToDecimal(i)
  }

  /** Reads an optionally negative integer literal; None for anything else. */
  function ParseInt(s: string): Option<int> {
    if |s| > 1 && s[0] == '-' && AllDigits(s[1..]) then Some(-(DecimalValue(s[1..]) as int))
    else if |s| > 0 && AllDigits(s) then Some(DecimalValue(s))
    else None
  }

  lemma IntToDecimalRoundTrip(i: int)
    ensures ParseInt(IntToDecimal(i)) == Some(i)
  {
    var s := IntToDecimal(i);
    if i < 0 {
      assert s[1..] == NatToDecimal(-i);
      NatToDecimalRoundTrip(-i);
    } else {
      assert IsDigit(s[0]);
      NatToDecimalRoundTrip(i);
    }
  }

  // ---------------------------------------------------------------------
  // The formatted duration and its inverse
  // ---------------------------------------------------------------------

  const YearsText: string := " years, "
  const MonthsText: string := " months"

  /** "{years} years, {months} months" for the split of the month count. */
  function FormatDuration(totalMonths: int): string {
    var p := DurationParts(totalMonths);
    IntToDecimal(p.years) + YearsText + NatToDecimal(p.months) + MonthsText
  }

  /** Position of the first space in s, or |s| when there is none. */
  function SpaceIndex(s: string): (i: nat)
    ensures i <= |s|
  {
    if |s| == 0 || s[0] == ' ' then 0 else 1 + SpaceIndex(s[1..])
  }

  lemma {:induction false} SpaceIndexAfter(a: string, t: string)
    requires forall k :: 0 <= k < |a| ==> a[k] != ' '
    requires |t| > 0 && t[0] == ' '
    ensures SpaceIndex(a + t) == |a|
  {
    if |a| > 0 {
      assert (a + t)[1..] == a[1..] + t;
      SpaceIndexAfter(a[1..], t);
    } else {
      assert a + t == t;
    }
  }

  /** Splits "{head} years, {middle} months" into head and middle, where
      head runs up to the first space; None when the text has another shape. */
  function SplitDuration(s: string): Option<(string, string)> {
    var i := SpaceIndex(s);
    var tail := s[i..];
    if |tail| < |YearsText| + |MonthsText| then None
    else if tail[..|YearsText|] != YearsText || tail[|tail| - |MonthsText|..] != MonthsText then None
    else Some((s[..i], tail[|YearsText|..|tail| - |MonthsText|]))
  }

  lemma SplitDurationOf(a: string, b: string)
    requires forall k :: 0 <= k < |a| ==> a[k] != ' '
    ensures SplitDuration(a + YearsText + b + MonthsText) == Some((a, b))
  {
    var t := YearsText + b + MonthsText;
    var s := a + YearsText + b + MonthsText;
    assert s == a + t;
    SpaceIndexAfter(a, t);
    assert s[..|a|] == a && s[|a|..] == t;
    assert t[..|YearsText|] == YearsText;
    assert t[|t| - |MonthsText|..] == MonthsText;
    assert t[|YearsText|..|t| - |MonthsText|] == b;
  }

  /** Reads a formatted duration back into a month count; None for text
      that is not of the form "{years} years, {months} months" with fewer
      than 12 months. */
  function ReadDuration(s: string): Option<int> {
    match SplitDuration(s)
    case None => None
    case Some((head, middle)) =>
      match ParseInt(head)
      case None => None
      case Some(years) =>
        if |middle| > 0 && AllDigits(middle) && DecimalValue(middle) < 12
        then Some(12 * years + DecimalValue(middle))
        else None
  }

  /** The formatted text determines the month count: reading it back gives
      the count it was made from. */
  lemma DurationRoundTrip(totalMonths: int)
    ensures ReadDuration(FormatDuration(totalMonths)) == Some(totalMonths)
  {
    var p := DurationParts(totalMonths);
    var a, b := IntToDecimal(p.years), NatToDecimal(p.months);
    SplitDurationOf(a, b);
    IntToDecimalRoundTrip(p.years);
    NatToDecimalRoundTrip(p.months);
  }

  /** Two different month counts never render the same text. */
  lemma FormatDurationInjective(m1: int, m2: int)
    requires FormatDuration(m1) == FormatDuration(m2)
    ensures m1 == m2
  {
    DurationRoundTrip(m1);
    DurationRoundTrip(m2);
  }

  /** Worked values: a stop month of 0, 13 and 360 splits into years and months. */
  lemma DurationPartsExamples()
    ensures DurationParts(0) == YearsMonths(0, 0)
    ensures DurationParts(13) == YearsMonths(1, 1)
    ensures DurationParts(360) == YearsMonths(30, 0)
  {
  }

  /** Worked value: a stop month of 0, reached at once, is shown as zero
      years and zero months. */
  lemma FormatDurationOfZero()
    ensures FormatDuration(0) == "0 years, 0 months"
  {
    assert DurationParts(0) == YearsMonths(0, 0);
  }

  /** Worked values: the text shown for a stop month of 13 and of 360. */
  lemma FormatDurationExamples()
    ensures FormatDuration(13) == "1 years, 1 months"
    ensures FormatDuration(360) == "30 years, 0 months"
  {
    assert DurationParts(13) == YearsMonths(1, 1);
    assert DurationParts(360) == YearsMonths(30, 0);
    assert NatToDecimal(30) == NatToDecimal(3) + [DigitChar(0)];
    assert IntToDecimal(30) == "30";
  }
}
