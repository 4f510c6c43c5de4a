/**
 * The calendar decomposition of a parsed timestamp, as pandas' `.dt`
 * accessor hands it over (year, month, day, hour, day of the week, ISO
 * week), and the string forms `extract_from_date` builds from it:
 * `strftime('%Y%m')`, `strftime('%Y%m%d')`, `month_name()` and `day_name()`.
 */
module Timestamps {

  /** The fields of a parsed timestamp; the calendar arithmetic behind them is pandas'. */
  datatype DateTime = DateTime(year: int, month: int, day: int, hour: int, dayOfWeek: int, week: int)
  {
    /** Field ranges of a pandas timestamp (years 1677 to 2262, Monday is day 0). */
    predicate Valid()
    {
      && 1677 <= year <= 2262
      && 1 <= month <= 12
      && 1 <= day <= 31
      && 0 <= hour <= 23
      && 0 <= dayOfWeek <= 6
      && 1 <= week <= 53
    }
  }

  /** 1970-01-01 00:00 was a Thursday in ISO week 1. */
  type Timestamp = t: DateTime | t.Valid() witness DateTime(1970, 1, 1, 0, 3, 1)

  predicate IsDigit(c: char)
  {
    '0' <= c <= '9'
  }

  predicate AllDigits(s: string)
  {
    forall i :: 0 <= i < |s| ==> IsDigit(s[i])
  }

  function DigitChar(d: nat): (c: char)
    requires d < 10
    ensures IsDigit(c)
  {
    ('0' as int + d) as char
  }

  function DigitValue(c: char): (d: nat)
    requires IsDigit(c)
    ensures d < 10
  {
    c as int - '0' as int
  }

  function Pow10(k: nat): (p: nat)
    ensures p >= 1
  {
    if k == 0 then 1 else 10 * Pow10(k - 1)
  }

  /** The decimal digits of n, most significant first, with no leading zero ("0" for zero). */
  function Digits(n: nat): (s: string)
    ensures |s| >= 1 && AllDigits(s)
  {
    if n < 10 then [DigitChar(n)] else Digits(n / 10) + [DigitChar(n % 10)]
  }

  function Zeros(k: nat): (s: string)
    ensures |s| == k && AllDigits(s)
  {
    seq(k, _ => '0')
  }

  /** n in decimal, padded on the left with zeros to width characters: strftime's %Y (width 4), %m and %d (width 2). */
  function ZeroPad(n: nat, width: nat): (s: string)
    ensures AllDigits(s) && |s| >= width
  {
    var d := Digits(n);
    if |d| < width then Zeros(width - |d|) + d else d
  }

  /** The number a string of decimal digits denotes. */
  function Value(s: string): nat
    requires AllDigits(s)
  {
    if s == [] then 0 else Value(s[..|s| - 1]) * 10 + DigitValue(s[|s| - 1])
  }

  lemma {:induction false} ValueOfDigits(n: nat)
    ensures Value(Digits(n)) == n
  {
    if n >= 10 {
      var s := Digits(n);
      assert s[..|s| - 1] == Digits(n / 10);
      ValueOfDigits(n / 10);
    }
  }

  lemma {:induction false} ValueOfZeros(k: nat)
    ensures Value(Zeros(k)) == 0
  {
    if k > 0 {
      assert Zeros(k)[..k - 1] == Zeros(k - 1);
      ValueOfZeros(k - 1);
    }
  }

  /** Leading zeros do not change the number a digit string denotes. */
  lemma {:induction false} ValueIgnoresLeadingZeros(k: nat, s: string)
    requires AllDigits(s)
    ensures AllDigits(Zeros(k) + s) && Value(Zeros(k) + s) == Value(s)
  {
    var z := Zeros(k) + s;
    if s == [] {
      assert z == Zeros(k);
      ValueOfZeros(k);
    } else {
      assert z[..|z| - 1] == Zeros(k) + s[..|s| - 1];
      ValueIgnoresLeadingZeros(k, s[..|s| - 1]);
    }
  }

  /** A number below 10^width needs at most width digits. */
  lemma {:induction false} DigitsLength(n: nat, width: nat)
    requires 1 <= width && n < Pow10(width)
    ensures |Digits(n)| <= width
  {
    if n >= 10 {
      assert width > 1;
      DigitsLength(n / 10, width - 1);
    }
  }

  /** Reading a zero-padded field back gives the number; a number below 10^width fills exactly width characters. */
  lemma ZeroPadRoundTrip(n: nat, width: nat)
    ensures Value(ZeroPad(n, width)) == n
    ensures 1 <= width && n < Pow10(width) ==> |ZeroPad(n, width)| == width
  {
    var d := Digits(n);
    ValueOfDigits(n);
    if |d| < width {
      ValueIgnoresLeadingZeros(width - |d|, d);
    }
    if 1 <= width && n < Pow10(width) {
      DigitsLength(n, width);
    }
  }

  /** `strftime('%Y%m')`. */
  function YearMonth(t: Timestamp): string
  {
    ZeroPad(t.year, 4) + ZeroPad(t.month, 2)
  }

  /** `strftime('%Y%m%d')`. */
  function DateStamp(t: Timestamp): string
  {
    ZeroPad(t.year, 4) + ZeroPad(t.month, 2) + ZeroPad(t.day, 2)
  }

  lemma FieldWidths(t: Timestamp)
    ensures |ZeroPad(t.year, 4)| == 4 && |ZeroPad(t.month, 2)| == 2 && |ZeroPad(t.day, 2)| == 2
  {
    assert Pow10(4) == 10000 && Pow10(2) == 100;
    ZeroPadRoundTrip(t.year, 4);
    ZeroPadRoundTrip(t.month, 2);
    ZeroPadRoundTrip(t.day, 2);
  }

  /** The `%Y%m` string is six characters long and is the first six characters of the `%Y%m%d` string. */
  lemma YearMonthIsDatePrefix(t: Timestamp)
    ensures |YearMonth(t)| == 6 && |DateStamp(t)| == 8
    ensures YearMonth(t) == DateStamp(t)[..6]
  {
    FieldWidths(t);
  }

  /** The `%Y%m%d` string is eight digits from which year, month and day read back. */
  lemma DateStampRoundTrip(t: Timestamp)
    ensures var s := DateStamp(t);
      && |s| == 8 && AllDigits(s)
      && Value(s[..4]) == t.year && Value(s[4..6]) == t.month && Value(s[6..]) == t.day
  {
    FieldWidths(t);
    var s := DateStamp(t);
    assert s[..4] == ZeroPad(t.year, 4);
    assert s[4..6] == ZeroPad(t.month, 2);
    assert s[6..] == ZeroPad(t.day, 2);
    ZeroPadRoundTrip(t.year, 4);
    ZeroPadRoundTrip(t.month, 2);
    ZeroPadRoundTrip(t.day, 2);
  }

  /** `month_name()` in pandas' default English locale. */
  function MonthName(month: int): string
    requires 1 <= month <= 12
  {
    ["January", "February", "March", "April", "May", "June", "July",
     "August", "September", "October", "November", "December"][month - 1]
  }

  /** `day_name()` in pandas' default English locale, Monday being day 0. */
  function DayName(dayOfWeek: int): string
    requires 0 <= dayOfWeek <= 6
  {
    ["Monday", "Tuesday", "Wednesday", "Thursday", "Friday", "Saturday", "Sunday"][dayOfWeek]
  }
}
