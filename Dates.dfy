/**
 * Calendar dates as CPython's `datetime` module numbers them: the proleptic
 * Gregorian calendar over the years 1 to 9999, with day number 1 for
 * 0001-01-01 (`date.toordinal()`), the weekday names `strftime("%A")` gives
 * in the C locale, and the text forms `strftime("%Y-%m-%d")` writes and
 * `strptime(text, "%Y-%m-%d")` accepts (the extended calendar-date form of
 * ISO 8601, section 4.1.2.2, except that the month and the day may be
 * unpadded).
 */
module Dates {
  import opened Outcomes
  import opened PyText

  const MaxYear := 9999

  /** `date(9999, 12, 31).toordinal()`: the last day a `datetime` can hold. */
  const MaxOrdinal := 3652059

  /** A day number some `datetime` stands for. */
  predicate IsOrdinal(n: int) { 1 <= n <= MaxOrdinal }

  /** The day numbers themselves. */
  type Day = n: int | IsOrdinal(n) witness 1

  datatype Date = Date(year: int, month: int, day: int)

  predicate IsLeapYear(y: int) { y % 4 == 0 && (y % 100 != 0 || y % 400 == 0) }

  function YearLength(y: int): int { if IsLeapYear(y) then 366 else 365 }

  function DaysInMonth(y: int, m: int): (n: int)
    requires 1 <= m <= 12
    ensures 28 <= n <= 31
  {
    if m == 2 then (if IsLeapYear(y) then 29 else 28)
    else if m == 4 || m == 6 || m == 9 || m == 11 then 30
    else 31
  }

  /** Days of year `y` before month `m`; month 13 stands for the end of the year. */
  function DaysBeforeMonth(y: int, m: int): int
    requires 1 <= m <= 13
  {
    var table := [0, 31, 59, 90, 120, 151, 181, 212, 243, 273, 304, 334, 365];
    table[m - 1] + (if m > 2 && IsLeapYear(y) then 1 else 0)
  }

  lemma MonthStep(y: int, m: int)
    requires 1 <= m <= 12
    ensures DaysBeforeMonth(y, m + 1) == DaysBeforeMonth(y, m) + DaysInMonth(y, m)
    ensures DaysBeforeMonth(y, 1) == 0 && DaysBeforeMonth(y, 13) == YearLength(y)
  {
  }

  /** Days in the years before year `y`, by the leap-year rule. */
  function DaysBeforeYear(y: int): int
    requires y >= 1
  {
    var p := y - 1;
    p * 365 + p / 4 - p / 100 + p / 400
  }

  lemma YearStep(y: int)
    requires y >= 1
    ensures DaysBeforeYear(y + 1) == DaysBeforeYear(y) + YearLength(y)
  {
    Quarters(y);
    Centuries(y);
    FourCenturies(y);
  }

  lemma Quarters(y: int)
    ensures y / 4 == (y - 1) / 4 + (if y % 4 == 0 then 1 else 0)
  {
  }

  lemma Centuries(y: int)
    ensures y / 100 == (y - 1) / 100 + (if y % 100 == 0 then 1 else 0)
    ensures y % 100 == 0 ==> y % 4 == 0
  {
  }

  lemma FourCenturies(y: int)
    ensures y / 400 == (y - 1) / 400 + (if y % 400 == 0 then 1 else 0)
    ensures y % 400 == 0 ==> y % 100 == 0
  {
  }

  /** Each year holds at least 365 days, so `DaysBeforeYear` is strictly increasing. */
  lemma {:induction false} YearsIncrease(a: int, b: int)
    requires 1 <= a <= b
    ensures DaysBeforeYear(a) + 365 * (b - a) <= DaysBeforeYear(b)
    decreases b - a
  {
    if a < b {
      YearStep(a);
      YearsIncrease(a + 1, b);
    }
  }

  predicate IsValidDate(d: Date)
  {
    1 <= d.year <= MaxYear && 1 <= d.month <= 12 && 1 <= d.day <= DaysInMonth(d.year, d.month)
  }

  /** `date(y, m, d).toordinal()`. */
  function Ordinal(d: Date): (n: int)
    requires IsValidDate(d)
    ensures IsOrdinal(n)
  {
    MonthStep(d.year, d.month);
    YearStep(d.year);
    YearsIncrease(d.year + 1, MaxYear + 1);
    DaysBeforeYear(d.year) + DaysBeforeMonth(d.year, d.month) + d.day
  }

  /** The year holding day `n`, searching upwards from year `y`. */
  function YearOf(n: int, y: int): (r: int)
    requires y >= 1 && DaysBeforeYear(y) < n
    ensures r >= y && DaysBeforeYear(r) < n <= DaysBeforeYear(r + 1)
    decreases n - DaysBeforeYear(y)
  {
    YearStep(y);
    if n <= DaysBeforeYear(y + 1) then y else YearOf(n, y + 1)
  }

  /** The month holding day `doy` of year `y`, searching upwards from month `m`. */
  function MonthOf(y: int, doy: int, m: int): (r: int)
    requires 1 <= m <= 12 && DaysBeforeMonth(y, m) < doy <= DaysBeforeMonth(y, 13)
    ensures m <= r <= 12 && DaysBeforeMonth(y, r) < doy <= DaysBeforeMonth(y, r + 1)
    decreases 12 - m
  {
    if doy <= DaysBeforeMonth(y, m + 1) then m else MonthOf(y, doy, m + 1)
  }

  /** `date.fromordinal(n)`: the calendar date of day `n`. */
  function FromOrdinal(n: int): (d: Date)
    requires IsOrdinal(n)
    ensures IsValidDate(d)
  {
    var y := YearOf(n, 1);
    assert y <= MaxYear by {
      if y > MaxYear { YearsIncrease(MaxYear + 1, y); }
    }
    YearStep(y);
    MonthStep(y, 1);
    var doy := n - DaysBeforeYear(y);
    var m := MonthOf(y, doy, 1);
    MonthStep(y, m);
    Date(y, m, doy - DaysBeforeMonth(y, m))
  }

  /** `date.fromordinal(n).toordinal() == n`. */
  lemma OrdinalFromOrdinal(n: int)
    requires IsOrdinal(n)
    ensures Ordinal(FromOrdinal(n)) == n
  {
    var y := YearOf(n, 1);
    YearStep(y);
    MonthStep(y, 1);
    var m := MonthOf(y, n - DaysBeforeYear(y), 1);
    MonthStep(y, m);
  }

  /** Only one year's span of days holds a given day. */
  lemma YearUnique(n: int, a: int, b: int)
    requires 1 <= a && DaysBeforeYear(a) < n <= DaysBeforeYear(a + 1)
    requires 1 <= b && DaysBeforeYear(b) < n <= DaysBeforeYear(b + 1)
    ensures a == b
  {
    if a < b { YearsIncrease(a + 1, b); }
    if b < a { YearsIncrease(b + 1, a); }
  }

  /** Months of a year start on strictly increasing days. */
  lemma {:induction false} MonthsIncrease(y: int, a: int, b: int)
    requires 1 <= a <= b <= 13
    ensures DaysBeforeMonth(y, a) + 28 * (b - a) <= DaysBeforeMonth(y, b)
    decreases b - a
  {
    if a < b {
      MonthStep(y, a);
      MonthsIncrease(y, a + 1, b);
    }
  }

  /** Only one month's span of days holds a given day of the year. */
  lemma MonthUnique(y: int, doy: int, a: int, b: int)
    requires 1 <= a <= 12 && DaysBeforeMonth(y, a) < doy <= DaysBeforeMonth(y, a + 1)
    requires 1 <= b <= 12 && DaysBeforeMonth(y, b) < doy <= DaysBeforeMonth(y, b + 1)
    ensures a == b
  {
    if a < b { MonthsIncrease(y, a + 1, b); }
    if b < a { MonthsIncrease(y, b + 1, a); }
  }

  /** The day number of a date lies within that date's year. */
  lemma OrdinalInYear(d: Date)
    requires IsValidDate(d)
    ensures DaysBeforeYear(d.year) < Ordinal(d) <= DaysBeforeYear(d.year + 1)
    ensures Ordinal(d) - DaysBeforeYear(d.year) == DaysBeforeMonth(d.year, d.month) + d.day
  {
    MonthStep(d.year, d.month);
    MonthsIncrease(d.year, d.month + 1, 13);
    YearStep(d.year);
  }

  /** Distinct dates have distinct day numbers. */
  lemma OrdinalInjective(d: Date, e: Date)
    requires IsValidDate(d) && IsValidDate(e) && Ordinal(d) == Ordinal(e)
    ensures d == e
  {
    var n := Ordinal(d);
    OrdinalInYear(d);
    OrdinalInYear(e);
    YearUnique(n, d.year, e.year);
    var doy := n - DaysBeforeYear(d.year);
    MonthStep(d.year, d.month);
    MonthStep(d.year, e.month);
    MonthUnique(d.year, doy, d.month, e.month);
  }

  /** Ordinal numbering is a bijection: `date.fromordinal(d.toordinal()) == d`. */
  lemma FromOrdinalOrdinal(d: Date)
    requires IsValidDate(d)
    ensures FromOrdinal(Ordinal(d)) == d
  {
    OrdinalInjective(FromOrdinal(Ordinal(d)), d);
  }

  // ------------------------------------------------------------- weekdays

  /** `date.weekday()`: 0 for Monday up to 6 for Sunday; day 1 was a Monday. */
  function Weekday(n: int): (w: int)
    ensures 0 <= w < 7
  {
    (n + 6) % 7
  }

  const WeekdayNames: seq<string> :=
    ["Monday", "Tuesday", "Wednesday", "Thursday", "Friday", "Saturday", "Sunday"]

  /** `strftime("%A")` of day `n`. */
  function WeekdayName(n: int): string
  {
    WeekdayNames[Weekday(n)]
  }

  /** Every weekday occurs within any seven consecutive days. */
  lemma WeekCoversEveryDay(a: int, w: int)
    requires 0 <= w < 7
    ensures var i := (w - Weekday(a)) % 7; 0 <= i < 7 && Weekday(a + i) == w
  {
  }

  // ----------------------------------------------------------- text forms

  /** `%02d` of a value below 100: two digits, a leading zero when needed. */
  function Pad2(v: int): (s: string)
    requires 0 <= v < 100
    ensures |s| == 2
  {
    [DigitChar(v / 10), DigitChar(v % 10)]
  }

  /** `%04d` of a value below 10000, as `%Y` writes the years 1..9999. */
  function Pad4(v: int): (s: string)
    requires 0 <= v < 10000
    ensures |s| == 4
  {
    [DigitChar(v / 1000), DigitChar(v / 100 % 10), DigitChar(v / 10 % 10), DigitChar(v % 10)]
  }

  lemma Pad2Value(v: int)
    requires 0 <= v < 100
    ensures AllDigits(Pad2(v)) && DigitsValue(Pad2(v)) == v
  {
    Digits2Value(DigitChar(v / 10), DigitChar(v % 10));
  }

  lemma Pad4Value(v: int)
    requires 0 <= v < 10000
    ensures AllDigits(Pad4(v)) && DigitsValue(Pad4(v)) == v
  {
    var a, b, c, d := v / 1000, v / 100 % 10, v / 10 % 10, v % 10;
    Digits4Value(DigitChar(a), DigitChar(b), DigitChar(c), DigitChar(d));
    FourDigits(v);
  }

  lemma FourDigits(v: int)
    requires 0 <= v < 10000
    ensures v == 1000 * (v / 1000) + 100 * (v / 100 % 10) + 10 * (v / 10 % 10) + v % 10
  {
    assert v / 10 == 10 * (v / 100) + v / 10 % 10;
    assert v / 100 == 10 * (v / 1000) + v / 100 % 10;
  }

  /** `strftime("%Y-%m-%d")` of a date: a four-digit year, two-digit month and day. */
  function FormatDate(d: Date): (s: string)
    requires IsValidDate(d)
    ensures |s| == 10 && s[4] == '-' && s[7] == '-'
  {
    Pad4(d.year) + "-" + Pad2(d.month) + "-" + Pad2(d.day)
  }

  /** `strftime("%Y-%m-%d")` of day `n`. */
  function FormatIso(n: int): (s: string)
    requires IsOrdinal(n)
    ensures |s| == 10 && s[4] == '-' && s[7] == '-'
  {
    FormatDate(FromOrdinal(n))
  }

  /** `%m` as `strptime` reads it: `1[0-2]|0[1-9]|[1-9]`. */
  predicate IsMonthText(t: string)
  {
    || (|t| == 1 && '1' <= t[0] <= '9')
    || (|t| == 2 && AllDigits(t) && 1 <= DigitsValue(t) <= 12)
  }

  /** `%d` as `strptime` reads it: `3[01]|[12]\d|0[1-9]|[1-9]| [1-9]`. */
  predicate IsDayText(t: string)
  {
    || (|t| == 1 && '1' <= t[0] <= '9')
    || (|t| == 2 && t[0] == ' ' && '1' <= t[1] <= '9')
    || (|t| == 2 && AllDigits(t) && 1 <= DigitsValue(t) <= 31)
  }

  function MonthTextValue(t: string): (m: int)
    requires IsMonthText(t)
    ensures 1 <= m <= 12
  {
    if |t| == 1 then DigitValue(t[0]) else DigitsValue(t)
  }

  function DayTextValue(t: string): (d: int)
    requires IsDayText(t)
    ensures 1 <= d <= 31
  {
    if |t| == 1 then DigitValue(t[0])
    else if t[0] == ' ' then DigitValue(t[1])
    else DigitsValue(t)
  }

  /**
   * The year, month and day fields `strptime(s, "%Y-%m-%d")` matches: exactly
   * four digits, a dash, a month, a dash and a day that ends the text.  The
   * month pattern tries its two-digit forms first, so the second dash sits
   * at index 6 exactly when the month is a single digit.
   */
  function ScanIsoFields(s: string): (r: Option<Date>)
    ensures r.Some? ==> 0 <= r.value.year <= MaxYear && 1 <= r.value.month <= 12 && 1 <= r.value.day <= 31
  {
    if |s| < 8 || !AllDigits(s[..4]) || s[4] != '-' then None
    else
      var k := if s[6] == '-' then 6 else 7;
      if s[k] != '-' || !IsMonthText(s[5..k]) || !IsDayText(s[k + 1..]) then None
      else
        assert DigitsValue(s[..4]) <= MaxYear by {
          DigitsBound(s[..4]);
        }
        Some(Date(DigitsValue(s[..4]), MonthTextValue(s[5..k]), DayTextValue(s[k + 1..])))
  }

  lemma {:induction false} DigitsBound(s: string)
    requires AllDigits(s)
    ensures DigitsValue(s) < Pow10(|s|)
  {
    if s != [] {
      DigitsBound(s[..|s| - 1]);
    }
  }

  /**
   * `strptime(s, "%Y-%m-%d")` as a day number, or `None` where it raises
   * `ValueError`: the text must match and name a real calendar day (so year
   * 0000, February 29 of a common year and April 31 are refused).
   */
  function ParseIso(s: string): (r: Option<int>)
    ensures r.Some? ==> IsOrdinal(r.value)
  {
    match ScanIsoFields(s)
    case None => None
    case Some(d) => if IsValidDate(d) then Some(Ordinal(d)) else None
  }

  /** The fields of a written date scan back as that date. */
  lemma ScanFormatDate(d: Date)
    requires IsValidDate(d)
    ensures ScanIsoFields(FormatDate(d)) == Some(d)
  {
    var s := FormatDate(d);
    var y, m, dd := Pad4(d.year), Pad2(d.month), Pad2(d.day);
    Pad4Value(d.year);
    Pad2Value(d.month);
    Pad2Value(d.day);
    assert s == y + "-" + m + "-" + dd;
    assert s[..4] == y;
    assert s[5..7] == m;
    assert s[8..] == dd;
    assert s[6] == m[1];
    assert IsMonthText(m);
    assert IsDayText(dd) && dd[0] != ' ';
  }

  /** Reading back what `strftime("%Y-%m-%d")` wrote gives the same day. */
  lemma ParseFormatIso(n: int)
    requires IsOrdinal(n)
    ensures ParseIso(FormatIso(n)) == Some(n)
  {
    ScanFormatDate(FromOrdinal(n));
    OrdinalFromOrdinal(n);
  }

  /** Month and day may be written with one digit. */
  lemma ParseIsoShortFields()
    ensures ParseIso("2024-5-9") == Some(Ordinal(Date(2024, 5, 9)))
  {
    var a := "2024-5-9";
    assert a[..4] == "2024" && a[5..6] == "5" && a[7..] == "9";
    Digits4Value('2', '0', '2', '4');
  }

  /** The day may be written with a leading space. */
  lemma ParseIsoSpacedDay()
    ensures ParseIso("2024-05- 9") == Some(Ordinal(Date(2024, 5, 9)))
  {
    var b := "2024-05- 9";
    assert b[..4] == "2024" && b[5..7] == "05" && b[8..] == " 9";
    Digits4Value('2', '0', '2', '4');
    Digits2Value('0', '5');
    assert b[6] != '-' && b[7] == '-';
    assert IsMonthText("05") && MonthTextValue("05") == 5;
    assert IsDayText(" 9") && DayTextValue(" 9") == 9;
    assert ScanIsoFields(b) == Some(Date(2024, 5, 9));
  }

  /** Day 32, year 0000 and a two-digit year are refused. */
  lemma ParseIsoRejects()
    ensures ParseIso("2024-01-32") == None
    ensures ParseIso("0000-01-01") == None
    ensures ParseIso("24-01-01") == None
  {
    var f := "2024-01-32";
    assert f[8..] == "32";
    Digits2Value('3', '2');
    var e := "0000-01-01";
    assert e[..4] == "0000" && e[5..7] == "01" && e[8..] == "01";
    Digits4Value('0', '0', '0', '0');
    Digits2Value('0', '1');
    var g := "24-01-01";
    assert g[2] == '-' && !AllDigits(g[..4]);
  }

  /** February 29 is accepted exactly in leap years. */
  lemma ParseLeapDay(y: int)
    requires 1 <= y <= MaxYear
    ensures ParseIso(Pad4(y) + "-02-29").Some? <==> IsLeapYear(y)
  {
    Pad4Value(y);
    var t := Pad4(y) + "-02-29";
    assert t[..4] == Pad4(y) && t[4] == '-' && t[6] == '2';
    assert t[5..7] == "02" && t[8..] == "29";
    Digits2Value('0', '2');
    Digits2Value('2', '9');
    assert ScanIsoFields(t) == Some(Date(y, 2, 29));
  }

  lemma Digits2Value(a: char, b: char)
    requires IsDigit(a) && IsDigit(b)
    ensures AllDigits([a, b]) && DigitsValue([a, b]) == 10 * DigitValue(a) + DigitValue(b)
  {
    assert [a, b][..1] == [a] && [a][..0] == [];
    assert DigitsValue([a]) == DigitValue(a);
  }

  lemma Digits4Value(a: char, b: char, c: char, d: char)
    requires IsDigit(a) && IsDigit(b) && IsDigit(c) && IsDigit(d)
    ensures AllDigits([a, b, c, d])
    ensures DigitsValue([a, b, c, d]) == 1000 * DigitValue(a) + 100 * DigitValue(b) + 10 * DigitValue(c) + DigitValue(d)
  {
    assert [a, b, c, d][..3] == [a, b, c] && [a, b, c][..2] == [a, b];
    Digits2Value(a, b);
  }

  /** Friday, 10 May 2024, as the calendar has it. */
  lemma WeekdayExample()
    ensures WeekdayName(Ordinal(Date(2024, 5, 10))) == "Friday"
    ensures WeekdayName(Ordinal(Date(2024, 5, 13))) == "Monday"
    ensures WeekdayName(1) == "Monday"
  {
    assert DaysBeforeYear(2024) == 738885;
    assert DaysBeforeMonth(2024, 5) == 121;
    assert Ordinal(Date(2024, 5, 10)) == 739016;
    assert Weekday(739016) == 4 && Weekday(739019) == 0;
  }
}
