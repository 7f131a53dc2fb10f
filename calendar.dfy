/** The calendar the reader relies on: the conversion of epoch seconds to a
    calendar instant (`pd.to_datetime(..., unit='s')`, main.py:66), the
    proleptic Gregorian calendar that `datetime.date` uses, and the parsing of
    the target date by `datetime.strptime(date, '%Y-%m-%d')` (main.py:60).
    Time is POSIX time: every day has 86400 seconds, there are no leap seconds. */
module Calendar {
  import opened Wrappers

  const SecondsPerDay: int := 86400

  /** A timezone-naive instant: the day counted from 1970-01-01 and the second within that day. */
  datatype Instant = Instant(epochDay: int, secondOfDay: int)

  /** The calendar instant of an epoch-second count; floor division, so second -1 lies on 1969-12-31. */
  function FromEpochSeconds(ts: int): (t: Instant)
    ensures 0 <= t.secondOfDay < SecondsPerDay
    ensures t.epochDay * SecondsPerDay + t.secondOfDay == ts
  {
    Instant(ts / SecondsPerDay, ts % SecondsPerDay)
  }

  function ToEpochSeconds(t: Instant): int {
    t.epochDay * SecondsPerDay + t.secondOfDay
  }

  /** Every well-formed instant is the conversion of exactly one epoch-second count. */
  lemma InstantRoundTrip(t: Instant)
    requires 0 <= t.secondOfDay < SecondsPerDay
    ensures FromEpochSeconds(ToEpochSeconds(t)) == t
  {
    var u := FromEpochSeconds(ToEpochSeconds(t));
    DayUnique(ToEpochSeconds(t), t.epochDay, u.epochDay);
  }

  /** The day of an instant is the one whose 86400 seconds contain it. */
  lemma DayOfInstant(ts: int, day: int)
    ensures FromEpochSeconds(ts).epochDay == day <==> day * SecondsPerDay <= ts < day * SecondsPerDay + SecondsPerDay
  {
    var t := FromEpochSeconds(ts);
    if day * SecondsPerDay <= ts < day * SecondsPerDay + SecondsPerDay {
      DayUnique(ts, day, t.epochDay);
    }
  }

  /** Two days whose 86400-second spans both hold `ts` are the same day. */
  lemma DayUnique(ts: int, d1: int, d2: int)
    requires d1 * SecondsPerDay <= ts < d1 * SecondsPerDay + SecondsPerDay
    requires d2 * SecondsPerDay <= ts < d2 * SecondsPerDay + SecondsPerDay
    ensures d1 == d2
  {
  }

  // ---------------------------------------------------------------------
  // Calendar dates (Python's datetime.date: proleptic Gregorian, years 1..9999)

  datatype Date = Date(year: int, month: int, day: int)

  predicate IsLeapYear(y: int) {
    y % 4 == 0 && (y % 100 != 0 || y % 400 == 0)
  }

  function YearLength(y: int): int {
    if IsLeapYear(y) then 366 else 365
  }

  function DaysInMonth(y: int, m: int): int
    requires 1 <= m <= 12
  {
    if m == 2 then (if IsLeapYear(y) then 29 else 28)
    else if m == 4 || m == 6 || m == 9 || m == 11 then 30
    else 31
  }

  /** Days of year `y` before the first of month `m`. */
  function DaysBeforeMonth(y: int, m: int): int
    requires 1 <= m <= 12
  {
    var common :=
      if m == 1 then 0 else if m == 2 then 31 else if m == 3 then 59
      else if m == 4 then 90 else if m == 5 then 120 else if m == 6 then 151
      else if m == 7 then 181 else if m == 8 then 212 else if m == 9 then 243
      else if m == 10 then 273 else if m == 11 then 304 else 334;
    if m > 2 && IsLeapYear(y) then common + 1 else common
  }

  /** Days before January 1st of year `y`, counted from 0001-01-01. */
  function DaysBeforeYear(y: int): int
    requires y >= 1
  {
    var p := y - 1;
    365 * p + p / 4 - p / 100 + p / 400
  }

  /** A date `datetime.date` accepts. */
  predicate ValidDate(d: Date) {
    1 <= d.year <= 9999 && 1 <= d.month <= 12 && 1 <= d.day <= DaysInMonth(d.year, d.month)
  }

  /** Proleptic Gregorian ordinal: 0001-01-01 is day 1. */
  function Ordinal(d: Date): int
    requires ValidDate(d)
  {
    DaysBeforeYear(d.year) + DaysBeforeMonth(d.year, d.month) + d.day
  }

  const UnixEpochOrdinal: int := 719163

  /** The epoch day (days since 1970-01-01) of a calendar date. */
  function EpochDay(d: Date): (r: int)
    requires ValidDate(d)
    ensures d == Date(1970, 1, 1) ==> r == 0
    ensures d == Date(1969, 12, 31) ==> r == -1
  {
    Ordinal(d) - UnixEpochOrdinal
  }

  /** Calendar order of dates: by year, then month, then day. */
  predicate Before(a: Date, b: Date) {
    a.year < b.year || (a.year == b.year && (a.month < b.month || (a.month == b.month && a.day < b.day)))
  }

  lemma DivStep4(y: int)
    ensures y / 4 - (y - 1) / 4 == if y % 4 == 0 then 1 else 0
  {}

  lemma DivStep100(y: int)
    ensures y / 100 - (y - 1) / 100 == if y % 100 == 0 then 1 else 0
  {}

  lemma DivStep400(y: int)
    ensures y / 400 - (y - 1) / 400 == if y % 400 == 0 then 1 else 0
  {}

  /** The three rules together add one leap day exactly in a leap year. */
  lemma LeapDays(y: int)
    ensures (y / 4 - (y - 1) / 4) - (y / 100 - (y - 1) / 100) + (y / 400 - (y - 1) / 400) == YearLength(y) - 365
  {
    DivStep4(y);
    DivStep100(y);
    DivStep400(y);
    if y % 400 == 0 {
      var k := y / 400;
      assert y == 100 * (4 * k);
      assert y == 4 * (100 * k);
    } else if y % 100 == 0 {
      var k := y / 100;
      assert y == 4 * (25 * k);
    }
  }

  /** The year after `y` starts exactly one year length later. */
  lemma YearStep(y: int)
    requires y >= 1
    ensures DaysBeforeYear(y + 1) == DaysBeforeYear(y) + YearLength(y)
  {
    assert DaysBeforeYear(y + 1) - DaysBeforeYear(y) ==
      365 + (y / 4 - (y - 1) / 4) - (y / 100 - (y - 1) / 100) + (y / 400 - (y - 1) / 400);
    LeapDays(y);
  }

  /** Every day of year `a` comes before any day of a later year `b`. */
  lemma {:induction false} YearsOrdered(a: int, b: int)
    requires 1 <= a < b
    ensures DaysBeforeYear(a) + YearLength(a) <= DaysBeforeYear(b)
    decreases b - a
  {
    YearStep(a);
    if a + 1 < b {
      YearsOrdered(a + 1, b);
    }
  }

  /** Every day of month `a` comes before the first day of a later month `b` of the same year. */
  lemma MonthsOrdered(y: int, a: int, b: int)
    requires 1 <= a < b <= 12
    ensures DaysBeforeMonth(y, a) + DaysInMonth(y, a) <= DaysBeforeMonth(y, b)
  {}

  /** The last month of a year ends with the year. */
  lemma LastMonthEndsYear(y: int)
    ensures DaysBeforeMonth(y, 12) + DaysInMonth(y, 12) == YearLength(y)
  {}

  /** The epoch day is strictly increasing in calendar order. */
  lemma EpochDayMonotone(a: Date, b: Date)
    requires ValidDate(a) && ValidDate(b) && Before(a, b)
    ensures EpochDay(a) < EpochDay(b)
  {
    if a.year < b.year {
      YearsOrdered(a.year, b.year);
      if a.month < 12 {
        MonthsOrdered(a.year, a.month, 12);
      }
      LastMonthEndsYear(a.year);
    } else if a.month < b.month {
      MonthsOrdered(a.year, a.month, b.month);
    }
  }

  /** Distinct valid dates have distinct epoch days, so comparing calendar
      dates is comparing epoch days. */
  lemma EpochDayInjective(a: Date, b: Date)
    requires ValidDate(a) && ValidDate(b)
    ensures EpochDay(a) == EpochDay(b) <==> a == b
  {
    if a != b {
      if Before(a, b) {
        EpochDayMonotone(a, b);
      } else {
        assert Before(b, a);
        EpochDayMonotone(b, a);
      }
    }
  }

  /** The calendar date after `d`: the next day of the month, else the first
      of the next month, else January 1st of the next year. */
  function NextDate(d: Date): (n: Date)
    requires ValidDate(d)
    ensures Before(d, n)
    ensures d != Date(9999, 12, 31) ==> ValidDate(n)
    ensures forall e :: ValidDate(e) && Before(d, e) ==> e == n || Before(n, e)
  {
    if d.day < DaysInMonth(d.year, d.month) then Date(d.year, d.month, d.day + 1)
    else if d.month < 12 then Date(d.year, d.month + 1, 1)
    else Date(d.year + 1, 1, 1)
  }

  /** Consecutive dates are consecutive epoch days: epoch days count calendar
      days without gaps. */
  lemma EpochDayNext(d: Date)
    requires ValidDate(d) && ValidDate(NextDate(d))
    ensures EpochDay(NextDate(d)) == EpochDay(d) + 1
  {
    if d.day == DaysInMonth(d.year, d.month) && d.month == 12 {
      YearStep(d.year);
      LastMonthEndsYear(d.year);
    }
  }

  // ---------------------------------------------------------------------
  // datetime.strptime(s, '%Y-%m-%d').date()
  //
  // CPython compiles the format to the regular expression
  //   (?P<Y>\d\d\d\d)-(?P<m>1[0-2]|0[1-9]|[1-9])-(?P<d>3[01]|[12]\d|0[1-9]|[1-9]| [1-9])
  // matches it at the start of the string (the month may backtrack to find
  // the '-' after it; the day takes the first alternative that matches),
  // raises when unconverted characters remain, and raises when the fields
  // do not form a valid date.

  predicate IsDigit(c: char) {
    '0' <= c <= '9'
  }

  predicate IsNonZeroDigit(c: char) {
    '1' <= c <= '9'
  }

  function DigitValue(c: char): int
    requires IsDigit(c)
  {
    c as int - '0' as int
  }

  /** The month field starting at `i` with the '-' after it: the month and the index after the '-'. */
  function MonthField(s: string, i: nat): Option<(int, nat)> {
    if i + 2 < |s| && s[i] == '1' && '0' <= s[i + 1] <= '2' && s[i + 2] == '-' then
      Some((10 + DigitValue(s[i + 1]), i + 3))
    else if i + 2 < |s| && s[i] == '0' && IsNonZeroDigit(s[i + 1]) && s[i + 2] == '-' then
      Some((DigitValue(s[i + 1]), i + 3))
    else if i + 1 < |s| && IsNonZeroDigit(s[i]) && s[i + 1] == '-' then
      Some((DigitValue(s[i]), i + 2))
    else
      None
  }

  /** The day field starting at `i`: the day and the index after it. */
  function DayField(s: string, i: nat): Option<(int, nat)> {
    if i + 1 < |s| && s[i] == '3' && '0' <= s[i + 1] <= '1' then
      Some((30 + DigitValue(s[i + 1]), i + 2))
    else if i + 1 < |s| && '1' <= s[i] <= '2' && IsDigit(s[i + 1]) then
      Some((10 * DigitValue(s[i]) + DigitValue(s[i + 1]), i + 2))
    else if i + 1 < |s| && s[i] == '0' && IsNonZeroDigit(s[i + 1]) then
      Some((DigitValue(s[i + 1]), i + 2))
    else if i < |s| && IsNonZeroDigit(s[i]) then
      Some((DigitValue(s[i]), i + 1))
    else if i + 1 < |s| && s[i] == ' ' && IsNonZeroDigit(s[i + 1]) then
      Some((DigitValue(s[i + 1]), i + 2))
    else
      None
  }

  /** The target date string as `strptime(s, '%Y-%m-%d')` reads it; None where it raises ValueError. */
  function ParseDate(s: string): (r: Option<Date>)
    ensures r.Some? ==> ValidDate(r.value)
  {
    if |s| < 5 || !(IsDigit(s[0]) && IsDigit(s[1]) && IsDigit(s[2]) && IsDigit(s[3])) || s[4] != '-' then
      None
    else
      var year := 1000 * DigitValue(s[0]) + 100 * DigitValue(s[1]) + 10 * DigitValue(s[2]) + DigitValue(s[3]);
      match MonthField(s, 5)
      case None => None
      case Some((month, p)) =>
        match DayField(s, p)
        case None => None
        case Some((day, e)) =>
          if e != |s| then None
          else if ValidDate(Date(year, month, day)) then Some(Date(year, month, day))
          else None
  }

  function DigitChar(k: int): (c: char)
    requires 0 <= k <= 9
    ensures IsDigit(c) && DigitValue(c) == k
  {
    ('0' as int + k) as char
  }

  /** The canonical `YYYY-MM-DD` spelling of a date, zero-padded. */
  function FormatDate(d: Date): string
    requires ValidDate(d)
  {
    [DigitChar(d.year / 1000), DigitChar(d.year / 100 % 10), DigitChar(d.year / 10 % 10), DigitChar(d.year % 10), '-',
     DigitChar(d.month / 10), DigitChar(d.month % 10), '-',
     DigitChar(d.day / 10), DigitChar(d.day % 10)]
  }

  lemma YearDigits(y: int)
    requires 1 <= y <= 9999
    ensures 1000 * (y / 1000) + 100 * (y / 100 % 10) + 10 * (y / 10 % 10) + y % 10 == y
    ensures 0 <= y / 1000 <= 9
  {
    var t := y / 10;
    var h := t / 10;
    assert y == 10 * t + y % 10;
    assert t == 10 * h + t % 10;
    assert y == 100 * h + (10 * (t % 10) + y % 10);
    assert y / 100 == h;
    assert h == 10 * (h / 10) + h % 10;
    assert y == 1000 * (h / 10) + (100 * (h % 10) + 10 * (t % 10) + y % 10);
    assert y / 1000 == h / 10;
  }

  /** The month field of a canonical spelling is read as that month, up to its '-'. */
  lemma CanonicalMonth(s: string, m: int)
    requires 1 <= m <= 12 && |s| > 7 && s[5] == DigitChar(m / 10) && s[6] == DigitChar(m % 10) && s[7] == '-'
    ensures MonthField(s, 5) == Some((m, 8))
  {
    if m < 10 {
      assert s[5] == '0' && IsNonZeroDigit(s[6]);
    } else {
      assert s[5] == '1' && '0' <= s[6] <= '2';
    }
  }

  /** The day field of a canonical spelling is read as that day and ends the string. */
  lemma CanonicalDay(s: string, d: int)
    requires 1 <= d <= 31 && |s| == 10 && s[8] == DigitChar(d / 10) && s[9] == DigitChar(d % 10)
    ensures DayField(s, 8) == Some((d, 10))
  {
    if d < 10 {
      assert s[8] == '0' && IsNonZeroDigit(s[9]);
    } else if d < 30 {
      assert '1' <= s[8] <= '2';
    } else {
      assert s[8] == '3' && '0' <= s[9] <= '1';
    }
  }

  /** strptime reads back every date written in the canonical form. */
  lemma ParseFormatRoundTrip(d: Date)
    requires ValidDate(d)
    ensures ParseDate(FormatDate(d)) == Some(d)
  {
    var s := FormatDate(d);
    YearDigits(d.year);
    assert 1000 * DigitValue(s[0]) + 100 * DigitValue(s[1]) + 10 * DigitValue(s[2]) + DigitValue(s[3]) == d.year;
    CanonicalMonth(s, d.month);
    CanonicalDay(s, d.day);
  }

  /** The target-date strings that strptime rejects include impossible days,
      months out of range, trailing text and a two-digit year. */
  lemma ParseDateRejects()
    ensures ParseDate("2021-02-29") == None
    ensures ParseDate("2021-13-01") == None
    ensures ParseDate("2021-05-211") == None
    ensures ParseDate("21-05-21") == None
    ensures ParseDate("0000-01-01") == None
  {
    assert DayField("2021-05-211", 8) == Some((21, 10));
  }

  /** Non-canonical spellings strptime accepts: one-digit fields and a space-padded day. */
  lemma ParseDateAccepts()
    ensures ParseDate("2021-05-21") == Some(Date(2021, 5, 21))
    ensures ParseDate("2021-5-1") == Some(Date(2021, 5, 1))
    ensures ParseDate("2021-05- 1") == Some(Date(2021, 5, 1))
    ensures ParseDate("2020-02-29") == Some(Date(2020, 2, 29))
  {
    assert MonthField("2021-05-21", 5) == Some((5, 8));
    assert MonthField("2021-5-1", 5) == Some((5, 7));
    assert MonthField("2021-05- 1", 5) == Some((5, 8));
    assert MonthField("2020-02-29", 5) == Some((2, 8));
  }
}
