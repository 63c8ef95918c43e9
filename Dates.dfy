/** The calendar arithmetic behind JavaScript's `Date` as the budgeting UI uses
    it: Gregorian month lengths, day numbers and weekdays, and the parser of the
    `YYYY-MM-DD` strings that transactions carry. */
module Dates {
  import opened Types
  import opened Text

  /** A calendar date as `getFullYear`, `getMonth` and `getDate` report it:
      the month is 0-based (0 = January), the day 1-based. */
  datatype CivilDate = CivilDate(year: int, month: int, day: int)

  /** A (year, 0-based month) pair: the month the UI is looking at. */
  datatype YearMonth = YearMonth(year: int, month: int)

  predicate IsLeapYear(y: int)
  {
    y % 4 == 0 && (y % 100 != 0 || y % 400 == 0)
  }

  /** The number of days of month `m` (0-based) of year `y`. */
  function DaysInMonth(y: int, m: int): (n: int)
    requires 0 <= m < 12
    ensures 28 <= n <= 31
  {
    if m == 1 then (if IsLeapYear(y) then 29 else 28)
    else if m == 3 || m == 5 || m == 8 || m == 10 then 30
    else 31
  }

  predicate ValidDate(d: CivilDate)
  {
    0 <= d.month < 12 && 1 <= d.day <= DaysInMonth(d.year, d.month)
  }

  /** The days of the years before `y`, counted from 1 January of year 1 of the
      proleptic Gregorian calendar (negative before it). */
  function DaysBeforeYear(y: int): int
  {
    var p := y - 1;
    365 * p + p / 4 - p / 100 + p / 400
  }

  /** The days of year `y` before month `m` (0-based); `m == 12` gives the year's length. */
  function DaysBeforeMonth(y: int, m: int): int
    requires 0 <= m <= 12
  {
    (if m >= 2 && IsLeapYear(y) then 1 else 0) + [0, 31, 59, 90, 120, 151, 181, 212, 243, 273, 304, 334, 365][m]
  }

  /** The number of the day (y, m, d); 1 January of year 1 is day 0. Proportional
      to `getTime()` of that date at midnight UTC, up to a constant offset. */
  function DayNumber(y: int, m: int, d: int): int
    requires 0 <= m < 12
  {
    DaysBeforeYear(y) + DaysBeforeMonth(y, m) + d - 1
  }

  /** `getDay()`: 0 = Sunday .. 6 = Saturday; 1 January of year 1 was a Monday. */
  function Weekday(y: int, m: int, d: int): (w: int)
    requires 0 <= m < 12
    ensures 0 <= w < 7
  {
    (DayNumber(y, m, d) + 1) % 7
  }

  /** The year argument as the `Date` constructor `new Date(y, m, d)` reads it:
      a year from 0 to 99 is taken to mean 1900 to 1999. The result keeps the last
      two digits and is never itself a year from 0 to 99. */
  function MakeFullYear(y: int): (r: int)
    ensures r % 100 == y % 100
    ensures !(0 <= r <= 99)
    ensures (y < 0 || y > 99) ==> r == y
    ensures 0 <= y <= 99 ==> r == 1900 + y
  {
    if 0 <= y <= 99 then 1900 + y else y
  }

  /** The month after (y, m), rolling December over into January of the next year. */
  function NextMonth(y: int, m: int): (r: YearMonth)
    requires 0 <= m < 12
    ensures 0 <= r.month < 12
    ensures r.year * 12 + r.month == y * 12 + m + 1
  {
    if m == 11 then YearMonth(y + 1, 0) else YearMonth(y, m + 1)
  }

  /** How many multiples of 4, 100 and 400 the step from year y - 1 to y passes. */
  lemma MultiplesStep(y: int)
    ensures y / 4 - (y - 1) / 4 == if y % 4 == 0 then 1 else 0
    ensures y / 100 - (y - 1) / 100 == if y % 100 == 0 then 1 else 0
    ensures y / 400 - (y - 1) / 400 == if y % 400 == 0 then 1 else 0
  {
  }

  /** A year has 366 days exactly when the leap-year rule holds, 365 otherwise. */
  lemma {:induction false} YearLength(y: int)
    ensures DaysBeforeYear(y + 1) - DaysBeforeYear(y) == DaysBeforeMonth(y, 12)
    ensures DaysBeforeMonth(y, 12) == if IsLeapYear(y) then 366 else 365
  {
    assert DaysBeforeYear(y + 1) - DaysBeforeYear(y)
      == 365 + (y / 4 - (y - 1) / 4) - (y / 100 - (y - 1) / 100) + (y / 400 - (y - 1) / 400);
    MultiplesStep(y);
    if y % 400 == 0 {
      DivisorsOf400(y);
    } else if y % 100 == 0 {
      DivisorsOf100(y);
    }
  }

  lemma DivisorsOf400(y: int)
    requires y % 400 == 0
    ensures y % 100 == 0 && y % 4 == 0
  {
    var q := y / 400;
    assert y == 100 * (4 * q);
    assert y == 4 * (100 * q);
  }

  lemma DivisorsOf100(y: int)
    requires y % 100 == 0
    ensures y % 4 == 0
  {
    var q := y / 100;
    assert y == 4 * (25 * q);
  }

  /** The table of month starts agrees with the month lengths. */
  lemma MonthStarts(y: int, m: int)
    requires 0 <= m < 12
    ensures DaysBeforeMonth(y, m + 1) == DaysBeforeMonth(y, m) + DaysInMonth(y, m)
  {
  }

  /** `new Date(y, m + 1, 0)` is the last day of month m: the day before the first
      of the next month is day `DaysInMonth(y, m)` of month m, so `getDate()` of it
      is the month's length. */
  lemma DayBeforeNextMonth(y: int, m: int)
    requires 0 <= m < 12
    ensures DayNumber(NextMonth(y, m).year, NextMonth(y, m).month, 1) - 1 == DayNumber(y, m, DaysInMonth(y, m))
  {
    MonthStarts(y, m);
    if m == 11 {
      YearLength(y);
    }
  }

  /** Within a month, the weekday advances by one per day. */
  lemma WeekdayOfDay(y: int, m: int, d: int)
    requires 0 <= m < 12
    ensures Weekday(y, m, d) == (Weekday(y, m, 1) + d - 1) % 7
  {
    var n := DayNumber(y, m, 1) + 1;
    assert DayNumber(y, m, d) + 1 == n + (d - 1);
    ModSum(n, d - 1);
  }

  lemma ModSum(a: int, b: int)
    ensures (a + b) % 7 == (a % 7 + b) % 7
  {
  }

  /** The first weekday of the next month is this month's first weekday moved on by
      the month's length. */
  lemma {:induction false} NextMonthWeekday(y: int, m: int)
    requires 0 <= m < 12
    ensures Weekday(NextMonth(y, m).year, NextMonth(y, m).month, 1) == (Weekday(y, m, 1) + DaysInMonth(y, m)) % 7
  {
    DayBeforeNextMonth(y, m);
    var n := NextMonth(y, m);
    WeekdayOfDay(y, m, DaysInMonth(y, m) + 1);
    assert DayNumber(n.year, n.month, 1) == DayNumber(y, m, DaysInMonth(y, m) + 1);
  }

  /** Two reference points: 1 January 1970 (the epoch of `getTime`) was a Thursday,
      1 March 2024 a Friday. */
  lemma WeekdayAnchors()
    ensures Weekday(1970, 0, 1) == 4
    ensures Weekday(2024, 2, 1) == 5
  {
  }

  /** Later years have larger day numbers: every year before `y2` is fully counted. */
  lemma {:induction false} DaysBeforeYearGrows(y1: int, y2: int)
    requires y1 < y2
    ensures DaysBeforeYear(y2) >= DaysBeforeYear(y1 + 1)
    decreases y2 - y1
  {
    if y1 + 1 < y2 {
      DaysBeforeYearGrows(y1 + 1, y2);
      YearLength(y1 + 1);
    }
  }

  /** Lexicographic order on (year, month, day) as a predicate. */
  predicate Before(a: CivilDate, b: CivilDate)
  {
    a.year < b.year || (a.year == b.year && (a.month < b.month || (a.month == b.month && a.day < b.day)))
  }

  /** A valid date's day number lies within its year. */
  lemma DayWithinYear(d: CivilDate)
    requires ValidDate(d)
    ensures DaysBeforeYear(d.year) <= DayNumber(d.year, d.month, d.day) < DaysBeforeYear(d.year + 1)
  {
    YearLength(d.year);
    MonthStarts(d.year, d.month);
    MonthStartsGrow(d.year, d.month + 1, 12);
  }

  lemma EarlierYear(a: CivilDate, b: CivilDate)
    requires ValidDate(a) && ValidDate(b) && a.year < b.year
    ensures DayNumber(a.year, a.month, a.day) < DayNumber(b.year, b.month, b.day)
  {
    DayWithinYear(a);
    DayWithinYear(b);
    DaysBeforeYearGrows(a.year, b.year);
  }

  lemma EarlierMonth(a: CivilDate, b: CivilDate)
    requires ValidDate(a) && ValidDate(b) && a.year == b.year && a.month < b.month
    ensures DayNumber(a.year, a.month, a.day) < DayNumber(b.year, b.month, b.day)
  {
    MonthStarts(a.year, a.month);
    MonthStartsGrow(a.year, a.month + 1, b.month);
  }

  lemma EarlierDate(a: CivilDate, b: CivilDate)
    requires ValidDate(a) && ValidDate(b) && Before(a, b)
    ensures DayNumber(a.year, a.month, a.day) < DayNumber(b.year, b.month, b.day)
  {
    if a.year < b.year {
      EarlierYear(a, b);
    } else if a.month < b.month {
      EarlierMonth(a, b);
    }
  }

  /** On valid dates, day numbers follow calendar order, in both directions; so
      comparing `getTime()` values compares dates. */
  lemma DayNumberOrder(a: CivilDate, b: CivilDate)
    requires ValidDate(a) && ValidDate(b)
    ensures Before(a, b) <==> DayNumber(a.year, a.month, a.day) < DayNumber(b.year, b.month, b.day)
    ensures a == b <==> DayNumber(a.year, a.month, a.day) == DayNumber(b.year, b.month, b.day)
  {
    if Before(a, b) {
      EarlierDate(a, b);
    } else if Before(b, a) {
      EarlierDate(b, a);
    } else {
      assert a == b;
    }
  }

  lemma MonthStartsGrow(y: int, m1: int, m2: int)
    requires 0 <= m1 <= m2 <= 12
    ensures DaysBeforeMonth(y, m1) <= DaysBeforeMonth(y, m2)
  {
  }

  /** `new Date(s)` for a transaction's date string, as far as the UI depends on it:
      exactly the form `YYYY-MM-DD` naming a real calendar day parses; anything else
      is an invalid date, whose month and year are NaN. */
  function ParseIsoDate(s: string): (r: Option<CivilDate>)
    ensures r.Some? ==> ValidDate(r.value) && r.value.year >= 0
  {
    if |s| == 10 && s[4] == '-' && s[7] == '-'
       && AllDigits(s[..4]) && AllDigits(s[5..7]) && AllDigits(s[8..])
    then
      var y, mo, d := DecimalValue(s[..4]), DecimalValue(s[5..7]), DecimalValue(s[8..]);
      if 1 <= mo <= 12 && 1 <= d <= DaysInMonth(y, mo - 1) then Some(CivilDate(y, mo - 1, d)) else None
    else None
  }

  /** `d.getMonth() === month && d.getFullYear() === year` for `d = new Date(s)`:
      an invalid date has NaN for both and so lies in no month. */
  function DateInMonth(s: string, ym: YearMonth): (b: bool)
    ensures b ==> 0 <= ym.month < 12 && ym.year >= 0
  {
    var p := ParseIsoDate(s);
    p.Some? && p.value.year == ym.year && p.value.month == ym.month
  }
}
