/** components/CalendarView.tsx: the month grid. The month's length and the
    weekday of its first day fix the blank cells before day 1; each day selects
    the transactions whose date string is that day's `YYYY-MM-DD` key and sums
    their income and expenses. */
module CalendarView {
  import opened Types
  import opened Seqs
  import opened Text
  import opened Dates
  import opened Totals

  /** `firstDayOfMonth`: the weekday (0 = Sunday) of `new Date(y, m, 1)`, the first
      day of the viewed month in the year the constructor reads for `y`. */
  function FirstDayOfMonth(y: int, m: int): (w: int)
    requires 0 <= m < 12
    ensures 0 <= w < 7
    ensures (y < 0 || y > 99) ==> w == Weekday(y, m, 1)
  {
    Weekday(MakeFullYear(y), m, 1)
  }

  /** `daysInMonth`: the date of `new Date(y, m + 1, 0)`, the last day of month `m`
      in the year the constructor reads for `y`. Only February depends on the year. */
  function MonthLength(y: int, m: int): (n: int)
    requires 0 <= m < 12
    ensures 28 <= n <= 31
    ensures m == 1 ==> (n == 29 <==> IsLeapYear(MakeFullYear(y)))
    ensures m != 1 ==> n == DaysInMonth(y, m)
    ensures (y < 0 || y > 99) ==> n == DaysInMonth(y, m)
  {
    DaysInMonth(MakeFullYear(y), m)
  }

  /** Day 0 of the next month is the last day of this one: the day before the first
      of month `m + 1` (rolling over into January) is day `daysInMonth` of month `m`. */
  lemma MonthLengthIsLastDay(y: int, m: int)
    requires 0 <= m < 12
    ensures var f := MakeFullYear(y);
      DayNumber(NextMonth(f, m).year, NextMonth(f, m).month, 1) - 1 == DayNumber(f, m, MonthLength(y, m))
  {
    DayBeforeNextMonth(MakeFullYear(y), m);
  }

  /** The constructor's reading of two-digit years reaches the calendar: February of
      year 0 is drawn with the 28 days of February 1900 although year 0 is a leap
      year, and December of year 99 starts in the Wednesday column of December 1999
      rather than on the Tuesday on which it began. */
  lemma TwoDigitYearCalendar()
    ensures MonthLength(0, 1) == 28 && DaysInMonth(0, 1) == 29
    ensures FirstDayOfMonth(99, 11) == 3 && Weekday(99, 11, 1) == 2
  {
  }

  /** `days`: `Array.from({ length: n }, (_, i) => i + 1)`. */
  function Days(n: nat): (r: seq<int>)
    ensures |r| == n
    ensures forall i :: 0 <= i < n ==> r[i] == i + 1
  {
    if n == 0 then [] else Days(n - 1) + [n]
  }

  /** A cell of the grid after the weekday header: a padding cell or a day. */
  datatype Cell = Blank | DayCell(day: int)

  function DayCells(days: seq<int>): (r: seq<Cell>)
    ensures |r| == |days| && forall i :: 0 <= i < |days| ==> r[i] == DayCell(days[i])
  {
    if days == [] then [] else [DayCell(days[0])] + DayCells(days[1..])
  }

  function Blanks(n: nat): (r: seq<Cell>)
    ensures |r| == n && forall i :: 0 <= i < n ==> r[i] == Blank
  {
    if n == 0 then [] else [Blank] + Blanks(n - 1)
  }

  /** The cells in the order the seven-column grid lays them out: `padding`, then `days`. */
  function Grid(y: int, m: int): (r: seq<Cell>)
    requires 0 <= m < 12
    ensures |r| == FirstDayOfMonth(y, m) + MonthLength(y, m)
    ensures forall i :: 0 <= i < FirstDayOfMonth(y, m) ==> r[i] == Blank
    ensures forall i :: FirstDayOfMonth(y, m) <= i < |r| ==> r[i] == DayCell(i - FirstDayOfMonth(y, m) + 1)
  {
    Blanks(FirstDayOfMonth(y, m)) + DayCells(Days(MonthLength(y, m)))
  }

  /** The padding puts every day of the month in the column of its weekday: day d
      sits in column `Weekday` of (year read by the constructor, m, d) of the seven. */
  lemma GridColumns(y: int, m: int, d: int)
    requires 0 <= m < 12
    requires 1 <= d <= MonthLength(y, m)
    ensures Grid(y, m)[FirstDayOfMonth(y, m) + d - 1] == DayCell(d)
    ensures (FirstDayOfMonth(y, m) + d - 1) % 7 == Weekday(MakeFullYear(y), m, d)
  {
    WeekdayOfDay(MakeFullYear(y), m, d);
  }

  /** `String(n).padStart(2, '0')`. */
  function Pad2(n: int): string
  {
    PadStart(IntToString(n), 2, '0')
  }

  /** `dateStr` of `getTransactionsForDay`: the year as `String` writes it (the
      year itself, not the constructor's reading of it), then the 1-based month and
      the day, each zero-padded to two digits, separated by dashes. */
  function DayKey(y: int, m: int, d: int): string
  {
    IntToString(y) + "-" + Pad2(m + 1) + "-" + Pad2(d)
  }

  lemma FourDigitString(n: nat)
    requires 1000 <= n <= 9999
    ensures |NatToString(n)| == 4
  {
    var a := n / 10;
    var b := a / 10;
    var c := b / 10;
    assert 100 <= a <= 999 && 10 <= b <= 99 && 1 <= c <= 9;
    assert |NatToString(b)| == |NatToString(c)| + 1;
    assert |NatToString(a)| == |NatToString(b)| + 1;
    assert |NatToString(n)| == |NatToString(a)| + 1;
  }

  lemma Pad2Value(n: nat)
    requires n < 100
    ensures |Pad2(n)| == 2 && AllDigits(Pad2(n)) && DecimalValue(Pad2(n)) == n
  {
    NatToStringValue(n);
    if n < 10 {
      var p := Pad2(n);
      assert p == ['0', DigitChar(n)];
      assert p[..1] == ['0'] && ['0'][..0] == [];
    } else {
      assert (n / 10) < 10;
    }
  }

  lemma Pad2Canonical(s: string)
    requires |s| == 2 && AllDigits(s)
    ensures Pad2(DecimalValue(s)) == s
  {
    if s[0] == '0' {
      Pad2LeadingZero(s);
    } else {
      NatToStringCanonical(s);
    }
  }

  lemma Pad2LeadingZero(s: string)
    requires |s| == 2 && AllDigits(s) && s[0] == '0'
    ensures Pad2(DecimalValue(s)) == s
  {
    var v := DecimalValue(s);
    assert v == DigitValue(s[1]) by {
      TwoDigitValue(s);
    }
    assert NatToString(v) == [s[1]];
    assert Repeat('0', 1) == ['0'];
    assert s == ['0'] + [s[1]];
  }

  lemma FourDigitValue(s: string)
    requires |s| == 4 && AllDigits(s)
    ensures DecimalValue(s) == 1000 * DigitValue(s[0]) + 100 * DigitValue(s[1]) + 10 * DigitValue(s[2]) + DigitValue(s[3])
  {
    assert s[..3][..2] == s[..2];
    TwoDigitValue(s[..2]);
  }

  /** Reading back a day's key gives that day, for every valid date of a four-digit year. */
  lemma {:induction false} DayKeyRoundTrip(y: int, m: int, d: int)
    requires 1000 <= y <= 9999
    requires ValidDate(CivilDate(y, m, d))
    ensures ParseIsoDate(DayKey(y, m, d)) == Some(CivilDate(y, m, d))
  {
    var a, b, c := NatToString(y), Pad2(m + 1), Pad2(d);
    assert |a| == 4 && AllDigits(a) && DecimalValue(a) == y by {
      FourDigitString(y);
      NatToStringValue(y);
    }
    assert |b| == 2 && AllDigits(b) && DecimalValue(b) == m + 1 by {
      Pad2Value(m + 1);
    }
    assert |c| == 2 && AllDigits(c) && DecimalValue(c) == d by {
      Pad2Value(d);
    }
    ParseOfParts(a, b, c);
  }

  /** The parser reads a string assembled from a four-digit year and two two-digit fields. */
  lemma ParseOfParts(a: string, b: string, c: string)
    requires |a| == 4 && AllDigits(a) && |b| == 2 && AllDigits(b) && |c| == 2 && AllDigits(c)
    requires 1 <= DecimalValue(b) <= 12 && 1 <= DecimalValue(c) <= DaysInMonth(DecimalValue(a), DecimalValue(b) - 1)
    ensures ParseIsoDate(a + "-" + b + "-" + c) == Some(CivilDate(DecimalValue(a), DecimalValue(b) - 1, DecimalValue(c)))
  {
    KeyParts(a, b, c);
    ParseOfFields(a + "-" + b + "-" + c, a, b, c);
  }

  /** The parser reads a ten-character string by its three fields. */
  lemma ParseOfFields(k: string, a: string, b: string, c: string)
    requires |k| == 10 && k[..4] == a && k[4] == '-' && k[5..7] == b && k[7] == '-' && k[8..] == c
    requires AllDigits(a) && AllDigits(b) && AllDigits(c)
    requires 1 <= DecimalValue(b) <= 12 && 1 <= DecimalValue(c) <= DaysInMonth(DecimalValue(a), DecimalValue(b) - 1)
    ensures ParseIsoDate(k) == Some(CivilDate(DecimalValue(a), DecimalValue(b) - 1, DecimalValue(c)))
  {
  }

  /** Where the three fields sit in the assembled key. */
  lemma KeyParts(a: string, b: string, c: string)
    requires |a| == 4 && |b| == 2 && |c| == 2
    ensures var k := a + "-" + b + "-" + c;
      |k| == 10 && k[..4] == a && k[4] == '-' && k[5..7] == b && k[7] == '-' && k[8..] == c
  {
    var k := a + "-" + b + "-" + c;
    assert k[..4] == a;
    assert k[5..7] == b;
    assert k[8..] == c;
  }

  /** Conversely, a date string that parses to a day of a year from 1000 on is
      exactly that day's key: the parser accepts nothing but the padded form. */
  lemma {:induction false} DayKeyCanonical(s: string)
    requires ParseIsoDate(s).Some? && ParseIsoDate(s).value.year >= 1000
    ensures s == DayKey(ParseIsoDate(s).value.year, ParseIsoDate(s).value.month, ParseIsoDate(s).value.day)
  {
    var v := ParseIsoDate(s).value;
    var ys, ms, ds := PartsOfParse(s);
    assert NatToString(v.year) == ys by {
      FourDigitValue(ys);
      assert ys[0] != '0';
      NatToStringCanonical(ys);
    }
    Pad2Canonical(ms);
    Pad2Canonical(ds);
  }

  /** What the parser accepts: four digits, a dash, two digits, a dash, two digits,
      read as the year, the 1-based month and the day. */
  lemma PartsOfParse(s: string) returns (ys: string, ms: string, ds: string)
    requires ParseIsoDate(s).Some?
    ensures s == ys + "-" + ms + "-" + ds
    ensures |ys| == 4 && AllDigits(ys) && |ms| == 2 && AllDigits(ms) && |ds| == 2 && AllDigits(ds)
    ensures DecimalValue(ys) == ParseIsoDate(s).value.year
    ensures DecimalValue(ms) == ParseIsoDate(s).value.month + 1
    ensures DecimalValue(ds) == ParseIsoDate(s).value.day
  {
    ys, ms, ds := s[..4], s[5..7], s[8..];
    assert s == ys + "-" + ms + "-" + ds;
  }

  /** Keys of different days of a month differ, whatever the year. */
  lemma DayKeyInjective(y: int, m: int, d1: int, d2: int)
    requires ValidDate(CivilDate(y, m, d1)) && ValidDate(CivilDate(y, m, d2))
    requires DayKey(y, m, d1) == DayKey(y, m, d2)
    ensures d1 == d2
  {
    var prefix := IntToString(y) + "-" + Pad2(m + 1) + "-";
    var p1, p2 := Pad2(d1), Pad2(d2);
    assert DayKey(y, m, d1) == prefix + p1 && DayKey(y, m, d2) == prefix + p2;
    assert (prefix + p1)[|prefix|..] == p1;
    assert (prefix + p2)[|prefix|..] == p2;
    Pad2Value(d1);
    Pad2Value(d2);
  }

  function DatedOn(key: string): Transaction -> bool
  {
    (t: Transaction) => t.date == key
  }

  /** `getTransactionsForDay(d)`: the transactions whose date string is the day's key. */
  function DayTransactions(txs: seq<Transaction>, y: int, m: int, d: int): (r: seq<Transaction>)
    ensures |r| <= |txs|
    ensures forall i :: 0 <= i < |r| ==> r[i].date == DayKey(y, m, d)
  {
    FilterMembers(txs, DatedOn(DayKey(y, m, d)));
    Filter(txs, DatedOn(DayKey(y, m, d)))
  }

  /** No transaction carries the key: the day selects nothing. */
  lemma NoneOnDay(txs: seq<Transaction>, y: int, m: int, d: int)
    ensures (forall i :: 0 <= i < |txs| ==> txs[i].date != DayKey(y, m, d)) ==> DayTransactions(txs, y, m, d) == []
  {
    if forall i :: 0 <= i < |txs| ==> txs[i].date != DayKey(y, m, d) {
      FilterDropsAll(txs, DatedOn(DayKey(y, m, d)));
    }
  }

  /** `dailyExpense`: the expenses of the day; 0 for a day without transactions, and
      never negative when no expense amount is. */
  function DailyExpense(txs: seq<Transaction>, y: int, m: int, d: int): (r: int)
    ensures (forall i :: 0 <= i < |txs| ==> txs[i].date != DayKey(y, m, d)) ==> r == 0
    ensures Magnitudes(txs) ==> r >= 0
  {
    NoneOnDay(txs, y, m, d);
    DayAmountsNonNegative(txs, y, m, d);
    TotalOf(DayTransactions(txs, y, m, d), Expense)
  }

  /** `dailyIncome`: the income of the day; 0 for a day without transactions, and
      never negative when no income amount is. */
  function DailyIncome(txs: seq<Transaction>, y: int, m: int, d: int): (r: int)
    ensures (forall i :: 0 <= i < |txs| ==> txs[i].date != DayKey(y, m, d)) ==> r == 0
    ensures Magnitudes(txs) ==> r >= 0
  {
    NoneOnDay(txs, y, m, d);
    DayAmountsNonNegative(txs, y, m, d);
    TotalOf(DayTransactions(txs, y, m, d), Income)
  }

  /** A day's selection has non-negative amounts when the list has. */
  lemma DayAmountsNonNegative(txs: seq<Transaction>, y: int, m: int, d: int)
    ensures Magnitudes(txs) ==>
      forall i :: 0 <= i < |DayTransactions(txs, y, m, d)| ==> DayTransactions(txs, y, m, d)[i].amount >= 0
  {
    FilterMembers(txs, DatedOn(DayKey(y, m, d)));
  }

  /** A day's selection is the order-preserving subsequence of exactly the
      transactions dated with its key; in particular the key must match the stored
      string character for character. */
  lemma DayTransactionsSelect(txs: seq<Transaction>, y: int, m: int, d: int)
    ensures IsSubsequence(DayTransactions(txs, y, m, d), txs)
    ensures |DayTransactions(txs, y, m, d)| == Count(txs, DatedOn(DayKey(y, m, d)))
    ensures forall i :: 0 <= i < |DayTransactions(txs, y, m, d)| ==>
      DayTransactions(txs, y, m, d)[i] in txs && DayTransactions(txs, y, m, d)[i].date == DayKey(y, m, d)
    ensures forall i :: 0 <= i < |txs| && txs[i].date == DayKey(y, m, d) ==> txs[i] in DayTransactions(txs, y, m, d)
  {
    var p := DatedOn(DayKey(y, m, d));
    FilterSelects(txs, p);
    FilterMembers(txs, p);
    var r := DayTransactions(txs, y, m, d);
    forall i | 0 <= i < |r| ensures r[i].date == DayKey(y, m, d) {
      assert p(r[i]);
    }
    forall i | 0 <= i < |txs| && txs[i].date == DayKey(y, m, d) ensures txs[i] in r {
      assert p(txs[i]);
    }
  }

  /** A day without transactions shows no income and no expense. */
  lemma EmptyDayHasZeroSums(txs: seq<Transaction>, y: int, m: int, d: int)
    requires forall i :: 0 <= i < |txs| ==> txs[i].date != DayKey(y, m, d)
    ensures DayTransactions(txs, y, m, d) == []
    ensures DailyIncome(txs, y, m, d) == 0 && DailyExpense(txs, y, m, d) == 0
    ensures !ShowsAmount(DailyIncome(txs, y, m, d)) && !ShowsAmount(DailyExpense(txs, y, m, d))
  {
    NoneOnDay(txs, y, m, d);
  }

  /** `dailyIncome > 0 && ...`, `dailyExpense > 0 && ...`: a figure is shown only when
      it is strictly positive. */
  predicate ShowsAmount(sum: int)
  {
    sum > 0
  }

  /** `isToday`: today's date is `new Date(y, m, d)`, day d of the viewed month in
      the year the constructor reads for `y`; so no today in a year from 0 to 99
      is ever flagged. */
  function IsToday(today: CivilDate, y: int, m: int, d: int): (b: bool)
    ensures b ==> today.year == MakeFullYear(y) && today.month == m && today.day == d
    ensures b ==> !(0 <= today.year <= 99)
  {
    today == CivilDate(MakeFullYear(y), m, d)
  }

  /** Conversely, when the viewed month is today's month (in the constructor's
      reading of the year), today's own cell is among the month's days and is flagged. */
  lemma TodayIsFlagged(today: CivilDate, y: int, m: int)
    requires ValidDate(today) && today.year == MakeFullYear(y) && today.month == m
    ensures 1 <= today.day <= MonthLength(y, m) && IsToday(today, y, m, today.day)
  {
  }

  lemma AtMostOneToday(today: CivilDate, y: int, m: int, d1: int, d2: int)
    requires IsToday(today, y, m, d1) && IsToday(today, y, m, d2)
    ensures d1 == d2
  {
  }

  /** The sum f(1) + ... + f(n) of a figure per day. */
  function SumDays(f: int -> int, n: nat): int
  {
    if n == 0 then 0 else SumDays(f, n - 1) + f(n)
  }

  /** Sums over the days add up figure by figure. */
  lemma {:induction false} SumDaysAdd(f: int -> int, g: int -> int, h: int -> int, n: nat)
    requires forall d :: 1 <= d <= n ==> h(d) == f(d) + g(d)
    ensures SumDays(h, n) == SumDays(f, n) + SumDays(g, n)
  {
    if n > 0 {
      SumDaysAdd(f, g, h, n - 1);
    }
  }

  /** Days whose figures are all zero sum to zero. */
  lemma {:induction false} SumDaysZero(f: int -> int, n: nat)
    requires forall d :: 1 <= d <= n ==> f(d) == 0
    ensures SumDays(f, n) == 0
  {
    if n > 0 {
      SumDaysZero(f, n - 1);
    }
  }

  /** When among the days 1..n only day `day` may have a non-zero figure, the sum
      is that day's figure if it is among them and 0 otherwise. */
  lemma {:induction false} SumDaysOneDay(f: int -> int, day: int, n: nat)
    requires 1 <= day
    requires forall d :: 1 <= d <= n && d != day ==> f(d) == 0
    ensures SumDays(f, n) == if day <= n then f(day) else 0
  {
    if n > 0 {
      SumDaysOneDay(f, day, n - 1);
    }
  }

  /** `dailyIncome` or `dailyExpense` of each day, as a function of the day. */
  function DayFigures(txs: seq<Transaction>, y: int, m: int, k: TransactionType): int -> int
  {
    (d: int) => TotalOf(DayTransactions(txs, y, m, d), k)
  }

  /** The sum of one type's daily figures over the days 1..n. */
  function DaysTotal(txs: seq<Transaction>, y: int, m: int, k: TransactionType, n: nat): int
  {
    SumDays(DayFigures(txs, y, m, k), n)
  }

  lemma DaysTotalConcat(a: seq<Transaction>, b: seq<Transaction>, y: int, m: int, k: TransactionType, n: nat)
    ensures DaysTotal(a + b, y, m, k, n) == DaysTotal(a, y, m, k, n) + DaysTotal(b, y, m, k, n)
  {
    var f, g, h := DayFigures(a, y, m, k), DayFigures(b, y, m, k), DayFigures(a + b, y, m, k);
    forall d | 1 <= d <= n ensures h(d) == f(d) + g(d) {
      FilterConcat(a, b, DatedOn(DayKey(y, m, d)));
      TotalOfConcat(DayTransactions(a, y, m, d), DayTransactions(b, y, m, d), k);
    }
    SumDaysAdd(f, g, h, n);
  }

  lemma DaysTotalEmpty(y: int, m: int, k: TransactionType, n: nat)
    ensures DaysTotal([], y, m, k, n) == 0
  {
    var f := DayFigures([], y, m, k);
    forall d | 1 <= d <= n ensures f(d) == 0 {
      assert DayTransactions([], y, m, d) == [];
      assert Filter([], KindIs(k)) == [];
    }
    SumDaysZero(f, n);
  }

  /** A single transaction is selected by the day whose key is its date string, and by no other. */
  lemma DayTransactionsOfOne(t: Transaction, y: int, m: int, d: int)
    ensures DayTransactions([t], y, m, d) == if t.date == DayKey(y, m, d) then [t] else []
  {
    assert [t][1..] == [];
  }

  /** The year of a parsed date has at most four digits. */
  lemma ParsedYearBound(s: string)
    requires ParseIsoDate(s).Some?
    ensures ParseIsoDate(s).value.year <= 9999
  {
    var ys, ms, ds := PartsOfParse(s);
    FourDigitValue(ys);
  }

  /** A transaction dated with the key of day `day` of a four-digit year is selected
      by that day and by no other day of the month, so it adds to that day's figure
      only. */
  lemma OnlyOnItsDay(t: Transaction, y: int, m: int, day: int, k: TransactionType)
    requires 1000 <= y <= 9999 && ValidDate(CivilDate(y, m, day))
    requires t.date == DayKey(y, m, day)
    ensures TotalOf(DayTransactions([t], y, m, day), k) == TotalOf([t], k)
    ensures forall d :: 1 <= d <= DaysInMonth(y, m) && d != day ==> TotalOf(DayTransactions([t], y, m, d), k) == 0
  {
    DayTransactionsOfOne(t, y, m, day);
    assert Filter([], KindIs(k)) == [];
    forall d | 1 <= d <= DaysInMonth(y, m) && d != day ensures TotalOf(DayTransactions([t], y, m, d), k) == 0 {
      DayTransactionsOfOne(t, y, m, d);
      if t.date == DayKey(y, m, d) {
        DayKeyInjective(y, m, day, d);
      }
    }
  }

  /** The days partition the month: when every transaction is dated in the viewed
      month of a four-digit year, each falls on exactly one day, so the daily
      figures of one type summed over 1..daysInMonth give that type's month total. */
  lemma {:induction false} DaysPartitionMonth(txs: seq<Transaction>, y: int, m: int, k: TransactionType)
    requires 1000 <= y && 0 <= m < 12
    requires forall i :: 0 <= i < |txs| ==> DateInMonth(txs[i].date, YearMonth(y, m))
    ensures DaysTotal(txs, y, m, k, MonthLength(y, m)) == TotalOf(txs, k)
  {
    var n := MonthLength(y, m);
    if txs == [] {
      DaysTotalEmpty(y, m, k, n);
    } else {
      var t, rest := txs[0], txs[1..];
      assert txs == [t] + rest;
      DaysPartitionMonth(rest, y, m, k);
      DaysTotalConcat([t], rest, y, m, k, n);
      assert DateInMonth(txs[0].date, YearMonth(y, m));
      DaysTotalOfOne(t, y, m, k);
      TotalOfConcat([t], rest, k);
    }
  }

  /** One transaction dated in the viewed month of a four-digit year counts on
      exactly one of its days. */
  lemma DaysTotalOfOne(t: Transaction, y: int, m: int, k: TransactionType)
    requires 1000 <= y && DateInMonth(t.date, YearMonth(y, m))
    ensures DaysTotal([t], y, m, k, MonthLength(y, m)) == TotalOf([t], k)
  {
    var v := ParseIsoDate(t.date).value;
    ParsedYearBound(t.date);
    DayKeyCanonical(t.date);
    OnlyOnItsDay(t, y, m, v.day, k);
    SumDaysOneDay(DayFigures([t], y, m, k), v.day, MonthLength(y, m));
  }
}
