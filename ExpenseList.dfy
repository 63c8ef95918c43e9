/** components/ExpenseList.tsx: the history panel. It sorts a copy of the
    month's transactions newest date first, shows an empty state when there are
    none, a count badge, and a sign per row chosen by the transaction's type. */
module ExpenseList {
  import opened Types
  import opened Seqs
  import opened Dates
  import opened Sorting

  const MsPerDay: int := 86400000

  /** `new Date(t.date).getTime()` for a date-only string, read as midnight UTC;
      None stands for NaN, the time of an invalid date. */
  function TimeValue(t: Transaction): (r: Option<int>)
    ensures r.Some? <==> ParseIsoDate(t.date).Some?
    ensures r.Some? ==> r.value % MsPerDay == 0
  {
    match ParseIsoDate(t.date)
    case Some(c) =>
      var days := DayNumber(c.year, c.month, c.day) - DayNumber(1970, 0, 1);
      WholeDays(days);
      Some(days * MsPerDay)
    case None => None
  }

  lemma WholeDays(days: int)
    ensures (days * MsPerDay) % MsPerDay == 0
  {
  }

  /** The comparator `(a, b) => time(b) - time(a)`. A NaN result is read as 0
      (the two compare equal), as `Array.prototype.sort` does. */
  function Compare(a: Transaction, b: Transaction): (r: int)
    ensures r > 0 <==> TimeValue(a).Some? && TimeValue(b).Some? && TimeValue(b).value > TimeValue(a).value
    ensures r < 0 <==> TimeValue(a).Some? && TimeValue(b).Some? && TimeValue(b).value < TimeValue(a).value
  {
    if TimeValue(a).Some? && TimeValue(b).Some? then TimeValue(b).value - TimeValue(a).value else 0
  }

  /** `[...transactions].sort(...)`: a stable sort of a copy by `Compare`; the
      input sequence is a value and is left as it is. */
  function SortedTransactions(txs: seq<Transaction>): (r: seq<Transaction>)
    ensures multiset(r) == multiset(txs)
    ensures |r| == |txs|
  {
    SortBy(txs, Compare)
  }

  /** The transaction's date is valid, so its time is a number. */
  predicate Dated(t: Transaction)
  {
    TimeValue(t).Some?
  }

  /** The time of a dated transaction. */
  function Time(t: Transaction): int
  {
    if TimeValue(t).Some? then TimeValue(t).value else 0
  }

  /** Between dated transactions the comparator is the difference of their times. */
  lemma CompareIsTimeDifference()
    ensures DescendingComparator(Compare, Time, Dated)
  {
  }

  /** Transactions that do not compare equal have different times. */
  lemma CompareSeparatesTimes()
    ensures forall a, b :: Compare(a, b) != 0 ==> TimeValue(a) != TimeValue(b)
  {
  }

  /** For valid dates the history is newest first: times never increase. */
  lemma SortedIsNewestFirst(txs: seq<Transaction>)
    requires AllIn(txs, Dated)
    ensures AllIn(SortedTransactions(txs), Dated) && Descending(SortedTransactions(txs), Time)
  {
    CompareIsTimeDifference();
    SortIsDescending(txs, Compare, Time, Dated);
  }

  /** A later time is a later calendar date. */
  lemma TimeFollowsDate(a: Transaction, b: Transaction)
    requires Dated(a) && Dated(b) && Time(a) >= Time(b)
    ensures !Before(ParseIsoDate(a.date).value, ParseIsoDate(b.date).value)
  {
    DayNumberOrder(ParseIsoDate(a.date).value, ParseIsoDate(b.date).value);
  }

  /** For valid dates the history is newest date first: no row's date comes before
      the date of a row below it. */
  lemma SortedByDateNewestFirst(txs: seq<Transaction>)
    requires AllIn(txs, Dated)
    ensures forall i :: 0 <= i < |SortedTransactions(txs)| ==> ParseIsoDate(SortedTransactions(txs)[i].date).Some?
    ensures var r := SortedTransactions(txs);
      forall i, j :: 0 <= i < j < |r| && ParseIsoDate(r[i].date).Some? && ParseIsoDate(r[j].date).Some? ==>
        !Before(ParseIsoDate(r[i].date).value, ParseIsoDate(r[j].date).value)
  {
    SortedIsNewestFirst(txs);
    var r := SortedTransactions(txs);
    forall i | 0 <= i < |r| ensures ParseIsoDate(r[i].date).Some? {
      assert Dated(r[i]);
    }
    forall i, j | 0 <= i < j < |r| && ParseIsoDate(r[i].date).Some? && ParseIsoDate(r[j].date).Some? ensures !Before(ParseIsoDate(r[i].date).value, ParseIsoDate(r[j].date).value) {
      assert Dated(r[i]) && Dated(r[j]);
      TimeFollowsDate(r[i], r[j]);
    }
  }

  /** The sort is stable: the transactions of any one time (one date, or all the
      invalid ones, whose time is NaN) appear in the history in their input order. */
  lemma SortIsStableByTime(txs: seq<Transaction>, v: Option<int>)
    ensures Filter(SortedTransactions(txs), KeyIs(TimeValue, v)) == Filter(txs, KeyIs(TimeValue, v))
  {
    CompareSeparatesTimes();
    SortIsStable(txs, Compare, TimeValue, v);
  }

  /** The empty-state branch: taken exactly when the month has no transactions. */
  function ShowsEmptyState(txs: seq<Transaction>): (empty: bool)
    ensures empty <==> txs == []
  {
    |SortedTransactions(txs)| == 0
  }

  /** The count badge, `transactions.length`: one per row of the history. */
  function CountBadge(txs: seq<Transaction>): (n: nat)
    ensures n == |SortedTransactions(txs)|
  {
    |txs|
  }

  /** The sign before a row's amount. */
  function Sign(k: TransactionType): (s: string)
    ensures s == "+" <==> k == Income
    ensures k == Expense ==> s == "-"
  {
    if k == Income then "+" else "-"
  }
}
