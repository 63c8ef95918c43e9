/** App.tsx: the transaction store, the month the UI is looking at and the
    theme, with the handlers that update them, and the month's filter and
    financial snapshot computed from them. */
module App {
  import opened Types
  import opened Seqs
  import opened Dates
  import opened Totals
  import Text
  import CalendarView
  import ExpenseForm

  datatype Theme = Light | Dark

  /** `prev === 'light' ? 'dark' : 'light'`: the theme always changes. */
  function Toggle(t: Theme): (r: Theme)
    ensures r != t
  {
    if t == Light then Dark else Light
  }

  /** Toggling twice restores the theme. */
  lemma ToggleInvolution(t: Theme)
    ensures Toggle(Toggle(t)) == t
  {
  }

  /** The theme initialiser: a saved `'dark'` or `'light'` wins; anything else,
      or nothing saved, falls back to the system preference. */
  function LoadTheme(saved: Option<string>, prefersDark: bool): (t: Theme)
    ensures saved == Some("dark") ==> t == Dark
    ensures saved == Some("light") ==> t == Light
    ensures saved != Some("dark") && saved != Some("light") ==> (t == Dark <==> prefersDark)
  {
    if saved == Some("dark") then Dark
    else if saved == Some("light") then Light
    else if prefersDark then Dark else Light
  }

  /** The transaction initialiser, `saved ? JSON.parse(saved) : []`. A missing or
      empty saved string gives the empty store; anything else is handed to
      `decode`, the model of `JSON.parse`, whose None is a parse error that the
      initialiser does not catch. */
  function LoadTransactions(saved: Option<string>, decode: string -> Option<seq<Transaction>>): (r: Option<seq<Transaction>>)
    ensures saved == None || saved == Some("") ==> r == Some([])
    ensures saved.Some? && saved.value != "" ==> r == decode(saved.value)
  {
    match saved
    case None => Some([])
    case Some(s) => if s == "" then Some([]) else decode(s)
  }

  /** The month filter's test for one transaction. */
  function InMonth(ym: YearMonth): Transaction -> bool
  {
    (t: Transaction) => DateInMonth(t.date, ym)
  }

  /** `currentMonthTransactions`: the transactions dated in month `ym`, in store
      order; none of them more than the store holds and each dated in that month. */
  function MonthFilter(txs: seq<Transaction>, ym: YearMonth): (r: seq<Transaction>)
    ensures |r| <= |txs|
    ensures forall i :: 0 <= i < |r| ==> DateInMonth(r[i].date, ym)
  {
    FilterMembers(txs, InMonth(ym));
    Filter(txs, InMonth(ym))
  }

  /** The month filter keeps, in order, exactly the transactions dated in the
      viewed month, and never one whose date does not parse. */
  lemma MonthFilterSpec(txs: seq<Transaction>, ym: YearMonth)
    ensures IsSubsequence(MonthFilter(txs, ym), txs)
    ensures |MonthFilter(txs, ym)| == Count(txs, InMonth(ym))
    ensures forall i :: 0 <= i < |MonthFilter(txs, ym)| ==>
      DateInMonth(MonthFilter(txs, ym)[i].date, ym) && ParseIsoDate(MonthFilter(txs, ym)[i].date).Some?
    ensures forall i :: 0 <= i < |txs| && DateInMonth(txs[i].date, ym) ==> txs[i] in MonthFilter(txs, ym)
  {
    FilterSelects(txs, InMonth(ym));
    FilterMembers(txs, InMonth(ym));
    var r := MonthFilter(txs, ym);
    forall i | 0 <= i < |r| ensures DateInMonth(r[i].date, ym) {
      assert InMonth(ym)(r[i]);
    }
    forall i | 0 <= i < |txs| && DateInMonth(txs[i].date, ym) ensures txs[i] in r {
      assert InMonth(ym)(txs[i]);
    }
  }

  /** Filtering an already filtered month again changes nothing. */
  lemma MonthFilterIdempotent(txs: seq<Transaction>, ym: YearMonth)
    ensures MonthFilter(MonthFilter(txs, ym), ym) == MonthFilter(txs, ym)
  {
    FilterIdempotent(txs, InMonth(ym));
  }

  /** The financial snapshot of a list of transactions. */
  function Summarize(txs: seq<Transaction>): (s: MonthSummary)
    ensures s.income == TotalOf(txs, Income) && s.expenses == TotalOf(txs, Expense)
    ensures s.balance == s.income - s.expenses
  {
    var expenses := TotalOf(txs, Expense);
    var income := TotalOf(txs, Income);
    MonthSummary(income, expenses, income - expenses)
  }

  /** A month without transactions has a zero snapshot. */
  lemma SummarizeEmpty()
    ensures Summarize([]) == MonthSummary(0, 0, 0)
  {
    assert Filter([], KindIs(Income)) == [];
    assert Filter([], KindIs(Expense)) == [];
  }

  /** The snapshot is additive: the totals of two lists together are the sums of their totals. */
  lemma SummarizeAdditive(a: seq<Transaction>, b: seq<Transaction>)
    ensures Summarize(a + b).income == Summarize(a).income + Summarize(b).income
    ensures Summarize(a + b).expenses == Summarize(a).expenses + Summarize(b).expenses
    ensures Summarize(a + b).balance == Summarize(a).balance + Summarize(b).balance
  {
    TotalOfConcat(a, b, Income);
    TotalOfConcat(a, b, Expense);
  }

  /** An independent reading of the balance: income counts up, expenses down. */
  function SignedSum(txs: seq<Transaction>): int
  {
    if txs == [] then 0 else (if txs[0].kind == Income then txs[0].amount else -txs[0].amount) + SignedSum(txs[1..])
  }

  /** The balance is the signed sum of all amounts, each transaction counted once. */
  lemma {:induction false} BalanceIsSignedSum(txs: seq<Transaction>)
    ensures Summarize(txs).balance == SignedSum(txs)
  {
    if txs == [] {
      SummarizeEmpty();
    } else {
      var t := txs[0];
      assert txs == [t] + txs[1..];
      BalanceIsSignedSum(txs[1..]);
      SummarizeAdditive([t], txs[1..]);
      TotalOfSingle(t, Income);
      TotalOfSingle(t, Expense);
    }
  }

  /** The Surplus/Deficit badge. */
  function BalanceLabel(balance: int): (s: string)
    ensures s == "Surplus" <==> balance >= 0
    ensures balance < 0 ==> s == "Deficit"
  {
    if balance >= 0 then "Surplus" else "Deficit"
  }

  /** A worked month: a $4.50 coffee on 5 March 2024 and a $3000 salary on 1 March
      2024, viewed in March 2024, give income 3000.00, expenses 4.50 and a surplus
      of 2995.50. */
  lemma CoffeeAndSalaryScenario()
    ensures var txs := [Transaction("1", "Coffee", 450, "2024-03-05", "General", Expense),
                        Transaction("2", "Salary", 300000, "2024-03-01", "General", Income)];
      var s := Summarize(MonthFilter(txs, YearMonth(2024, 2)));
      s == MonthSummary(300000, 450, 299550) && BalanceLabel(s.balance) == "Surplus"
  {
    var c := Transaction("1", "Coffee", 450, "2024-03-05", "General", Expense);
    var p := Transaction("2", "Salary", 300000, "2024-03-01", "General", Income);
    ScenarioInMarch(c, p);
    ScenarioTotals(c, p);
  }

  /** Both dates of the worked month lie in March 2024, so the month view keeps both. */
  lemma ScenarioInMarch(c: Transaction, p: Transaction)
    requires c.date == "2024-03-05" && p.date == "2024-03-01"
    ensures MonthFilter([c, p], YearMonth(2024, 2)) == [c, p]
  {
    assert c.date == "2024" + "-" + "03" + "-" + "05";
    assert p.date == "2024" + "-" + "03" + "-" + "01";
    DayOfMarch2024(c.date, "05");
    DayOfMarch2024(p.date, "01");
    FilterKeepsAll([c, p], InMonth(YearMonth(2024, 2)));
  }

  /** `2024-03-05` and `2024-03-01` are dates of March 2024. */
  lemma DayOfMarch2024(s: string, dd: string)
    requires dd == "05" || dd == "01"
    requires s == "2024" + "-" + "03" + "-" + dd
    ensures DateInMonth(s, YearMonth(2024, 2))
  {
    CalendarView.FourDigitValue("2024");
    Text.TwoDigitValue("03");
    Text.TwoDigitValue(dd);
    CalendarView.ParseOfParts("2024", "03", dd);
  }

  /** The totals of the worked month: one expense of 450 cents, one income of 300000. */
  lemma ScenarioTotals(c: Transaction, p: Transaction)
    requires c.amount == 450 && c.kind == Expense && p.amount == 300000 && p.kind == Income
    ensures TotalOf([c, p], Income) == 300000 && TotalOf([c, p], Expense) == 450
  {
    assert [c, p] == [c] + [p];
    TotalOfConcat([c], [p], Income);
    TotalOfConcat([c], [p], Expense);
    TotalOfSingle(c, Income);
    TotalOfSingle(c, Expense);
    TotalOfSingle(p, Income);
    TotalOfSingle(p, Expense);
  }

  /** The position of a month on a line of months: months are counted from January of year 0. */
  function MonthIndex(y: int, m: int): int
  {
    y * 12 + m
  }

  /** Day 1 of the month `offset` months from (y, m), rolling the year over in
      either direction: the month arithmetic of `new Date(y, m + offset, 1)`. */
  function ShiftMonth(y: int, m: int, offset: int): (r: CivilDate)
    ensures r.day == 1 && ValidDate(r)
    ensures MonthIndex(r.year, r.month) == MonthIndex(y, m) + offset
  {
    var i := MonthIndex(y, m) + offset;
    CivilDate(i / 12, i % 12, 1)
  }

  /** Shifting by one lands on the month `NextMonth` names, so repeated steps walk
      the months in calendar order. */
  lemma ShiftOneIsNextMonth(y: int, m: int)
    requires 0 <= m < 12
    ensures ShiftMonth(y, m, 1).year == NextMonth(y, m).year && ShiftMonth(y, m, 1).month == NextMonth(y, m).month
  {
    var r, n := ShiftMonth(y, m, 1), NextMonth(y, m);
    assert 0 <= r.month < 12 && MonthIndex(r.year, r.month) == MonthIndex(n.year, n.month);
    MonthIndexInjective(r.year, r.month, n.year, n.month);
  }

  lemma MonthIndexInjective(y1: int, m1: int, y2: int, m2: int)
    requires 0 <= m1 < 12 && 0 <= m2 < 12 && MonthIndex(y1, m1) == MonthIndex(y2, m2)
    ensures y1 == y2 && m1 == m2
  {
  }

  /** Shifting forth and back returns to the starting month. */
  lemma ShiftMonthInverse(y: int, m: int, offset: int)
    requires 0 <= m < 12
    ensures ShiftMonth(ShiftMonth(y, m, offset).year, ShiftMonth(y, m, offset).month, -offset) == CivilDate(y, m, 1)
  {
    var r := ShiftMonth(y, m, offset);
    var b := ShiftMonth(r.year, r.month, -offset);
    MonthIndexInjective(b.year, b.month, y, m);
  }

  /** `changeMonth` as written: `new Date(prev.getFullYear(), prev.getMonth() + offset, 1)`,
      with the constructor's two-digit-year rule applied to the year argument. */
  function ChangeMonthAsWritten(y: int, m: int, offset: int): (r: CivilDate)
    ensures r.day == 1 && ValidDate(r)
    ensures MonthIndex(r.year, r.month) == MonthIndex(y, m) + offset + (if 0 <= y <= 99 then 1900 * 12 else 0)
  {
    ShiftMonth(MakeFullYear(y), m, offset)
  }

  /** As written, one step forward from December of year 99 lands in January 2000
      rather than January 100, and a step back from January 100 then returns to
      December 99; so the month index does not move by the offset. */
  lemma ChangeMonthAsWrittenJumps()
    ensures ChangeMonthAsWritten(100, 0, -1) == CivilDate(99, 11, 1)
    ensures ChangeMonthAsWritten(99, 11, 1) == CivilDate(2000, 0, 1)
    ensures ShiftMonth(99, 11, 1) == CivilDate(100, 0, 1)
    ensures MonthIndex(ChangeMonthAsWritten(99, 11, 1).year, 0) != MonthIndex(99, 11) + 1
  {
  }

  /** Outside the years 0..99 the code as written and the corrected shift agree. */
  lemma ChangeMonthAgreesOutsideTwoDigitYears(y: int, m: int, offset: int)
    requires y < 0 || y > 99
    ensures ChangeMonthAsWritten(y, m, offset) == ShiftMonth(y, m, offset)
  {
  }

  /** The id test of `deleteTransaction`. */
  function IdIsNot(id: string): Transaction -> bool
  {
    (t: Transaction) => t.id != id
  }

  /** `prev.filter(t => t.id !== id)`: no more transactions than before, none
      of them with the id. */
  function Without(txs: seq<Transaction>, id: string): (r: seq<Transaction>)
    ensures |r| <= |txs|
    ensures forall i :: 0 <= i < |r| ==> r[i].id != id
  {
    FilterMembers(txs, IdIsNot(id));
    Filter(txs, IdIsNot(id))
  }

  predicate HasId(txs: seq<Transaction>, id: string)
  {
    exists i :: 0 <= i < |txs| && txs[i].id == id
  }

  /** Deleting removes every transaction with the id and keeps all others in their order. */
  lemma WithoutSpec(txs: seq<Transaction>, id: string)
    ensures IsSubsequence(Without(txs, id), txs)
    ensures !HasId(Without(txs, id), id)
    ensures forall i :: 0 <= i < |txs| && txs[i].id != id ==> txs[i] in Without(txs, id)
    ensures |Without(txs, id)| == Count(txs, IdIsNot(id))
  {
    FilterSelects(txs, IdIsNot(id));
    FilterMembers(txs, IdIsNot(id));
    var r := Without(txs, id);
    forall i | 0 <= i < |r| ensures r[i].id != id {
      assert IdIsNot(id)(r[i]);
    }
    forall i | 0 <= i < |txs| && txs[i].id != id ensures txs[i] in r {
      assert IdIsNot(id)(txs[i]);
    }
  }

  /** Deleting an id that no transaction carries leaves the store as it was. */
  lemma WithoutAbsent(txs: seq<Transaction>, id: string)
    requires !HasId(txs, id)
    ensures Without(txs, id) == txs
  {
    forall i | 0 <= i < |txs| ensures IdIsNot(id)(txs[i]) {
    }
    FilterKeepsAll(txs, IdIsNot(id));
  }

  /** Adding a transaction under a fresh id and then deleting that id restores the store. */
  lemma AddThenDelete(txs: seq<Transaction>, tx: NewTransaction, id: string)
    requires !HasId(txs, id)
    ensures Without(txs + [WithId(tx, id)], id) == txs
  {
    FilterConcat(txs, [WithId(tx, id)], IdIsNot(id));
    WithoutAbsent(txs, id);
    assert [WithId(tx, id)][1..] == [];
  }

  /** No two transactions share an id. */
  predicate DistinctIds(txs: seq<Transaction>)
  {
    forall i, j :: 0 <= i < j < |txs| ==> txs[i].id != txs[j].id
  }

  /** Appending under a fresh id keeps the ids distinct. */
  lemma AddKeepsIdsDistinct(txs: seq<Transaction>, tx: NewTransaction, id: string)
    requires DistinctIds(txs) && !HasId(txs, id)
    ensures DistinctIds(txs + [WithId(tx, id)])
  {
    var s := txs + [WithId(tx, id)];
    forall i, j | 0 <= i < j < |s| ensures s[i].id != s[j].id {
      assert s[i] == txs[i];
      if j < |txs| {
        assert s[j] == txs[j];
      } else {
        assert s[j].id == id;
      }
    }
  }

  /** Deleting keeps the ids distinct. */
  lemma DeleteKeepsIdsDistinct(txs: seq<Transaction>, id: string)
    requires DistinctIds(txs)
    ensures DistinctIds(Without(txs, id))
  {
    FilterSelects(txs, IdIsNot(id));
    DistinctSubsequence(Without(txs, id), txs);
  }

  lemma {:induction false} DistinctSubsequence(r: seq<Transaction>, s: seq<Transaction>)
    requires IsSubsequence(r, s) && DistinctIds(s)
    ensures DistinctIds(r)
    decreases |s|
  {
    if r != [] {
      assert DistinctIds(s[1..]) by {
        forall i, j | 0 <= i < j < |s[1..]| ensures s[1..][i].id != s[1..][j].id {
          assert s[1..][i] == s[i + 1] && s[1..][j] == s[j + 1];
        }
      }
      if IsSubsequence(r, s[1..]) {
        DistinctSubsequence(r, s[1..]);
      } else {
        DistinctSubsequence(r[1..], s[1..]);
        SubsequenceMembers(r[1..], s[1..]);
        forall i, j | 0 <= i < j < |r| ensures r[i].id != r[j].id {
          assert r[j] == r[1..][j - 1];
          if i > 0 {
            assert r[i] == r[1..][i - 1];
          } else {
            var k :| 0 <= k < |s[1..]| && s[1..][k] == r[j];
            assert s[k + 1] == r[j] && r[0] == s[0];
          }
        }
      }
    }
  }

  lemma {:induction false} SubsequenceMembers<T>(r: seq<T>, s: seq<T>)
    requires IsSubsequence(r, s)
    ensures forall i :: 0 <= i < |r| ==> r[i] in s
    decreases |s|
  {
    if r != [] {
      if IsSubsequence(r, s[1..]) {
        SubsequenceMembers(r, s[1..]);
      } else {
        SubsequenceMembers(r[1..], s[1..]);
        forall i | 0 <= i < |r| ensures r[i] in s {
          if i > 0 {
            assert r[i] == r[1..][i - 1];
          }
        }
      }
    }
  }

  /** The calendar and the snapshot agree: for a month of a four-digit year, the
      daily income and expense figures summed over the month's days are the
      snapshot's income and expenses. */
  lemma CalendarMatchesSnapshot(txs: seq<Transaction>, ym: YearMonth)
    requires 1000 <= ym.year && 0 <= ym.month < 12
    ensures CalendarView.DaysTotal(MonthFilter(txs, ym), ym.year, ym.month, Income, CalendarView.MonthLength(ym.year, ym.month))
      == Summarize(MonthFilter(txs, ym)).income
    ensures CalendarView.DaysTotal(MonthFilter(txs, ym), ym.year, ym.month, Expense, CalendarView.MonthLength(ym.year, ym.month))
      == Summarize(MonthFilter(txs, ym)).expenses
  {
    MonthFilterSpec(txs, ym);
    CalendarView.DaysPartitionMonth(MonthFilter(txs, ym), ym.year, ym.month, Income);
    CalendarView.DaysPartitionMonth(MonthFilter(txs, ym), ym.year, ym.month, Expense);
  }

  /** The component's state: the store, the month pointer and the theme. */
  class AppState {
    var transactions: seq<Transaction>
    var currentDate: CivilDate
    var theme: Theme

    /** The month pointer is a real calendar date. */
    ghost predicate Valid()
      reads this
    {
      ValidDate(currentDate)
    }

    /** The initial state: the loaded store (the model requires the saved list to
        decode, since a parse error escapes the initialiser), today's date and the
        loaded theme. */
    constructor (savedTransactions: Option<string>, decode: string -> Option<seq<Transaction>>,
                 savedTheme: Option<string>, prefersDark: bool, today: CivilDate)
      requires LoadTransactions(savedTransactions, decode).Some?
      requires ValidDate(today)
      ensures Valid()
      ensures transactions == LoadTransactions(savedTransactions, decode).value
      ensures currentDate == today
      ensures theme == LoadTheme(savedTheme, prefersDark)
    {
      transactions := LoadTransactions(savedTransactions, decode).value;
      currentDate := today;
      theme := LoadTheme(savedTheme, prefersDark);
    }

    /** The month the UI is looking at. */
    function ViewedMonth(): YearMonth
      reads this
    {
      YearMonth(currentDate.year, currentDate.month)
    }

    /** `currentMonthTransactions`. */
    function MonthTransactions(): (r: seq<Transaction>)
      reads this
      ensures forall i :: 0 <= i < |r| ==> DateInMonth(r[i].date, ViewedMonth())
      ensures |r| <= |transactions|
    {
      MonthFilter(transactions, ViewedMonth())
    }

    /** `summary`: the snapshot of the viewed month. */
    function Snapshot(): (s: MonthSummary)
      reads this
      ensures s.balance == SignedSum(MonthTransactions())
    {
      BalanceIsSignedSum(MonthTransactions());
      Summarize(MonthTransactions())
    }

    /** `toggleTheme`. */
    method ToggleTheme()
      modifies this
      requires Valid()
      ensures Valid()
      ensures theme == Toggle(old(theme))
      ensures transactions == old(transactions) && currentDate == old(currentDate)
    {
      theme := Toggle(theme);
    }

    /** `addTransaction`: the new transaction, with every field of `tx` and the id
        the `crypto.randomUUID` oracle supplied, is appended after all earlier ones. */
    method AddTransaction(tx: NewTransaction, id: string)
      modifies this
      requires Valid()
      ensures Valid()
      ensures transactions == old(transactions) + [WithId(tx, id)]
      ensures DistinctIds(old(transactions)) && !HasId(old(transactions), id) ==> DistinctIds(transactions)
      ensures currentDate == old(currentDate) && theme == old(theme)
    {
      if DistinctIds(transactions) && !HasId(transactions, id) {
        AddKeepsIdsDistinct(transactions, tx, id);
      }
      transactions := transactions + [WithId(tx, id)];
    }

    /** `deleteTransaction`. */
    method DeleteTransaction(id: string)
      modifies this
      requires Valid()
      ensures Valid()
      ensures transactions == Without(old(transactions), id)
      ensures !HasId(transactions, id)
      ensures DistinctIds(old(transactions)) ==> DistinctIds(transactions)
      ensures currentDate == old(currentDate) && theme == old(theme)
    {
      WithoutSpec(transactions, id);
      if DistinctIds(transactions) {
        DeleteKeepsIdsDistinct(transactions, id);
      }
      transactions := Without(transactions, id);
    }

    /** `changeMonth(offset)`: day 1 of the month `offset` months away, from which
        `changeMonth(-offset)` leads back to day 1 of the month it started in. */
    method ChangeMonth(offset: int)
      modifies this
      requires Valid()
      ensures Valid()
      ensures currentDate == ShiftMonth(old(currentDate.year), old(currentDate.month), offset)
      ensures ShiftMonth(currentDate.year, currentDate.month, -offset) == CivilDate(old(currentDate.year), old(currentDate.month), 1)
      ensures transactions == old(transactions) && theme == old(theme)
    {
      ShiftMonthInverse(currentDate.year, currentDate.month, offset);
      currentDate := ShiftMonth(currentDate.year, currentDate.month, offset);
    }

    /** The form's submit wired to `onAdd={addTransaction}`: when the form emits a
        record, it is stored under the oracle's id; otherwise the store is unchanged. */
    method SubmitForm(form: ExpenseForm.FormState, parseAmount: string -> int, id: string)
      modifies this, form
      requires Valid()
      ensures Valid()
      ensures ExpenseForm.PassesGuard(old(form.name), old(form.amount), old(form.date)) ==>
        transactions == old(transactions) + [WithId(NewTransaction(old(form.name), parseAmount(old(form.amount)),
                                                                   old(form.date), ExpenseForm.DefaultCategory, old(form.kind)), id)]
      ensures !ExpenseForm.PassesGuard(old(form.name), old(form.amount), old(form.date)) ==>
        transactions == old(transactions)
      ensures ExpenseForm.PassesGuard(old(form.name), old(form.amount), old(form.date)) ==>
        form.name == "" && form.amount == "" && form.date == old(form.date) && form.kind == old(form.kind)
      ensures !ExpenseForm.PassesGuard(old(form.name), old(form.amount), old(form.date)) ==>
        form.name == old(form.name) && form.amount == old(form.amount) && form.date == old(form.date) && form.kind == old(form.kind)
      ensures currentDate == old(currentDate) && theme == old(theme)
    {
      var emitted := form.Submit(parseAmount);
      if emitted.Some? {
        AddTransaction(emitted.value, id);
      }
    }
  }
}
