/** The `filter(t => t.type === k).reduce((sum, t) => sum + t.amount, 0)` idiom
    that App.tsx uses for the month's totals and CalendarView.tsx for each day's. */
module Totals {
  import opened Types
  import opened Seqs

  function KindIs(k: TransactionType): Transaction -> bool
  {
    (t: Transaction) => t.kind == k
  }

  /** Every amount is a magnitude: none is negative. */
  predicate Magnitudes(txs: seq<Transaction>)
  {
    forall i :: 0 <= i < |txs| ==> txs[i].amount >= 0
  }

  /** `reduce((sum, t) => sum + t.amount, 0)`: a left fold from 0, never negative
      over magnitudes. */
  function SumAmounts(txs: seq<Transaction>): (r: int)
    ensures Magnitudes(txs) ==> r >= 0
  {
    if txs == [] then 0 else SumAmounts(txs[..|txs| - 1]) + txs[|txs| - 1].amount
  }

  /** The total amount of the transactions of type `k`: never negative over magnitudes. */
  function TotalOf(txs: seq<Transaction>, k: TransactionType): (r: int)
    ensures Magnitudes(txs) ==> r >= 0
  {
    FilterMembers(txs, KindIs(k));
    SumAmounts(Filter(txs, KindIs(k)))
  }

  /** The fold is additive over concatenation. */
  lemma {:induction false} SumAmountsConcat(a: seq<Transaction>, b: seq<Transaction>)
    ensures SumAmounts(a + b) == SumAmounts(a) + SumAmounts(b)
  {
    if b == [] {
      assert a + b == a;
    } else {
      var ab := a + b;
      assert ab[..|ab| - 1] == a + b[..|b| - 1];
      assert ab[|ab| - 1] == b[|b| - 1];
      SumAmountsConcat(a, b[..|b| - 1]);
    }
  }

  /** The folding order does not matter: the amount of the first element plus the rest. */
  lemma SumAmountsCons(t: Transaction, rest: seq<Transaction>)
    ensures SumAmounts([t] + rest) == t.amount + SumAmounts(rest)
  {
    SumAmountsConcat([t], rest);
    assert [t][..0] == [];
  }

  /** Per-type totals are additive over concatenation. */
  lemma TotalOfConcat(a: seq<Transaction>, b: seq<Transaction>, k: TransactionType)
    ensures TotalOf(a + b, k) == TotalOf(a, k) + TotalOf(b, k)
  {
    FilterConcat(a, b, KindIs(k));
    SumAmountsConcat(Filter(a, KindIs(k)), Filter(b, KindIs(k)));
  }

  /** The total of one transaction is its amount when it has the type, else 0. */
  lemma TotalOfSingle(t: Transaction, k: TransactionType)
    ensures TotalOf([t], k) == if t.kind == k then t.amount else 0
  {
    assert [t][1..] == [];
    if t.kind == k {
      assert Filter([t], KindIs(k)) == [t];
      assert [t][..0] == [];
      assert SumAmounts([t]) == SumAmounts([]) + t.amount;
    }
  }

  /** The two types partition the list: the income total and the expense total add
      up to the sum of all amounts. */
  lemma {:induction false} TotalsPartition(txs: seq<Transaction>)
    ensures TotalOf(txs, Income) + TotalOf(txs, Expense) == SumAmounts(txs)
  {
    if txs != [] {
      var init, last := txs[..|txs| - 1], txs[|txs| - 1];
      assert txs == init + [last];
      TotalsPartition(init);
      TotalOfConcat(init, [last], Income);
      TotalOfConcat(init, [last], Expense);
      TotalOfSingle(last, Income);
      TotalOfSingle(last, Expense);
    }
  }
}
