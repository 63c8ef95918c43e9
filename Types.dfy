/** The records of types.ts: a transaction, its income/expense tag, the
    transaction as the entry form hands it over (everything but the id), and
    the month's totals. Amounts are whole cents. */
module Types {

  datatype Option<T> = None | Some(value: T)

  /** `'income' | 'expense'`. */
  datatype TransactionType = Income | Expense

  /** The string literal that stands for a transaction type. */
  function TypeName(k: TransactionType): (s: string)
    ensures s == "income" || s == "expense"
    ensures (s == "income") <==> k == Income
  {
    match k
    case Income => "income"
    case Expense => "expense"
  }

  /** A transaction; `kind` is the `type` field, amounts are cents. */
  datatype Transaction = Transaction(
    id: string,
    name: string,
    amount: int,
    date: string,
    category: string,
    kind: TransactionType)

  /** `Omit<Transaction, 'id'>`: what the entry form hands to the store. */
  datatype NewTransaction = NewTransaction(
    name: string,
    amount: int,
    date: string,
    category: string,
    kind: TransactionType)

  /** The transaction without its id: what the form would have handed over. */
  function Omit(t: Transaction): NewTransaction
  {
    NewTransaction(t.name, t.amount, t.date, t.category, t.kind)
  }

  /** `{ ...newTx, id }`: a transaction carrying every field of `tx` unchanged
      and the given id. */
  function WithId(tx: NewTransaction, id: string): (t: Transaction)
    ensures t.id == id && Omit(t) == tx
  {
    Transaction(id, tx.name, tx.amount, tx.date, tx.category, tx.kind)
  }

  /** The totals of a list of transactions, with the field names App.tsx uses. */
  datatype MonthSummary = MonthSummary(income: int, expenses: int, balance: int)
}
