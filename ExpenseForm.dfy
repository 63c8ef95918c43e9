/** components/ExpenseForm.tsx: the entry form's four state fields, the handlers
    that overwrite them one at a time, and the submit handler that checks the
    fields, hands a new transaction to the store and clears name and amount. */
module ExpenseForm {
  import opened Types
  import opened Text

  /** The category every submitted transaction gets. */
  const DefaultCategory: string := "General"

  /** The negation of `!name || !amount || !date`: for strings JavaScript's `!`
      is true of the empty string only, so nothing but emptiness is tested. */
  predicate PassesGuard(name: string, amount: string, date: string)
  {
    name != "" && amount != "" && date != ""
  }

  /** The guard does not look inside the fields: a blank name and a zero amount pass,
      an empty field of any of the three does not. */
  lemma GuardTestsEmptinessOnly()
    ensures PassesGuard(" ", "0", "2024-03-05")
    ensures !PassesGuard("", "12", "2024-03-05") && !PassesGuard("Rent", "", "2024-03-05")
    ensures !PassesGuard("Rent", "12", "")
  {
  }

  class FormState {
    var name: string
    var amount: string
    var date: string
    var kind: TransactionType

    /** The initial state: empty name and amount, today's date (the part of
        `new Date().toISOString()` before the `T`) and type `'expense'`. */
    constructor (nowIso: string)
      ensures name == "" && amount == ""
      ensures date == Split(nowIso, 'T')[0]
      ensures kind == Expense
    {
      name := "";
      amount := "";
      date := Split(nowIso, 'T')[0];
      kind := Expense;
    }

    /** The description input's `onChange`. */
    method SetName(value: string)
      modifies this
      ensures name == value
      ensures amount == old(amount) && date == old(date) && kind == old(kind)
    {
      name := value;
    }

    /** The amount input's `onChange`. */
    method SetAmount(value: string)
      modifies this
      ensures amount == value
      ensures name == old(name) && date == old(date) && kind == old(kind)
    {
      amount := value;
    }

    /** The date input's `onChange`. */
    method SetDate(value: string)
      modifies this
      ensures date == value
      ensures name == old(name) && amount == old(amount) && kind == old(kind)
    {
      date := value;
    }

    /** The Expense and Income buttons: `setType('expense')` and `setType('income')`. */
    method SetType(k: TransactionType)
      modifies this
      ensures kind == k
      ensures name == old(name) && amount == old(amount) && date == old(date)
    {
      kind := k;
    }

    /** `handleSubmit`. When a field is empty nothing happens and nothing is emitted;
        otherwise the record of the current fields, with the amount parsed by
        `parseAmount` (the model of `parseFloat`) and category `'General'`, is handed
        to `onAdd`, and then name and amount are cleared while date and type stay. */
    method Submit(parseAmount: string -> int) returns (emitted: Option<NewTransaction>)
      modifies this
      ensures !PassesGuard(old(name), old(amount), old(date)) ==>
        emitted == None && name == old(name) && amount == old(amount) && date == old(date) && kind == old(kind)
      ensures PassesGuard(old(name), old(amount), old(date)) ==>
        emitted == Some(NewTransaction(old(name), parseAmount(old(amount)), old(date), DefaultCategory, old(kind)))
      ensures PassesGuard(old(name), old(amount), old(date)) ==>
        name == "" && amount == "" && date == old(date) && kind == old(kind)
    {
      if name == "" || amount == "" || date == "" {
        return None;
      }
      emitted := Some(NewTransaction(name, parseAmount(amount), date, DefaultCategory, kind));
      name := "";
      amount := "";
    }
  }
}
