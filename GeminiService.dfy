/** services/geminiService.ts: the prompt built from the month's transactions and
    the reply handling around the model call. The call itself is a parameter:
    `service` maps a request to either an answer or a failure. */
module GeminiService {
  import opened Types
  import opened Text

  /** The model the request names. */
  const ModelName: string := "gemini-3-flash-preview"

  /** What the prompt embeds in place of an empty summary. */
  const Placeholder: string := "No transactions recorded yet."

  /** What the catch branch returns. */
  const Fallback: string := "I couldn't analyze your data right now, but keep tracking those transactions to build a healthy financial habit!"

  /** The template text before and after the embedded summary, whitespace included. */
  const PromptHead: string :=
    "\n    I am looking at my finances for this month. Based on the following list of income and expenses, please provide 3 brief, actionable financial tips or observations. \n"
    + "    Compare my income vs my spending and offer advice on saving or budgeting better.\n"
    + "    Keep it encouraging, concise, and professional.\n"
    + "    \n"
    + "    Transactions:\n"
    + "    "
  const PromptTail: string := "\n  "

  /** The digits after the point of a cents remainder, as a JavaScript number prints
      them: none for a whole amount, no trailing zero otherwise. */
  function FractionText(f: nat): string
    requires f < 100
  {
    if f == 0 then ""
    else if f % 10 == 0 then "." + [DigitChar(f / 10)]
    else "." + [DigitChar(f / 10), DigitChar(f % 10)]
  }

  function UnsignedText(a: nat): string
  {
    NatToString(a / 100) + FractionText(a % 100)
  }

  /** `${t.amount}`: the amount in dollars as JavaScript writes a number of
      dollars with at most two decimals (`4.5`, `3000`, `-12.05`). */
  function AmountText(cents: int): (s: string)
    ensures |s| >= 1
    ensures s[0] == '-' <==> cents < 0
  {
    if cents < 0 then "-" + UnsignedText(-cents) else UnsignedText(cents)
  }

  /** Reads a dollar amount written as digits, optionally a point and one or two
      digits, back into cents. */
  function ReadUnsigned(s: string): Option<int>
  {
    var parts := Split(s, '.');
    if |parts| == 1 && |s| >= 1 && AllDigits(s) then Some(DecimalValue(s) * 100)
    else if |parts| == 2 && |parts[0]| >= 1 && AllDigits(parts[0]) && 1 <= |parts[1]| <= 2 && AllDigits(parts[1]) then
      Some(DecimalValue(parts[0]) * 100 + (if |parts[1]| == 1 then DecimalValue(parts[1]) * 10 else DecimalValue(parts[1])))
    else None
  }

  /** Reads an optionally signed dollar amount back into cents. */
  function ReadCents(s: string): Option<int>
  {
    if |s| >= 1 && s[0] == '-' then
      match ReadUnsigned(s[1..])
      case Some(v) => Some(-v)
      case None => None
    else ReadUnsigned(s)
  }

  lemma DigitsLack(s: string, c: char)
    requires AllDigits(s) && !IsDigit(c)
    ensures c !in s
  {
  }

  lemma OneDigitValue(b: string)
    requires |b| == 1 && AllDigits(b)
    ensures DecimalValue(b) == DigitValue(b[0])
  {
    assert b[..0] == [];
  }

  lemma WholeRoundTrip(a: nat)
    requires a % 100 == 0
    ensures ReadUnsigned(UnsignedText(a)) == Some(a)
  {
    var ws := NatToString(a / 100);
    NatToStringValue(a / 100);
    DigitsLack(ws, '.');
    assert UnsignedText(a) == ws;
    SplitNoSeparator(ws, '.');
  }

  /** The digits after the point of a non-zero cents remainder read back as that remainder. */
  lemma FractionDigits(f: nat)
    requires 0 < f < 100
    ensures FractionText(f) == ['.'] + FractionText(f)[1..]
    ensures var b := FractionText(f)[1..];
      AllDigits(b) && 1 <= |b| <= 2 && (if |b| == 1 then DecimalValue(b) * 10 else DecimalValue(b)) == f
  {
    var b := FractionText(f)[1..];
    if f % 10 == 0 {
      assert b == [DigitChar(f / 10)];
      OneDigitValue(b);
    } else {
      assert b == [DigitChar(f / 10), DigitChar(f % 10)];
      TwoDigitValue(b);
    }
  }

  /** A text with a fractional part splits at its point into whole digits and fraction digits. */
  lemma FractionParts(a: nat)
    requires a % 100 != 0
    ensures Split(UnsignedText(a), '.') == [NatToString(a / 100), FractionText(a % 100)[1..]]
  {
    var ws, b := NatToString(a / 100), FractionText(a % 100)[1..];
    FractionDigits(a % 100);
    DigitsLack(ws, '.');
    DigitsLack(b, '.');
    assert UnsignedText(a) == ws + ['.'] + b;
    SplitAtFirstSeparator(ws, b, '.');
    SplitNoSeparator(b, '.');
  }

  lemma FractionRoundTrip(a: nat)
    requires a % 100 != 0
    ensures ReadUnsigned(UnsignedText(a)) == Some(a)
  {
    FractionParts(a);
    FractionDigits(a % 100);
    NatToStringValue(a / 100);
  }

  lemma UnsignedRoundTrip(a: nat)
    ensures ReadUnsigned(UnsignedText(a)) == Some(a)
  {
    if a % 100 == 0 {
      WholeRoundTrip(a);
    } else {
      FractionRoundTrip(a);
    }
  }

  /** The amount text reads back as the amount it was written from. */
  lemma AmountTextRoundTrip(cents: int)
    ensures ReadCents(AmountText(cents)) == Some(cents)
  {
    if cents < 0 {
      var u := UnsignedText(-cents);
      assert ("-" + u)[1..] == u;
      UnsignedRoundTrip(-cents);
    } else {
      var ws := NatToString(cents / 100);
      var s := AmountText(cents);
      assert s[0] == ws[0];
      assert IsDigit(ws[0]);
      UnsignedRoundTrip(cents);
    }
  }

  /** One line of the summary: date, upper-cased type, name and amount. */
  function SummaryLine(t: Transaction): (line: string)
    ensures line == t.date + ": " + (if t.kind == Income then "INCOME" else "EXPENSE") + " - " + t.name
                    + " ($" + AmountText(t.amount) + ")"
  {
    UpperLabel(t.kind);
    t.date + ": " + ToUpper(TypeName(t.kind)) + " - " + t.name + " ($" + AmountText(t.amount) + ")"
  }

  /** `transactions.map(...)`: one line per transaction, in input order. */
  function Lines(txs: seq<Transaction>): (r: seq<string>)
    ensures |r| == |txs|
    ensures forall i :: 0 <= i < |txs| ==> r[i] == SummaryLine(txs[i])
  {
    if txs == [] then [] else [SummaryLine(txs[0])] + Lines(txs[1..])
  }

  /** The lines joined by newlines: empty exactly when there are no transactions. */
  function Summary(txs: seq<Transaction>): (s: string)
    ensures s == "" <==> txs == []
  {
    var s := Join(Lines(txs), "\n");
    if txs == [] then s
    else
      JoinStartsWithFirst(Lines(txs), "\n");
      LineNonEmpty(txs[0]);
      s
  }

  /** The type renders upper-cased as `INCOME` or `EXPENSE`. */
  lemma UpperLabel(k: TransactionType)
    ensures ToUpper(TypeName(k)) == if k == Income then "INCOME" else "EXPENSE"
  {
    var s := TypeName(k);
    var u := ToUpper(s);
    if k == Income {
      assert s == "income";
      assert u == "INCOME";
    } else {
      assert s == "expense";
      assert u == "EXPENSE";
    }
  }

  /** A line is never empty: it holds at least the `": "` after the date. */
  lemma LineNonEmpty(t: Transaction)
    ensures |SummaryLine(t)| >= |t.date| + 2
  {
  }

  lemma AmountHasNoNewline(cents: int)
    ensures '\n' !in AmountText(cents)
  {
    var w := if cents < 0 then -cents else cents;
    DigitsLack(NatToString(w / 100), '\n');
    var f := FractionText(w % 100);
    assert forall i :: 0 <= i < |f| ==> f[i] == '.' || IsDigit(f[i]);
  }

  lemma LabelHasNoNewline(k: TransactionType)
    ensures '\n' !in ToUpper(TypeName(k))
  {
    UpperLabel(k);
    var u := ToUpper(TypeName(k));
    assert forall i :: 0 <= i < |u| ==> 'A' <= u[i] <= 'Z';
  }

  /** A line contains a newline only where the date or the name does. */
  lemma LineHasNoNewline(t: Transaction)
    requires '\n' !in t.date && '\n' !in t.name
    ensures '\n' !in SummaryLine(t)
  {
    AmountHasNoNewline(t.amount);
    LabelHasNoNewline(t.kind);
    var a, u := AmountText(t.amount), ToUpper(TypeName(t.kind));
    assert SummaryLine(t) == t.date + ": " + u + " - " + t.name + " ($" + a + ")";
    assert '\n' !in ": " && '\n' !in " - " && '\n' !in " ($" && '\n' !in ")";
  }

  /** Splitting the summary on newlines gives back one line per transaction, in
      order, when no date or name contains a newline. */
  lemma SummaryLinesRoundTrip(txs: seq<Transaction>)
    requires txs != []
    requires forall i :: 0 <= i < |txs| ==> '\n' !in txs[i].date && '\n' !in txs[i].name
    ensures Split(Summary(txs), '\n') == Lines(txs)
  {
    var ls := Lines(txs);
    forall i | 0 <= i < |ls| ensures '\n' !in ls[i] {
      LineHasNoNewline(txs[i]);
    }
    SplitJoin(ls, '\n');
  }

  /** The prompt sent to the model: `summary || placeholder` inside the template;
      the placeholder stands in exactly for an empty list. */
  function Prompt(txs: seq<Transaction>): (p: string)
    ensures txs == [] ==> p == PromptHead + Placeholder + PromptTail
    ensures txs != [] ==> p == PromptHead + Summary(txs) + PromptTail
  {
    var s := Summary(txs);
    PromptHead + (if s == "" then Placeholder else s) + PromptTail
  }

  datatype Request = Request(model: string, contents: string)

  /** How the call ends: an answer whose `text` may be undefined, or a thrown error. */
  datatype Reply = Answered(text: Option<string>) | Failed

  /** `getFinancialInsights`: one request with the prompt of these transactions;
      the reply's text when it answers, the fixed fallback when it throws. The
      function never fails itself. */
  function GetFinancialInsights(txs: seq<Transaction>, service: Request -> Reply): (r: Option<string>)
    ensures service(Request(ModelName, Prompt(txs))).Failed? ==> r == Some(Fallback)
    ensures service(Request(ModelName, Prompt(txs))).Answered? ==> r == service(Request(ModelName, Prompt(txs))).text
  {
    match service(Request(ModelName, Prompt(txs)))
    case Answered(text) => text
    case Failed => Some(Fallback)
  }
}
