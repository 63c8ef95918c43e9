# WealthWay budgeting core in Dafny

WealthWay is a single-page budgeting app. It keeps a list of income and expense
transactions. It shows the transactions of one month as a financial snapshot,
a calendar grid with daily figures and a newest-first history. It also builds
a text summary of the month for a generative-text service. This project models
the bookkeeping under the user interface and proves properties of that model:

- **Store and month view** (`App.dfy`). The component's state is the class
  `AppState`, with fields `transactions`, `currentDate` and `theme`. Its methods
  add a transaction under an id, delete by id, toggle the theme, move the month
  pointer and submit the entry form. Pure functions give the initial theme, the
  initial store, the month filter, the snapshot and the Surplus/Deficit label.
- **Calendar** (`CalendarView.dfy`, with `Dates.dfy`). It covers Gregorian month
  lengths and weekdays, and the blank cells before day 1. Each day has a
  zero-padded `YYYY-MM-DD` key that selects that day's transactions and sums
  their income and expenses. The days partition the month. Month length, first
  weekday and the today flag come from `new Date(y, m, d)`, so they follow that
  constructor's reading of years 0 to 99 as 1900 to 1999.
- **History** (`ExpenseList.dfy`, with the generic `Sorting.dfy`). A stable sort
  of a copy orders the list newest date first. The module also has the
  empty-state branch, the count badge and the sign shown for each type.
- **Entry form** (`ExpenseForm.dfy`). The class `FormState` holds the four fields
  and a handler for each input. The submit handler checks the fields, emits a
  record and clears name and amount.
- **Prompt builder** (`GeminiService.dfy`). It writes one line per transaction
  and joins the lines with newlines. An empty list gets a placeholder. A failed
  call gets a fixed fallback text.

Shared pieces:

- `Types.dfy`: the records of `types.ts`.
- `Totals.dfy`: the filter-by-type-and-sum idiom used by both the snapshot and
  the calendar.
- `Text.dfy`: JavaScript's `String(n)`, `padStart`, `toUpperCase`, `join` and
  `split`.
- `Seqs.dfy`: `filter` and the subsequence relation.

Amounts are whole cents (`int`). Months are 0-based, as `getMonth` returns them.
Anything the code gets from the browser or the network is a parameter:

- the saved strings;
- the system theme preference;
- today's date;
- the fresh id;
- `JSON.parse`, `parseFloat` and the model call.

The transaction initialiser (`App.tsx:13`) calls `JSON.parse` without a `try`, so a broken saved list is an
uncaught error. `App.LoadTransactions` returns `None` in that case, and the
`AppState` constructor requires the list to decode.

## Model

| member | source | states |
|---|---|---|
| Types.TypeName | types.ts:2 | the type's literal is `"income"` exactly for income and `"expense"` otherwise |
| Text.NatToString | components/CalendarView.tsx:18 | `String(n)` is a non-empty string of decimal digits, one digit exactly when n < 10 |
| Text.NatToStringValue | components/CalendarView.tsx:18 | reading back the digits `String(n)` writes gives n |
| Text.NatToStringCanonical | components/CalendarView.tsx:18 | a digit string without a leading zero is exactly what `String` writes for its value |
| Text.PadStart | components/CalendarView.tsx:18 | `padStart` gives length max(width, \|s\|), ends with s, and has only the fill character before it |
| Text.ToUpper | services/geminiService.ts:9 | `toUpperCase` on ASCII text keeps the length, turns lower-case letters into capitals and keeps every other character |
| Text.Split | components/ExpenseForm.tsx:12 | `split` always yields at least one piece |
| Text.SplitJoin | services/geminiService.ts:10 | splitting a newline join again gives back the parts, when no part contains the separator |
| Text.JoinStartsWithFirst | services/geminiService.ts:10 | a join begins with its first part |
| Seqs.FilterSelects | App.tsx:50-53 | `filter` returns an order-preserving subsequence with one element per position that satisfies the test |
| Seqs.FilterMembers | App.tsx:50-53 | every kept element satisfies the test and every input element that satisfies it is kept |
| Seqs.FilterConcat | App.tsx:57-58 | filtering distributes over concatenation |
| Seqs.FilterIdempotent | App.tsx:50-53 | filtering twice with one test equals filtering once |
| Sorting.SortBy | components/ExpenseList.tsx:11 | the sort by a comparator returns a permutation of its input: same multiset and length |
| Sorting.SortIsDescending | components/ExpenseList.tsx:11 | when the comparator is `key(b) - key(a)` on every element, the result has non-increasing keys |
| Sorting.SortIsStable | components/ExpenseList.tsx:11 | when only elements of different keys compare unequal, the elements of every key keep their input order |
| Dates.DaysInMonth | components/CalendarView.tsx:11 | a month of the Gregorian calendar has 28 to 31 days |
| Dates.YearLength | components/CalendarView.tsx:11 | a year has 366 days exactly under the leap rule (divisible by 4, and not by 100 unless by 400), else 365 |
| Dates.MonthStarts | components/CalendarView.tsx:11 | the table of month starts agrees with the month lengths |
| Dates.DayBeforeNextMonth | components/CalendarView.tsx:11 | in the Gregorian calendar, day 0 of month m + 1 (the day before its first) is day DaysInMonth(y, m) of month m |
| Dates.Weekday | components/CalendarView.tsx:12 | `getDay()` is in 0..6 |
| Dates.WeekdayOfDay | components/CalendarView.tsx:12 | within a month the weekday advances by one per day |
| Dates.NextMonthWeekday | components/CalendarView.tsx:12 | the next month starts on this month's first weekday moved on by the month's length |
| Dates.WeekdayAnchors | components/CalendarView.tsx:12 | 1 January 1970 was a Thursday and 1 March 2024 a Friday (0 = Sunday) |
| Dates.NextMonth | App.tsx:74 | the next month has a month in 0..11 and a month index one larger |
| Dates.DayNumberOrder | components/ExpenseList.tsx:11 | on valid dates, day numbers (and so `getTime()`) follow calendar order, strictly and for equality |
| Dates.ParseIsoDate | App.tsx:51 | a parsed date is a valid calendar day of a year from 0 on; every other string is an invalid date |
| CalendarView.FirstDayOfMonth | components/CalendarView.tsx:12 | the weekday of day 1 lies in 0..6 and, outside years 0..99, is the weekday of day 1 of the viewed year and month |
| CalendarView.MonthLength | components/CalendarView.tsx:11 | `daysInMonth` lies in 28..31; February has 29 days exactly in a leap year of the constructor's reading of the year; every other month has its Gregorian length |
| CalendarView.MonthLengthIsLastDay | components/CalendarView.tsx:11 | `daysInMonth` is the date of the day before the first of the next month, as `new Date(y, m + 1, 0)` computes it |
| CalendarView.TwoDigitYearCalendar | components/CalendarView.tsx:11-12 | as written, February of year 0 gets 28 days although year 0 is a leap year, and December of year 99 starts on the Wednesday of December 1999 rather than its own Tuesday |
| CalendarView.Days | components/CalendarView.tsx:14 | `days` is exactly 1, 2, ..., n |
| CalendarView.Blanks | components/CalendarView.tsx:15 | the padding has exactly `firstDayOfMonth` empty cells |
| CalendarView.Grid | components/CalendarView.tsx:40-44 | the grid is exactly `firstDayOfMonth` blank cells followed by the days 1..daysInMonth in order |
| CalendarView.GridColumns | components/CalendarView.tsx:12-15 | day d sits in the column of its weekday, in the year the constructor reads |
| CalendarView.Pad2Value | components/CalendarView.tsx:18 | below 100, `String(n).padStart(2, '0')` is two digits that read back as n |
| CalendarView.DayKey | components/CalendarView.tsx:18 | the key of a day is the year, the padded month and the padded day; DayKeyRoundTrip, DayKeyCanonical and DayKeyInjective state what it means |
| CalendarView.DayTransactions | components/CalendarView.tsx:17-20 | a day's selection has no more elements than the list, each dated with the day's key |
| CalendarView.DailyExpense | components/CalendarView.tsx:46 | the day's expense figure is 0 when no transaction carries the key, and never negative when no amount is |
| CalendarView.DailyIncome | components/CalendarView.tsx:47 | the day's income figure is 0 when no transaction carries the key, and never negative when no amount is |
| CalendarView.ShowsAmount | components/CalendarView.tsx:56-61 | a figure is shown exactly when it is strictly positive, so zero and negative sums are hidden; by EmptyDayHasZeroSums an empty day shows neither |
| CalendarView.IsToday | components/CalendarView.tsx:48 | a flagged day has today's year (the constructor's reading of the viewed year), month and day, and no today in a year from 0 to 99 is ever flagged, because the constructor reads the viewed year as 1900 + y |
| CalendarView.TodayIsFlagged | components/CalendarView.tsx:48 | when the viewed month is today's month, today's day is one of the month's cells and that cell is flagged |
| CalendarView.DayKeyRoundTrip | components/CalendarView.tsx:18 | for a four-digit year, the zero-padded key of a valid day parses back to that day |
| CalendarView.DayKeyCanonical | components/CalendarView.tsx:18-19 | a date string that parses to a day of a year from 1000 on is exactly that day's key |
| CalendarView.DayKeyInjective | components/CalendarView.tsx:18 | different days of a month have different keys, for every year |
| CalendarView.DayTransactionsSelect | components/CalendarView.tsx:17-20 | a day's selection is the order-preserving subsequence of exactly the transactions whose date string equals the key |
| CalendarView.EmptyDayHasZeroSums | components/CalendarView.tsx:46-47 | a day without transactions has 0 income and 0 expense, and neither figure is shown |
| CalendarView.AtMostOneToday | components/CalendarView.tsx:48 | at most one day of the month is today |
| CalendarView.DaysTotalConcat | components/CalendarView.tsx:46-47 | the daily figures summed over the days are additive over the transaction list |
| CalendarView.DaysPartitionMonth | components/CalendarView.tsx:44-47 | when every transaction is dated in the viewed month of a year from 1000 on, the daily figures of one type summed over 1..daysInMonth equal that type's month total |
| ExpenseList.SortedTransactions | components/ExpenseList.tsx:11 | the history is a permutation of the month's transactions, made from a copy |
| ExpenseList.CompareIsTimeDifference | components/ExpenseList.tsx:11 | between valid dates the comparator is `time(b) - time(a)` |
| ExpenseList.TimeValue | components/ExpenseList.tsx:11 | a transaction has a time exactly when its date parses, and the time is a whole number of days in milliseconds |
| ExpenseList.Compare | components/ExpenseList.tsx:11 | the comparator is positive exactly when both dates are valid and b is later, negative exactly when both are valid and a is later |
| ExpenseList.SortedIsNewestFirst | components/ExpenseList.tsx:11 | for valid dates the history's times never increase |
| ExpenseList.SortedByDateNewestFirst | components/ExpenseList.tsx:11 | for valid dates no row's date comes before the date of a row below it |
| ExpenseList.SortIsStableByTime | components/ExpenseList.tsx:11 | transactions with the same time (one date, or all invalid dates) keep their input order |
| ExpenseList.ShowsEmptyState | components/ExpenseList.tsx:13-23 | the empty state is shown exactly when there are no transactions |
| ExpenseList.CountBadge | components/ExpenseList.tsx:30 | the badge equals the number of rows of the history |
| ExpenseList.Sign | components/ExpenseList.tsx:47 | the sign is `+` exactly for income and `-` for expense |
| ExpenseForm.GuardTestsEmptinessOnly | components/ExpenseForm.tsx:17 | a blank name and a zero amount pass the guard, while an empty name, amount or date does not |
| ExpenseForm.PassesGuard | components/ExpenseForm.tsx:17 | the submit proceeds exactly when name, amount and date are all non-empty; GuardTestsEmptinessOnly gives examples |
| ExpenseForm.FormState.constructor | components/ExpenseForm.tsx:10-13 | the form starts with empty name and amount, the date part (before `T`) of the current ISO time and type expense |
| ExpenseForm.FormState.SetName | components/ExpenseForm.tsx:61 | the name becomes the input's value and nothing else changes |
| ExpenseForm.FormState.SetAmount | components/ExpenseForm.tsx:74 | the amount becomes the input's value and nothing else changes |
| ExpenseForm.FormState.SetDate | components/ExpenseForm.tsx:85 | the date becomes the input's value and nothing else changes |
| ExpenseForm.FormState.SetType | components/ExpenseForm.tsx:42-48 | the type becomes the chosen one and nothing else changes |
| ExpenseForm.FormState.Submit | components/ExpenseForm.tsx:15-29 | with an empty field, nothing changes and nothing is emitted; otherwise exactly one record with the fields, the parsed amount and category `General` is emitted, then name and amount are cleared and date and type kept |
| GeminiService.AmountTextRoundTrip | services/geminiService.ts:9 | the amount text reads back as the amount |
| GeminiService.AmountText | services/geminiService.ts:9 | the amount text is never empty and starts with a minus sign exactly for a negative amount |
| GeminiService.SummaryLine | services/geminiService.ts:9 | a line is the date, `: `, `INCOME` or `EXPENSE`, ` - `, the name and the amount in `($…)` |
| GeminiService.Summary | services/geminiService.ts:8-10 | the summary is empty exactly when the list is |
| GeminiService.Lines | services/geminiService.ts:8-9 | one line per transaction, in input order |
| GeminiService.UpperLabel | services/geminiService.ts:9 | the type renders as `INCOME` or `EXPENSE` |
| GeminiService.LineHasNoNewline | services/geminiService.ts:9 | a line contains a newline only where the date or the name does |
| GeminiService.SummaryLinesRoundTrip | services/geminiService.ts:8-10 | splitting the summary at newlines gives back the lines, when no date or name contains a newline |
| GeminiService.Prompt | services/geminiService.ts:12-19 | the prompt embeds the placeholder exactly for an empty list and the summary otherwise |
| GeminiService.GetFinancialInsights | services/geminiService.ts:21-30 | one request with the model name and the prompt; the reply's text when it answers and exactly the fallback text when the call throws |
| App.Toggle | App.tsx:35 | toggling always changes the theme |
| App.ToggleInvolution | App.tsx:35 | toggling twice restores the theme |
| App.LoadTheme | App.tsx:16-20 | a saved `dark` or `light` wins; anything else falls back to the system preference |
| App.LoadTransactions | App.tsx:11-14 | a missing or empty saved string gives the empty list; anything else is what the decoder returns, including its failure |
| App.MonthFilter | App.tsx:49-54 | the month's list is no longer than the store and every element is dated in the viewed month |
| Dates.DateInMonth | App.tsx:51-52 | a date string lies in a month only if the month is in 0..11 and the year is not negative; malformed strings lie in none |
| App.MonthFilterSpec | App.tsx:49-54 | the month's list is the order-preserving subsequence of exactly the transactions dated in the viewed year and month, with none whose date does not parse |
| App.MonthFilterIdempotent | App.tsx:49-54 | filtering a month's list again changes nothing |
| App.Summarize | App.tsx:56-64 | income and expenses are the totals of their types and the balance is their difference |
| App.SummarizeEmpty | App.tsx:56-64 | the empty list gives (0, 0, 0) |
| App.SummarizeAdditive | App.tsx:57-58 | the totals of a concatenation are the sums of the totals |
| Totals.SumAmounts | App.tsx:57-58 | the `reduce` sum of amounts is never negative when no amount is |
| Totals.TotalOf | App.tsx:57-58 | the total of one type is never negative when no amount is |
| Totals.TotalsPartition | App.tsx:57-58 | the income total plus the expense total is the sum of all amounts |
| App.BalanceIsSignedSum | App.tsx:56-64 | the balance equals the signed sum of all amounts (income up, expenses down) |
| App.BalanceLabel | App.tsx:146-147 | the label is `Surplus` exactly when the balance is at least 0, `Deficit` otherwise |
| App.CoffeeAndSalaryScenario | App.tsx:49-64 | a $4.50 coffee on 2024-03-05 and a $3000 salary on 2024-03-01, viewed in March 2024, give income 3000, expenses 4.50, balance 2995.50 and the label `Surplus` |
| App.ShiftMonth | App.tsx:73-75 | the new date is day 1 of a valid month whose index year*12 + month is the old index plus the offset |
| App.ShiftOneIsNextMonth | App.tsx:73-75 | a shift by one lands on the next calendar month, with December followed by January of the next year |
| App.ShiftMonthInverse | App.tsx:73-75 | shifting by an offset and back returns to day 1 of the starting month |
| App.ChangeMonthAsWritten | App.tsx:74 | as written, the new date is day 1 of a valid month whose index is the old index plus the offset, plus 1900 years when the old year is from 0 to 99 |
| App.ChangeMonthAsWrittenJumps | App.tsx:74 | as written, one month back from January of year 100 reaches December of year 99, and one month forward from there lands in January 2000, not January of year 100 |
| Dates.MakeFullYear | App.tsx:74 | the constructor's year is 1900 + y for an argument y from 0 to 99 and the argument itself outside 0..99; it keeps the last two digits and is never a year from 0 to 99 |
| App.ChangeMonthAgreesOutsideTwoDigitYears | App.tsx:74 | outside years 0..99 the code as written and the corrected shift agree |
| App.WithoutSpec | App.tsx:45-47 | deleting keeps, in order, exactly the transactions with other ids |
| App.Without | App.tsx:46 | the remaining list is no longer than before and holds no transaction with the id |
| Types.WithId | App.tsx:38-41 | the new transaction carries the given id and, without it, is exactly the form's record |
| App.WithoutAbsent | App.tsx:45-47 | deleting an absent id leaves the list unchanged |
| App.AddThenDelete | App.tsx:37-47 | adding under a fresh id and deleting that id restores the list |
| App.AddKeepsIdsDistinct | App.tsx:37-43 | appending under a fresh id keeps the ids distinct |
| App.DeleteKeepsIdsDistinct | App.tsx:45-47 | deleting keeps the ids distinct |
| App.CalendarMatchesSnapshot | App.tsx:56-58 | for a four-digit year, the calendar's daily income and expense figures summed over the month equal the snapshot's income and expenses |
| App.AppState.constructor | App.tsx:11-20 | the state starts with the loaded list, today's date and the loaded theme |
| App.AppState.MonthTransactions | App.tsx:49-54 | every transaction of the viewed month is dated in that month, and there are no more of them than in the store |
| App.AppState.Snapshot | App.tsx:56-64 | the viewed month's balance is the signed sum of its amounts |
| App.AppState.ToggleTheme | App.tsx:35 | the theme is toggled and nothing else changes |
| App.AppState.AddTransaction | App.tsx:37-43 | the list becomes the old list plus one last element carrying every input field and the id; distinct ids stay distinct when the id is fresh |
| App.AppState.DeleteTransaction | App.tsx:45-47 | the list loses exactly the transactions with the id, keeping the others in order, and distinct ids stay distinct |
| App.AppState.ChangeMonth | App.tsx:73-75 | the month pointer moves to day 1 of the month `offset` months away, a shift by `-offset` leads back to day 1 of the starting month, and nothing else changes |
| App.AppState.SubmitForm | App.tsx:140 | a form submit that passes the guard appends exactly the emitted record under the id and leaves the form with name and amount cleared, date and type kept (`components/ExpenseForm.tsx:26-27`); otherwise the list and all four form fields are unchanged |

## Left out

- Rendering is not modelled: JSX, styles, icons and the pie chart (`App.tsx:66-71` and the markup).
- Browser storage is reduced to the saved strings as parameters. The writes back to `localStorage` and the `dark` class on the document (`App.tsx:22-33`) are browser I/O.
- `crypto.randomUUID` is not modelled. The id is a parameter, and contracts that depend on it being fresh say so in their hypothesis.
- `JSON.parse` and `JSON.stringify` are not modelled. The decoder is a parameter, and its `None` stands for a parse error.
- `parseFloat` is not modelled. `FormState.Submit` takes the amount parser as a parameter.
- Floating point is not modelled: amounts are integer cents, so IEEE-754 rounding in the sums, `toFixed` and `toLocaleString` are out.
- GeminiService.AmountText: written for amounts with at most two decimal places. JavaScript's exponent notation for very large numbers is not modelled.
- Dates.ParseIsoDate: accepts only the form `YYYY-MM-DD` naming a real day. The other formats that `new Date(string)` accepts are treated as invalid dates. So are some that engines accept, such as a date with a time or an overflowing day.
- Time zones are not modelled. A date string is read as its calendar fields, and `getMonth` and `getDay` are taken on those fields.
- The clock is a parameter. The current ISO time for the form and today's date for the month pointer and `isToday` are passed in.
- CalendarView.DaysPartitionMonth: holds only for years from 1000 on. `String(year)` writes fewer than four digits below 1000, so such day keys never equal a four-digit stored date.
- ExpenseList.SortIsStableByTime: JavaScript fixes the sort's order only for a consistent comparator. A list mixing valid and invalid dates makes `compareFn` inconsistent, and engines may then order differently. The model's stable insertion sort is one such order.
- ExpenseList.SortedByDateNewestFirst: needs every date in the list to be valid.
- App.AppState.constructor: requires the saved list to decode, because the source's initialiser lets a parse error escape.
- App.AppState.ChangeMonth: uses the corrected `ShiftMonth`, not the two-digit-year behaviour recorded under Findings.
- Text.ToUpper: covers ASCII letters only. JavaScript's full Unicode case mapping (for example 'é' to 'É', or 'ß' to 'SS', which changes the length) is not modelled. The only strings upper-cased are `income` and `expense`.
- The console logging in the service's catch branch is not modelled.
- The Gemini client and the network call are not modelled. The call is the `service` parameter.
- `components/Insights.tsx` is left out: its loading flag, effects and request ordering are asynchrony.

## Findings

| source | as written | input that shows it | evidently intended | confidence | as-written member | corrected member |
|---|---|---|---|---|---|---|
| App.tsx:74 | The year goes back through `new Date(year, month, 1)`, which reads a year from 0 to 99 as 1900 to 1999. The same reading reaches the calendar (`components/CalendarView.tsx:11-12,48`), which draws a month of year y from 0 to 99 as the month of 1900 + y (CalendarView.TwoDigitYearCalendar). | `changeMonth(-1)` from January of year 100 shows December of year 99, which the calendar lays out as December 1999; `changeMonth(1)` from there shows January 2000. | January of year 100: the month index moves by the offset. | not executed | App.ChangeMonthAsWrittenJumps | App.ShiftMonth |
