# MoneyTracker ledger core in Dafny

This project models the ledger engine of the MoneyTracker personal-finance
application and proves properties of the model. The engine has three parts:

- **`Transaction`** (`transaction.dfy`, module `Transactions`): one recorded
  income or expense with eight fields. It is a value datatype. Each setter is
  an update function that returns the changed copy. The module also has the
  JSON object encoding (`toJson`/`fromJson`) and the two display helpers.
- **`TransactionManager`** (`transaction_manager.dfy`, module `Manager`): the
  store. It is a class whose `transactions` field is a sequence that its
  methods append to, remove from, clear and refill. The signals it emits are
  recorded in a ghost event log (`Changed`, `Added(t)`, `Deleted(id)`), in
  emission order.
- **`StatisticsCalculator`** (`statistics.dfy`, module `Statistics`): stateless
  accumulator loops. They group amounts by calendar month and year, by
  category and by day.

Every loop is a method proved against a recursive specification function.
`ledger.dfy` (module `Ledger`) defines those functions once, for the store and
the statistics together:

- `Total(s, window, side)` sums the amounts of the transactions in a window
  and on a side.
- `Net` subtracts the non-income sum from the income sum.
- `Select` is the order-preserving filter.

The window says which transactions a query looks at: a date range, an amount
range, a category, a calendar month, a year or a day. The side says which
kinds it adds up:

- `IncomeOnly` is the source's `== INCOME` test.
- `NonIncome` is the `else` branch that every other code falls into.
- `ExpenseOnly` is the expense breakdown's `== EXPENSE` test.

`timestamps.dfy` (module `Timestamps`) models the date-times. A date-time is
either invalid or a proleptic Gregorian calendar date with a second of the day.
It also has the ISO 8601 text form "YYYY-MM-DDTHH:MM:SS". `json.dfy` (module
`Json`) holds parsed JSON values and Qt's lenient value conversions.

Modelling choices:

- Amounts are exact `real` numbers.
- The transaction kind is a 32-bit integer code, with INCOME = 0 and
  EXPENSE = 1. `fromJson` casts any integer it reads into the enum, so codes
  outside 0 and 1 can occur. The model keeps them.
- An invalid date-time compares before every valid one and equal to another
  invalid one. This is the order of Qt 6's `QDateTime` comparison.
- The calendar date of an invalid date-time is the null date, whose year and
  month read as 0.
- Identifiers from `QUuid::createUuid()` are a parameter, `freshId`. This
  applies to both constructors, the not-found result of `getTransactionById`
  and `fromJson`, which starts from a default transaction.

## Model

| member | source | states |
|---|---|---|
| Transactions.DefaultTransaction | transaction.cpp:6-11 | the default transaction holds the fresh identifier, kind EXPENSE, amount 0, empty texts and an invalid timestamp |
| Transactions.NewTransaction | transaction.cpp:13-25 | every field is stored exactly as passed, next to a fresh identifier; this equals the default transaction with the seven setters applied |
| Transactions.Transaction.SetType | transaction.cpp:36 | the kind becomes the new value and every other field, the identifier included, is unchanged |
| Transactions.Transaction.SetAmount | transaction.cpp:37 | the amount becomes the new value and every other field is unchanged |
| Transactions.Transaction.SetFromAccount | transaction.cpp:38 | the source account becomes the new value and every other field is unchanged |
| Transactions.Transaction.SetToAccount | transaction.cpp:39 | the target account becomes the new value and every other field is unchanged |
| Transactions.Transaction.SetCategory | transaction.cpp:40 | the category becomes the new value and every other field is unchanged |
| Transactions.Transaction.SetMethod | transaction.cpp:41 | the payment method becomes the new value and every other field is unchanged |
| Transactions.Transaction.SetTimestamp | transaction.cpp:42 | the timestamp becomes the new value and every other field is unchanged |
| Transactions.ToJson | transaction.cpp:44-56 | the object has exactly the eight keys; `type` is the integer code, 0 for INCOME and 1 for EXPENSE (transaction.h:8-11); `timestamp` is the ISO 8601 text; `id` and the four texts are strings and `amount` a number holding the field's value |
| Transactions.FromJson | transaction.cpp:58-70 | the identifier is the one read from the object (empty when missing), not the default constructor's fresh one; the kind is the `toInt` of `type`, so INCOME when the key is missing; a number `amount` and string texts are copied in as they are, and a string `timestamp` is parsed as ISO 8601 text; an amount that is not a number reads as 0, a text that is not a string as "", and a timestamp that is not a string as invalid |
| Transactions.FromJsonToJson | transaction.cpp:44-70 | decoding an encoded transaction restores the identifier, kind, amount and the four texts for every transaction; it restores the timestamp too whenever its year fits the four-digit ISO form, and otherwise the timestamp comes back invalid |
| Timestamps.ParseFormat | transaction.cpp:54-68 | parsing the ISO text written for a date-time gives that date-time back (invalid, written as "", included) |
| Timestamps.FormatParse | transaction.cpp:54-68 | for the one ISO form the model parses, text that parses to a valid date-time is exactly the text formatting writes for it |
| Timestamps.FormatIso | transaction.cpp:54 | the text is empty exactly for an invalid date-time or a year outside 1..9999 |
| Timestamps.Le | transactionmanager.cpp:52 | an invalid date-time comes before every other; a valid one is never before an invalid one; a valid one before another valid one has a year no later |
| Timestamps.DateOf | statisticscalculator.cpp:109 | a valid date-time has a date with a nonzero year, a month in 1..12 and a day in 1..31; an invalid one has the null date, read as year, month and day 0 |
| Timestamps.ParseIso | transaction.cpp:68 | text that is not 19 characters long reads as invalid; a valid result comes only from text with the ISO separators at their places and has a year in 1..9999 |
| Json.ToText | transaction.cpp:61 | `toString()` gives the text of a string value, and a nonempty result only for a string value |
| Json.ToReal | transaction.cpp:63 | `toDouble()` gives the value of a number, and a nonzero result only for a number |
| Timestamps.LeIsTotalOrder | transactionmanager.cpp:52 | the date-time comparison the range tests use is reflexive, antisymmetric, transitive and total |
| Json.ToInt | transaction.cpp:62 | `toInt` stays in the 32-bit range and is nonzero only for a number equal to the result |
| Json.ToIntOfInt | transaction.cpp:48-62 | an integer code written as a number reads back as the same code |
| Transactions.TypeString | transaction.cpp:72-75 | "收入" exactly for INCOME, "支出" exactly for every other code |
| Transactions.DisplayAmount | transaction.cpp:77-81 | the text starts with "+ " exactly for INCOME and with "- " otherwise, followed by "¥ " |
| Manager.TransactionManager.constructor | transactionmanager.cpp:7-10 | a new manager holds no transactions and has emitted no signal |
| Manager.TransactionManager.AddTransaction | transactionmanager.cpp:12-17 | the list becomes the old list followed by the transaction, its length grows by 1, and the events Changed then Added(t) are appended |
| Manager.TransactionManager.DeleteTransaction | transactionmanager.cpp:19-30 | returns true exactly when some transaction has the identifier; the list becomes the old one without its first match, with Changed then Deleted(id) appended; otherwise nothing changes and no event is emitted |
| Manager.RemoveFirstEffect | transactionmanager.cpp:19-30 | without a match the list is unchanged; with one the length drops by 1, exactly that element leaves the multiset, the identifier's count drops by 1, and a later duplicate stays |
| Manager.DeleteRemovesId | transactionmanager.cpp:19-45 | with unique identifiers, after a deletion the identifier is gone, identifiers stay unique, and lookup returns the default transaction |
| Manager.FirstIndexOf | transactionmanager.cpp:21-22 | the index found is the first whose identifier matches, and it is in range exactly when one matches |
| Manager.TransactionManager.GetTransactions | transactionmanager.cpp:32-35 | the snapshot is the stored list |
| Manager.TransactionManager.GetTransactionById | transactionmanager.cpp:37-45 | the result is the first transaction with the identifier, or a default-constructed one when none has it |
| Manager.FindById | transactionmanager.cpp:37-45 | a found transaction is the first one in the list carrying the identifier; a missing one gives the default transaction |
| Manager.AddThenFind | transactionmanager.cpp:12-45 | a transaction added to a list without its identifier is what lookup by that identifier then returns |
| Manager.AddKeepsUnique | transactionmanager.cpp:12-17 | adding keeps identifiers unique exactly when the new identifier is not yet present, since adding checks for nothing |
| Manager.TransactionManager.FilterByDate | transactionmanager.cpp:47-57 | the result is the order-preserving selection of transactions with start <= timestamp <= end |
| Manager.TransactionManager.FilterByAmount | transactionmanager.cpp:59-69 | the result is the order-preserving selection of transactions with min <= amount <= max |
| Manager.TransactionManager.FilterByCategory | transactionmanager.cpp:71-80 | the result is the order-preserving selection of transactions whose category is exactly the given one |
| Ledger.Select | transactionmanager.cpp:47-80 | a selection is no longer than the list and each of its elements passes the test |
| Ledger.SelectCount | transactionmanager.cpp:47-80 | each transaction that passes the test occurs in the selection as often as in the list, and no other transaction occurs in it |
| Ledger.SelectSubsequence | transactionmanager.cpp:47-80 | the selection keeps the list's order |
| Ledger.SelectIdempotent | transactionmanager.cpp:47-80 | filtering a filtered list again with the same test changes nothing |
| Ledger.SelectTotal | transactionmanager.cpp:47-89 | the total of a filtered list is the sum over the filter's window |
| Manager.TransactionManager.CalculateTotalAmount | transactionmanager.cpp:82-89 | the result is the sum of all amounts, whatever their kind |
| Manager.TransactionManager.CalculateBalance | transactionmanager.cpp:91-102 | the result is the INCOME sum minus the sum over every other kind |
| Ledger.TotalMinusBalance | transactionmanager.cpp:82-102 | the total minus the balance is twice the sum of the non-income amounts |
| Ledger.TotalSplit | transactionmanager.cpp:82-102 | the kind-blind sum is the income sum plus the sum over every other kind |
| Ledger.TwoKinds | statisticscalculator.cpp:72-84 | when every code is INCOME or EXPENSE, the `else` branch and the `== EXPENSE` test sum to the same amount |
| Ledger.TotalConcat | transactionmanager.cpp:82-89 | sums over two lists joined end to end add up |
| Ledger.NetConcat | transactionmanager.cpp:91-102 | the balance of two joined lists is the sum of their balances; an empty list has balance 0 and one transaction contributes its signed amount |
| Manager.BalanceAfterChange | transactionmanager.cpp:91-102 | adding a transaction moves the balance by its signed amount, and deleting one moves it back by the removed one's signed amount |
| Manager.TransactionManager.ToDocument | transactionmanager.cpp:104-111 | the array written holds `toJson` of each transaction, in order |
| Manager.TransactionManager.LoadFromDocument | transactionmanager.cpp:132-147 | a document that is not an array returns false and changes nothing; otherwise the list becomes the decoded objects in order and exactly one Changed is emitted |
| Manager.LoadAfterSave | transactionmanager.cpp:104-147 | loading the array written for a list whose timestamps fit the four-digit ISO form gives the same list back |
| Manager.EncodeAllElements | transactionmanager.cpp:106-109 | the saved array has one element per transaction, the object `toJson` writes for the transaction at the same index |
| Manager.DecodeAllObjects | transactionmanager.cpp:138-144 | an array of objects loads one transaction per element, `fromJson` of the object at the same index |
| Manager.LoadSkipsOnlyNonObjects | transactionmanager.cpp:139-144 | every loaded transaction is decoded from one object of the array, no more transactions than elements result, an array of objects loses none, and removing any non-object element leaves the loaded list unchanged, so the load carries on past it |
| Manager.DecodeAllConcat | transactionmanager.cpp:139-144 | loading the concatenation of two arrays gives the first array's transactions followed by the second's |
| Manager.DropNonObject | transactionmanager.cpp:139-144 | a non-object element is skipped: the elements before and after it load as if it were absent |
| Manager.TransactionManager.ClearAll | transactionmanager.cpp:150-154 | the list is empty and Changed is emitted even when it already was empty |
| Manager.TransactionManager.GetTransactionCount | transactionmanager.cpp:156-159 | the count is the length of the list |
| Statistics.CalculateTotalAmount | statisticscalculator.cpp:9-16 | the result is the sum of all amounts, and 0 for an empty list |
| Ledger.IsTransactionInMonth | statisticscalculator.cpp:121-125 | a transaction in a month of a year other than 0 has a valid timestamp and the month is in 1..12 |
| Ledger.IsTransactionInYear | statisticscalculator.cpp:127-130 | a transaction in a year other than 0 has a valid timestamp whose month is in 1..12 |
| Statistics.CalculateMonthlyStats | statisticscalculator.cpp:18-34 | `totalIncome` is the INCOME sum of the month, `totalExpense` the sum of every other kind in it, and `netAmount` their difference |
| Statistics.MonthWithoutMatches | statisticscalculator.cpp:18-34 | a month that no transaction falls in has all-zero statistics, the struct's defaults (statisticscalculator.h:14) |
| Statistics.MonthlyExample | statisticscalculator.cpp:18-34 | with incomes of 100 and 10 and an expense of 40, the March statistics are 100, 40 and 60; the April income is excluded |
| Statistics.CalculateYearlyStats | statisticscalculator.cpp:36-58 | the monthly data has exactly the keys 1..12, each entry equals that month's statistics, and the separately summed year totals equal the sums of the twelve entries for every year but 0 |
| Statistics.MonthlyDataOf | statisticscalculator.cpp:40-43 | the first pass gives exactly the keys 1..12, each holding that month's statistics |
| Statistics.YearTotalsOf | statisticscalculator.cpp:45-54 | the second pass gives the year's INCOME sum and the sum of every other kind in that year |
| Statistics.YearIsSumOfMonths | statisticscalculator.cpp:36-58 | for a year other than 0, the yearly sum of a side equals the sum of the twelve monthly sums, because each transaction of the year lies in exactly one month |
| Statistics.YearZeroCounterexample | statisticscalculator.cpp:121-130 | for year 0 an invalid timestamp counts in the yearly total but in no month, so the two passes disagree |
| Statistics.MonthsMatchData | statisticscalculator.cpp:40-43 | the sums of the stored monthly entries are the sums of the monthly sums |
| Statistics.GroupByCategory | statisticscalculator.cpp:60-98 | the grouping loop's map is, for each category of a counted transaction, the sum of the counted amounts in it |
| Statistics.CalculateCategoryBreakdown | statisticscalculator.cpp:60-70 | the map sends each category occurring in the list to the sum of its amounts, whatever their kind |
| Statistics.CalculateExpenseByCategory | statisticscalculator.cpp:72-84 | the same grouping over the transactions whose code is EXPENSE |
| Statistics.CalculateIncomeByCategory | statisticscalculator.cpp:86-98 | the same grouping over the INCOME transactions |
| Statistics.CategoryMapKeys | statisticscalculator.cpp:60-98 | a category is a key exactly when some transaction of the grouped kind has it |
| Statistics.CategoryMapSnoc | statisticscalculator.cpp:60-98 | one more grouped transaction adds its amount to its category's entry, which starts at 0 when absent; an ungrouped one changes nothing |
| Statistics.BreakdownIsExpensePlusIncome | statisticscalculator.cpp:60-98 | with only INCOME and EXPENSE codes, the breakdown's keys are the union of the expense and income keys, and each value is the expense value plus the income value, an absent key counting as 0 |
| Statistics.CategoryExample | statisticscalculator.cpp:60-70 | amounts 50 and 30 in "食品" and 20 in "交通" give exactly "食品" -> 80 and "交通" -> 20 |
| Statistics.CalculateDailyTrend | statisticscalculator.cpp:100-119 | each date of a transaction within [start, end] maps to that single day's INCOME sum minus its other amounts |
| Statistics.DailyMapKeys | statisticscalculator.cpp:100-119 | a date is a key exactly when some transaction within [start, end] falls on it |
| Statistics.DailyMapSnoc | statisticscalculator.cpp:108-114 | one more transaction within the range adds its signed amount to its date's entry, which starts at 0 when absent; one outside changes nothing |
| Statistics.SameDayIncomes | statisticscalculator.cpp:100-119 | two incomes on the same day in range give one entry holding their sum |

## Left out

- File handling in `saveToFile`/`loadFromFile` (transactionmanager.cpp:112-131) is I/O and is not modelled. So is the JSON text that `QJsonDocument` writes and parses. The model starts from, and ends at, a parsed JSON value.
- The ISO 8601 pair covers only the form "YYYY-MM-DDTHH:MM:SS". Qt also reads a date alone, a time without seconds, fractions of a second, time zone offsets and a few other variants. Date-times carry no milliseconds and no time zone here.
- Transactions.FromJsonToJson: a timestamp whose year lies outside 1..9999 does not survive the round trip. Qt writes no ISO text for such a year, so it reads back invalid. The source's round trip also drops milliseconds, because `Qt::ISODate` never writes them; a timestamp from the `QDateTime::currentDateTime()` default (transaction.h:19) usually has some. The model's date-times have no milliseconds, so it cannot express that loss.
- Manager.LoadAfterSave: for the same reason, it requires every timestamp to fit the four-digit ISO form. Saving and loading in the source also drops the milliseconds of every timestamp, which the model cannot express.
- Statistics.CalculateYearlyStats: the yearly totals equal the sum of the monthly entries only for a year other than 0. Year 0 is the year of the null date, so the yearly pass counts invalid timestamps while no month does. Statistics.YearZeroCounterexample shows the difference.
- Timestamps.FormatParse: the converse direction is a property of the narrowed parser. Qt's `fromString` with `Qt::ISODate` also accepts texts such as "2024-03-05", "2024-03-05T10:00" and "2024-03-05T10:00:00.5", which it does not write back the same way.
- The order of an invalid `QDateTime` before every valid one is the model's assumption about Qt's comparison. The date-range filter and the daily trend use it.
- `QUuid::createUuid()` is a random source. Fresh identifiers are a parameter, `freshId`.
- `QDateTime::currentDateTime()`, the default timestamp argument of the explicit constructor (transaction.h:19), is not modelled. The caller passes a timestamp.
- Floating point: amounts are exact reals, so the rounding of `double` sums is not modelled.
- Transactions.DisplayAmount: its contract states the sign prefix and the currency symbol, not the digits. The body writes the amount with two decimals, rounding half away from zero. `QString::arg(double, 0, 'f', 2)` does the same up to binary floating-point representation.
- Signal and slot dispatch and `QObject` parent ownership are not modelled. Only the order of the emitted signals is recorded, in the ghost `events` log.
- The getters are the datatype's field selectors. They hold no behaviour of their own.
- Manager.TransactionManager.GetTransactionCount returns an unbounded `int`. Under Qt 6 the list's size is a 64-bit `qsizetype`, and `getTransactionCount` narrows it to `int`; that narrowing is not modelled.
- The three category breakdowns share one accumulation method, `Statistics.GroupByCategory`. It is given which kinds to count, where the source repeats the loop three times with three tests.
- The two passes of `calculateYearlyStats` are the methods `Statistics.MonthlyDataOf` and `Statistics.YearTotalsOf`. `Statistics.CalculateYearlyStats` calls them in the source's order.
- mainwindow.cpp and mainwindow.h are the user interface and are not part of this model.
