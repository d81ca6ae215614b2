# Budget tracker ledger, modelled in Dafny

The budget tracker is a single-page widget. It keeps a list of transactions
`{id, text, amount}` in memory and writes the list to the browser's storage
after every change. It shows each entry as a "plus" or "minus" row, and a
panel with the balance, the income and the expense.
This project models the logic of `script.js`:

- the list and its three changes: add (the form's submit handler), remove
  (`removeTransaction`, a filter on the id) and clear;
- the write-through to the storage slot;
- the figures of `updateValues`: income is the sum of the positive amounts,
  expense the sum of the negative ones, and the balance is their sum;
- `formatAmount`, the row class and the three panel labels;
- the rows handed to the spreadsheet writer.

Modules:

- `Text` (text.dfy): `String.prototype.trim` over the ECMAScript whitespace and line-terminator code points.
- `Money` (money.dfy): `toFixed(2)`, `formatAmount`, the row class and the panel labels.
- `Transactions` (transactions.dfy): the `Transaction` record and the id filter.
- `Aggregates` (aggregates.dfy): the income, expense and balance folds, and the panel texts.
- `Store` (store.dfy): the `Ledger` class. It holds the list and the storage slot, and its methods are add, remove and clear.
- `Export` (export.dfy): the sheet rows.
- `Session` (session.dfy): a salary-then-rent session driven through the class.
- `Wrappers` (wrappers.dfy): `Option`.

Amounts are exact `real` numbers. `toFixed(2)` is modelled as ECMAScript
defines it on the exact value: pick the integer n for which n/100 is nearest
to x, taking the larger n on a tie, then write a leading minus for x < 0.
The functions are proved against independent definitions that read a
displayed text back into a number.

Three points where the code does not do what a reader might expect, modelled as the code behaves:
- Ids come from `Date.now()` and are not unique. Removing an id therefore drops every entry that carries it, not at most one.
- Add rejects only a NaN amount. An infinite amount would pass.
- Loading does not recover from a malformed stored value: `JSON.parse` would throw. A missing value, or stored JSON that parses to `null`, `0`, `false` or an empty string, falls back to the empty list; any other stored value is taken as the list.

## Model

| member | source | states |
|---|---|---|
| Text.TrimStart | script.js:44 | the result is a suffix of the input, everything dropped is whitespace, and the result does not start with whitespace |
| Text.TrimEnd | script.js:44 | the result is a prefix of the input, everything dropped is whitespace, and the result does not end with whitespace |
| Text.Trim | script.js:44 | the trimmed description neither starts nor ends with whitespace and is no longer than the input |
| Text.TrimSplits | script.js:44 | the input is leading whitespace, then the trimmed text as a contiguous slice, then trailing whitespace |
| Text.TrimEmptyIff | script.js:44-47 | the trimmed description is empty exactly when the input is all whitespace, which is when the form is refused for its text |
| Text.TrimIdempotent | script.js:44 | trimming an already trimmed description changes nothing |
| Text.TrimUnchanged | script.js:44 | a description without whitespace at either end is stored exactly as typed |
| Money.NatDigits | script.js:27 | the digits of a whole number are decimal digits, with no leading zero |
| Money.DigitsRoundTrip | script.js:27 | reading back the printed digits of n gives n |
| Money.Cents | script.js:27 | toFixed(2) rounds to the nearest cent, and a tie goes to the larger value |
| Money.Fixed | script.js:27 | toFixed(2) of a non-negative value starts with a digit and has at least four characters |
| Money.FixedShape | script.js:27 | toFixed(2) of a non-negative value is integer digits without a leading zero, a point and two digits, and it has no minus sign |
| Money.FixedOfWhole | script.js:27 | toFixed(2) of a whole number is its digits followed by ".00" |
| Money.FixedRoundTrip | script.js:27 | the text toFixed(2) prints reads back as the value rounded to cents, within half a cent of it |
| Money.ToFixed2 | script.js:106-108 | toFixed(2) starts with a minus sign exactly when the value is negative |
| Money.FormatAmount | script.js:26-28 | the text starts with "R" exactly when the amount is >= 0, and with "-R" exactly when it is negative |
| Money.FormatAmountSignOnce | script.js:27 | no minus sign appears after the first character: the text never carries two signs |
| Money.AmountTextOfFixed | script.js:27 | "R" or "-R" before a toFixed text reads back as its value or its negation |
| Money.FormatAmountRoundTrip | script.js:27 | the displayed text reads back as a signed value within half a cent of the amount |
| Money.RowClass | script.js:77 | the row class is one of "plus" and "minus"; it is "plus" exactly when formatAmount takes its "R" branch, and "minus" exactly when it takes its "-R" branch |
| Money.IncomeLabel | script.js:107 | the income label starts with "R", and a minus sign follows it exactly when the figure is negative |
| Money.IncomeLabelIsFormatted | script.js:107 | for an income >= 0 the income label is formatAmount's text |
| Money.ExpenseLabel | script.js:108 | the expense label always starts with "-R" followed by a digit, whatever the sign of the figure |
| Money.ExpenseLabelIsFormatted | script.js:108 | for a negative expense the label is formatAmount's text; a zero expense shows "-R0.00" rather than "R0.00" |
| Money.BalanceLabelAsWritten | script.js:106 | the balance label as written starts with "R", and toFixed's minus sign comes second exactly when the balance is negative |
| Money.BalanceLabelAsWrittenMisplacesSign | script.js:106 | for a negative balance the label as written starts "R-", which differs from formatAmount's text |
| Money.BalanceLabelAsWrittenExample | script.js:106 | a balance of -1500 is labelled "R-1500.00", where formatAmount gives "-R1500.00" |
| Money.BalanceLabel | script.js:106 | corrected balance label: a minus sign only in front and only for a negative balance; it reads back within half a cent; unchanged for a balance >= 0 |
| Transactions.Without | script.js:32 | removeTransaction keeps exactly the entries whose id differs, and the list never grows |
| Transactions.WithoutConcat | script.js:32 | the filter distributes over concatenation, so the kept entries keep their relative order |
| Transactions.WithoutCount | script.js:32 | each entry occurs as often as before if its id differs, and not at all otherwise |
| Transactions.WithoutAbsent | script.js:32 | removing an id that no entry carries leaves the list unchanged |
| Transactions.WithoutIdempotent | script.js:32 | removing the same id twice gives the list that removing it once does |
| Transactions.WithoutPresent | script.js:32 | removing an id that some entry carries makes the list strictly shorter |
| Aggregates.Amounts | script.js:101 | the amounts list has one amount per entry, in list order |
| Aggregates.Positives | script.js:102 | the income filter keeps exactly the amounts > 0 |
| Aggregates.Negatives | script.js:103 | the expense filter keeps exactly the amounts < 0 |
| Aggregates.PositivesCount | script.js:102 | the income filter keeps each amount > 0 exactly as often as it occurs, in the same multiplicity, and no other amount |
| Aggregates.NegativesCount | script.js:103 | the expense filter keeps each amount < 0 exactly as often as it occurs, and no other amount |
| Aggregates.Sum | script.js:102-103 | the reduce-sum starting from 0 is >= 0 when no amount is negative, and <= 0 when no amount is positive |
| Aggregates.SumConcat | script.js:102-103 | the reduce-sum of a concatenation is the sum of the two sums |
| Aggregates.SumSplits | script.js:101-104 | the sum of all amounts is the sum of the positive ones plus the sum of the negative ones; zeros count toward neither |
| Aggregates.AmountsConcat | script.js:101 | the amounts of a concatenation are the two amount lists concatenated |
| Aggregates.PositivesConcat | script.js:102 | the positive filter distributes over concatenation |
| Aggregates.NegativesConcat | script.js:103 | the negative filter distributes over concatenation |
| Aggregates.Summarize | script.js:100-105 | income >= 0, expense <= 0, and the balance is income + expense, which equals the sum of all amounts |
| Aggregates.SummarizeAppend | script.js:101-104 | appending an entry adds its amount to the balance; a positive amount also adds to income, and a negative one to expense |
| Aggregates.ZeroAmountIgnored | script.js:102-103 | an entry of amount zero changes none of the three figures |
| Aggregates.Only | script.js:32 | the entries removeTransaction drops are exactly those carrying the id |
| Aggregates.BalanceWithout | script.js:32 | after a removal the balance drops by exactly the sum of the removed amounts |
| Aggregates.Display | script.js:106-108 | each panel label reads back within half a cent of its figure; the balance label starts with a minus exactly when the balance is negative; income shows "R" and expense "-R" |
| Store.Load | script.js:23 | the loaded list is what the slot holds, and the empty list when nothing is stored |
| Store.Acceptable | script.js:44-47 | the form is accepted exactly when the description is not all whitespace and the amount is not NaN |
| Store.Ledger.constructor | script.js:22-23 | the list is the stored list, or empty when nothing is stored; the slot then reloads to the list |
| Store.Ledger.Save | script.js:36-38 | the slot holds the whole current list |
| Store.Ledger.Add | script.js:42-54 | a refused form changes neither the list nor the slot; an accepted one appends {id, trimmed text, amount} at the end, keeps every earlier entry in order, and saves |
| Store.Ledger.Remove | script.js:31-34 | the list becomes the id filter of the old list; no entry keeps the id; nothing changes when no entry had it; the list is saved |
| Store.Ledger.Clear | script.js:118-122 | once confirmed the list is empty and saved, and stays empty when cleared again; a refused confirmation changes nothing |
| Export.AmountCell | script.js:137 | the export handler's inline amount cell is formatAmount's text for every amount |
| Export.EntryRow | script.js:136-137 | the row pushed for an entry is its description and formatAmount's text for its amount |
| Export.SheetRows | script.js:130-138 | an empty list exports nothing; otherwise the header row, then for each entry its description and formatAmount's text, in list order, one row per entry |
| Session.SalaryAndRent | script.js:42-54 | from an empty slot, adding salary 5000 then rent -1500 gives exactly those two entries, saved, with balance 3500, income 5000 and expense -1500 |
| Session.SalaryAndRentTotals | script.js:101-104 | that two-entry list gives balance 3500, income 5000 and expense -1500 |
| Session.SalaryAndRentDisplay | script.js:106-108 | the panel then shows "R3500.00" for the balance, "R5000.00" for the income and "-R1500.00" for the expense |
| Session.RefuseRemoveClear | script.js:31-122 | on a saved list, a NaN amount is refused, removing an id no entry carries leaves the list as it was, and two confirmed clears leave it empty and saved |

## Findings

| source | as written | input that shows it | evidently intended | confidence | as-written member | corrected member |
|---|---|---|---|---|---|---|
| script.js:106 | the balance label is `"R" + total.toFixed(2)`, so a negative balance places the minus sign after the currency marker | a list holding only rent -1500 has a balance of -1500, shown as "R-1500.00" | the sign-before-marker rule of `formatAmount` (script.js:27), "-R1500.00", as for every other amount on the page | medium, not executed | Money.BalanceLabelAsWrittenExample | Money.BalanceLabel |

`Aggregates.Display` uses the corrected `Money.BalanceLabel`. `Money.BalanceLabelAsWritten` keeps the label as written.

## Left out

- DOM lookup, the missing-element guard, row rendering, the "No transactions yet" placeholder, `innerHTML` templates and event wiring (script.js:4-19, 61-97, 112-115). These are presentation only.
- Resetting the form's input fields after an add (script.js:56-57). This is presentation only.
- `localStorage` and JSON (script.js:23, 37). The slot is a field holding the decoded list, so serialisation and `JSON.parse` throwing on malformed text are not modelled.
- Store.Load: the slot holds either nothing or a list, so the other stored JSON values are not represented: `null`, `0`, `false` and `""` fall back to the empty list like a missing value, and any other value would be taken as the list. The slot is written after every mutation, as in the source.
- `alert` and `confirm` (script.js:48, 119). The alert is `Add` returning false. The user's answer to `confirm` is the `confirmed` parameter of `Clear`.
- `Date.now()` (script.js:52). It is a clock read, so the id is a parameter of `Add`, and no uniqueness is assumed.
- `parseFloat` (script.js:45). Its result is a parameter: NaN or a number.
- Store.Ledger.Add: infinite amounts are not represented, because amounts are `real`. The source lets `Infinity` through, and JSON would then store it as `null`.
- Floating point: sums are exact on `real`. The source's binary double rounding in `reduce` and in `toFixed` is not modelled.
- Money.Fixed: does not model the exponential text that `toFixed` returns for values of 10^21 or more. The model prints all the digits.
- Money.ToFixed2: same limit as `Money.Fixed` for magnitudes of 10^21 or more.
- The SheetJS calls: the `window.XLSX` presence check, workbook creation, column widths and the file download (script.js:126-129, 140-147). They belong to a library that is not part of this model. Only the row data is modelled.
- The dark-mode toggle (script.js:151-155). It is UI only.
