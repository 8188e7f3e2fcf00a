# Expense tracker ledger and aggregates, in Dafny

This project models the core of a small browser-based personal finance
tracker (`script.js`). The tracker keeps a newest-first list of income and
expense transactions and an active currency code. It derives three views from
them:

- the totals: income, expense and balance;
- the expense breakdown by category, with each category's share in percent;
- a summary of the first six months met in the list.

The model is functional. Each transaction is an immutable datatype value, the
ledger is a `State` value, and every operation is a pure function over
sequences. Amounts are exact `real`s.

Modules, leaf first:

- `Sums` (`sums.dfy`): the sum of a real sequence, with lemmas for
  concatenation, scaling, a point update and positivity.
- `Records` (`records.dfy`): the `Transaction` record, `Filter`, and `Total`.
  `Filter` is the `Array.prototype.filter` of `deleteTransaction`,
  `calculateTotals` and `updateCategoryChart`. `Total` is the `reduce` over
  amounts in `calculateTotals`. Lemmas elsewhere also use `Filter` to state
  which records a group or a month holds.
- `Catalog` (`catalog.dfy`): the currency symbol table and the category
  metadata table.
- `Aggregate` (`aggregate.dfy`): `calculateTotals`.
- `Ledger` (`ledger.dfy`): adding, deleting and the currency switch.
- `Grouping` (`grouping.dfy`): group-by-key in first-seen order with
  per-group income and expense sums. This is the object-as-dictionary idiom
  of the category chart and of the monthly summary.
- `Reports` (`reports.dfy`): the category breakdown and the monthly summary.
- `Display` (`display.dfy`): the sign rules. These are the negative balance
  flag, the colour of a month's net and the `+`/`-` prefix of a history row.
- `Scenarios` (`scenarios.dfy`): worked examples, such as an empty ledger, a
  single lunch, or salary followed by rent.

Inputs that the model takes as parameters instead of computing:

- The new record's `id` and `date` are parameters of `Ledger.Add`. The code
  gets them from `Date.now()` and `new Date().toISOString()`.
- The form values come in as an `AddRequest`. The amount arrives already
  parsed: `Num(x)` or `NaN`.
- The month label of a date is a function parameter `monthOf`. The code
  uses `toLocaleDateString('en-US', {month: 'short', year: 'numeric'})`.

## Code versus intent

The model follows the code as written. In four places the code allows
something that other parts of the same code do not expect. Each place has a
lemma that exhibits the departure. Each also has a lemma that proves the
expected property under the condition the code does not enforce, or states
exactly when it holds.

- **Negative amounts.** The history prints every amount behind a `+` or `-`
  chosen by the record's type (`script.js:269`). So the type carries the
  sign and amounts are expected to be positive. The guard at `script.js:88`
  turns away only an empty description and a parsed amount of 0 or NaN, so
  negative amounts are stored (`Ledger.AddAcceptsNegativeAmount`).
  Positivity is a precondition of `Ledger.AddKeepsPositive` and
  `Reports.SharesSumToHundred`.
- **Empty chart.** The chart's empty state reads "No expenses yet"
  (`script.js:205`). It is chosen by whether any category key exists
  (`script.js:186`), that is, whether any expense record exists
  (`Reports.BreakdownEmptyIff`). With positive amounts this is the same as a
  zero expense total (`Reports.PositiveExpensesEmptyIff`). With negative
  amounts, two expenses can cancel. The chart then has rows while the total is
  zero, so every percentage is a division by zero
  (`Reports.CancellingExpensesGiveNonFiniteShares`).
- **Unknown currencies.** The header symbol is `CURRENCIES[currency]`
  (`script.js:143`), so only the codes of the table at `script.js:6-15` have
  one. `changeCurrency` stores whatever code it is given, with no membership
  check (`Scenarios.UnknownCurrencyAccepted`). The header has a symbol
  exactly when the code is in the table (`Ledger.SymbolAfterChange`).
- **Duplicate ids.** The delete button passes `t.id` as the handle of one
  history row (`script.js:271`). Ids come from `Date.now()` (`script.js:94`)
  and need not be unique. Two records with the same id are both removed by
  one delete (`Ledger.DuplicateIdsDeletedTogether`). Uniqueness of the
  stored ids is a precondition of `Ledger.AddKeepsIdsUnique`. Freshness of
  the new id is a precondition of `Ledger.AddKeepsIdsUnique` and
  `Ledger.DeleteUndoesAdd`.

## Model

| member | source | states |
|---|---|---|
| `Catalog.Symbol` | script.js:6-15 | A code has a symbol exactly when it is in the currency table, and every symbol is non-empty |
| `Catalog.Category` | script.js:17-26 | A key has metadata exactly when it is in the category table, and that metadata has a name and a colour |
| `Catalog.CatalogFacts` | script.js:4-26 | The default USD shows `$`, JPY and CNY share one symbol, an unknown code has none, and the category colours are pairwise distinct |
| `Ledger.Add` | script.js:82-102 | Rejected exactly when the description is empty or the amount is 0 or NaN, with the ledger unchanged; otherwise the new record is first, the old list follows it unchanged, and the currency stays |
| `Ledger.Delete` | script.js:115-116 | Exactly the records whose id differs from the argument remain; the currency stays |
| `Ledger.ChangeCurrency` | script.js:122-123 | The code is stored as given, with the records untouched |
| `Ledger.SymbolAfterChange` | script.js:143 | After a switch the header has a symbol exactly when the code is in the currency table, and then it is that table entry |
| `Ledger.DeleteAbsent` | script.js:115-116 | Deleting an id that no record carries leaves the ledger unchanged |
| `Ledger.DeleteTwice` | script.js:115-116 | Deleting twice is the same as deleting once |
| `Ledger.DeleteKeepsOrder` | script.js:116 | Delete commutes with splitting the list, so the survivors keep their relative order |
| `Ledger.DeleteUndoesAdd` | script.js:93-116 | With a fresh id, deleting the record just added restores the ledger exactly |
| `Ledger.AddKeepsIdsUnique` | script.js:93-102 | Adding with a fresh id keeps all ids distinct (freshness is a precondition, not something the code ensures) |
| `Ledger.DuplicateIdsDeletedTogether` | script.js:116 | Two records sharing an id violate uniqueness, and one delete removes both |
| `Ledger.DeleteKeepsIdsUnique` | script.js:116 | Delete preserves distinct ids |
| `Ledger.AddAcceptsNegativeAmount` | script.js:88-91 | A negative amount passes the guard and is stored |
| `Ledger.AddKeepsPositive` | script.js:88-102 | If the stored amounts and the new amount are positive, all stored amounts stay positive |
| `Ledger.TotalsAfterAdd` | script.js:129-138 | An accepted add raises exactly the total that the new record's type selects, by its amount |
| `Records.Filter` | script.js:116 | A record survives exactly when it was in the list and satisfies the predicate, and the list never grows |
| `Records.FilterConcat` | script.js:116 | Filtering distributes over concatenation, so survivors keep their relative order |
| `Records.Total` | script.js:132 | The reduce starts from 0, and one record totals its own amount |
| `Records.TotalConcat` | script.js:132 | The reduce over amounts is additive over concatenation |
| `Aggregate.CalculateTotals` | script.js:129-138 | The balance is income minus expense |
| `Aggregate.TotalsEmpty` | script.js:129-138 | An empty list has all three totals zero |
| `Aggregate.TotalsConcat` | script.js:129-138 | Income, expense and balance are additive over concatenation |
| `Aggregate.TotalsPartition` | script.js:129-138 | Splitting the records by any predicate splits the income total, and likewise the expense total, between the two parts |
| `Aggregate.IncomePlusExpense` | script.js:129-138 | Income plus expense is the sum of every amount, so each record is counted in exactly one of them |
| `Grouping.Credit` | script.js:222 | Adding a record raises the bucket field for the record's type by its amount and leaves the other field alone |
| `Grouping.Insert` | script.js:218-222 | A seen key keeps the key list and credits only its own bucket; an unseen key is appended as a new bucket that holds just this record |
| `Grouping.GroupBy` | script.js:214-223 | Keys are distinct, and they are exactly the labels that occur in the list |
| `Grouping.GroupByFirstSeen` | script.js:214-226 | Groups appear in the order in which their keys are first met |
| `Grouping.GroupBySums` | script.js:214-223 | Each group's income and expense are the typed sums of exactly the records that carry its key |
| `Grouping.GroupByTotal` | script.js:177-184 | Summed across groups, each column equals the list's total for that type |
| `Reports.ShareOf` | script.js:189 | The share is finite exactly when the total is non-zero, and then share times total equals amount times 100 |
| `Reports.CategoryBreakdown` | script.js:174-189 | There is one row per category group of the expense records |
| `Reports.BreakdownEmptyIff` | script.js:186 | The chart is empty exactly when there is no expense record |
| `Reports.BreakdownCategories` | script.js:177-184 | Each expense category appears once, every row names one, and rows follow first-seen order in the newest-first list |
| `Reports.BreakdownAmounts` | script.js:177-184 | Each row's amount is the total of the expense records of its category |
| `Reports.BreakdownSumsToExpense` | script.js:174-184 | The row amounts add up to the expense total of `calculateTotals` |
| `Reports.BreakdownIgnoresIncome` | script.js:177-178 | Income records do not affect the chart |
| `Reports.BreakdownShares` | script.js:188-189 | Every row's share is taken of its own amount over the expense total from `calculateTotals` |
| `Reports.PercentagesScale` | script.js:188-189 | With a non-zero expense total, every share is finite and the percentages are the amounts scaled by 100 / total |
| `Reports.SharesSumToHundred` | script.js:186-189 | With positive expense amounts and at least one expense, all shares are finite and they add up to 100 |
| `Reports.PositiveExpensesEmptyIff` | script.js:186-205 | With positive expense amounts, the chart shows "No expenses yet" exactly when the expense total is zero |
| `Reports.CancellingExpensesGiveNonFiniteShares` | script.js:186-189 | Two expenses that cancel give a non-empty chart whose every share is a division by zero |
| `Reports.MonthlySummary` | script.js:211-228 | At most six months are emitted |
| `Reports.SummaryPrefix` | script.js:225-228 | The rows are the first min(6, groups) month groups, field by field |
| `Reports.SummaryLength` | script.js:226 | The number of rows is the number of distinct month labels, capped at six |
| `Reports.SummaryEmptyIff` | script.js:225-226 | The summary is empty exactly when there are no records |
| `Reports.SummarySums` | script.js:218-228 | Month labels are distinct, each month's income and expense are the typed sums of its records, and net is income minus expense |
| `Reports.SummaryFirstSeen` | script.js:214-226 | Rows follow first-seen order, every row's month occurs in the list, and every month left out is first met later than every month shown |
| `Display.SignPrefix` | script.js:269 | An income row is prefixed `+` and an expense row `-` |
| `Display.BalanceIsNegative` | script.js:157 | The balance card is flagged negative exactly when the same value would not get the positive month colour, so a zero balance is not flagged |
| `Display.NetIsPositive` | script.js:239 | A break-even month is shown in the positive colour |
| `Display.SignedSumIsBalance` | script.js:268-269 | The history amounts, signed by their `+`/`-` prefix, add up to the balance |
| `Display.BalanceFlag` | script.js:157-161 | The balance card is flagged negative exactly when the signed history sums below zero, that is, when expense exceeds income |
| `Display.MonthColour` | script.js:239 | A month's net gets the positive colour exactly when the signed amounts of that month's records sum to zero or more |
| `Scenarios.EmptyLedger` | script.js:3-4 | An empty ledger gives zero totals, an empty chart and an empty summary |
| `Scenarios.SingleLunch` | script.js:82-102 | Adding a 12.50 lunch expense gives expense 12.50, balance -12.50, and a single food row at 100 percent |
| `Scenarios.SalaryThenRent` | script.js:129-138 | Adding income 1000 and then expense 300 gives balance 700 |
| `Scenarios.SevenMonths` | script.js:226 | Records from seven distinct months give exactly six rows |
| `Scenarios.UnknownCurrencyAccepted` | script.js:122-123 | An unknown code is stored and has no symbol |

## Left out

- Reading and writing the DOM, the HTML templates, `alert`, and `showView` with its ambient `event`. These are presentation only.
- `loadData` and `saveData` (`localStorage` together with `JSON.parse` and `JSON.stringify`). `JSON.parse` and `JSON.stringify` are library serialisers whose behaviour is not in `script.js`, so no round trip is stated.
- `Date.now()`, `new Date().toISOString()` and the locale month formatting. These are clock and locale library calls: ids and dates are parameters, and the month label is the parameter `monthOf`.
- Floating point. `parseFloat` is reduced to `Num(x) | NaN`, which leaves out `Infinity`, the acceptance of trailing garbage, and float rounding in sums and `toFixed(2)`. Amounts are exact reals, so the order of summation does not matter.
- Reports.ShareOf: a division by zero is a single `NotFinite` value. JavaScript would give `Infinity`, `-Infinity` or `NaN`.
- `Object.keys` places integer-like keys first. The model uses plain insertion order, which matches the code for category keys and month labels because none of them is integer-like.
- Lookups on the plain objects `CURRENCIES`, `CATEGORIES` and `categoryData` also see inherited `Object.prototype` members. For a key such as `toString` or `constructor`, `CURRENCIES[code]` at `script.js:143` is a function, and `categoryData[t.category]` at `script.js:180` is truthy from the start, so `+=` at `script.js:183` concatenates strings. The model assumes that the page offers only the table keys as currencies and categories, so none of them is such a name. It treats every other key as absent or new.
- The chart and history rows' lookup of `CATEGORIES[t.category]` for display names, colours and icons. It is presentation, and an unknown category would throw there.
- `init()` and the `updateUI` orchestration, apart from the sign rules in `Display`.
