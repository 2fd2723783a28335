# FinanceTracker money core in Dafny

FinanceTracker is a SwiftUI personal-finance app. Users record income and
expense transactions, each tagged with a category and an optional source.
Its views hold a small money core, and this project models that core:

- the amount parser of the add-transaction form (`parseCents`). It turns
  user text into integer cents with exact digit arithmetic and no
  floating point;
- the form's `canSave` rule and the transaction `save` builds. `save`,
  `resetForm`, `showErrorMessage` and `.onAppear` are modelled as methods
  of a class that holds the form's `@State` fields;
- the analytics screen's three monthly reports. Each one filters the
  month's transactions, folds them into a dictionary with a `for` loop,
  maps the dictionary to summary rows and sorts the rows;
- the dashboard's month totals, and lemmas that tie them to the report
  rows;
- the transaction list's scope filter, its row label, and how delete
  offsets are resolved;
- the settings screen's rules: trimmed names, blank names refused, blank
  notes and icons stored as none, the next category order, the category
  sections by kind, and the rows each deletion removes.

Module layout:

| file | module | what |
|---|---|---|
| `wrappers.dfy` | `Wrappers` | `Option`, `Result`, `First` |
| `seqs.dfy` | `Seqs` | `filter`, `reduce(0, +)`, `sorted`, `IndexSet`, offset resolution |
| `text.dfy` | `Text` | `trimmingCharacters(in: .whitespacesAndNewlines)` |
| `models.dfy` | `Models` | `Transaction`, `Category`, `Source`, the month test |
| `grouping.dfy` | `Grouping` | `SummaryRow`, the dictionary fold as a specification, `dict.map` |
| `amount_parser.dfy` | `AmountParser` | `parseCents`, its examples, and the code as written |
| `add_transaction.dfy` | `AddTransaction` | `canSave`, `save`, `resetForm`, `showErrorMessage`, `.onAppear` |
| `analytics.dfy` | `Analytics` | the three monthly reports |
| `dashboard.dfy` | `Dashboard` | the month totals |
| `transactions_list.dfy` | `TransactionsList` | `Scope`, `filteredTransactions`, the row label, `deleteTransactions` |
| `settings.dfy` | `Settings` | `addSource`, `addCategory`, next order, sections, deletes |

Things `Calendar.current`, `Date()`, `UUID()` and the store provide are
parameters. The calendar is a `Calendar(monthOf)` value and the reference
instant is `now`. Fresh identities are `id`. The error `modelContext.save()`
may throw is `saveError`.

On these points the model follows the code, which differs from what a
reader might expect:

- Income and net rows are keyed by the source's **name**, not its
  identity, and no source counts as the name "Unassigned" (`AnalyticsView.swift:127`, `:142`).
  A real source named "Unassigned" therefore shares the no-source row. `Analytics.UnassignedMerges` proves this.
- The net report counts `+amount` for "income" and `-amount` for **every**
  other type, not only for "expense" (`AnalyticsView.swift:143`).
- Rows with equal totals come in dictionary order, which is random. No
  tie-break by label exists, so the contracts leave ties unconstrained.
- **Every** comma becomes a point, not one comma (`AddTransactionView.swift:164`).
  With two commas the text then has two points. In the model the one-point
  rule rejects it (`AmountParser.SecondPointRejected`); the code as written
  reads the prefix, so "1,2,3" gives the cents of "1.2" (see "## Findings"). `AmountParser.TwoCommasReadings` states both.

The amount parser follows the intent of the comments at
`AddTransactionView.swift:166` and `:175`: one point at most, and rounding
to the nearest cent. The comment names no tie direction; the model rounds
halves up. `Decimal(string:)` and
`NSDecimalNumber.rounding` are library calls whose behaviour the source
does not show. What they most likely do instead is under "## Findings".

## Model

| member | source | states |
|---|---|---|
| AmountParser.ParseCents | FinanceTracker/Views/AddTransactionView.swift:159-178 | `parseCents`: a success is never negative, and blank text gives none |
| AmountParser.ParseAmount | FinanceTracker/Views/AddTransactionView.swift:159-178 | every amount returned is at least 0 |
| AmountParser.EmptyInputIff | FinanceTracker/Views/AddTransactionView.swift:160-161 | the result is `EmptyInput` exactly when the text is all whitespace, the empty text included |
| AmountParser.SurroundingWhitespaceIgnored | FinanceTracker/Views/AddTransactionView.swift:160 | whitespace added before and after a text never changes its result |
| AmountParser.CommaReadsAsPoint | FinanceTracker/Views/AddTransactionView.swift:163-164 | a text parses as the same text with its commas turned into points |
| AmountParser.ForeignCharacterRejected | FinanceTracker/Views/AddTransactionView.swift:166-168 | a trimmed text holding any character other than a digit, a point or a comma (a sign, a letter, an inner space) is `InvalidCharacter` |
| AmountParser.SecondPointRejected | FinanceTracker/Views/AddTransactionView.swift:166-171 | two points after normalisation give `InvalidCharacter` |
| AmountParser.ParsesPointed | FinanceTracker/Views/AddTransactionView.swift:166-176 | digits, a point and digits (at least one digit in all) parse to the cents of that decimal |
| AmountParser.ParsesWhole | FinanceTracker/Views/AddTransactionView.swift:171-174 | digits alone parse to their value times 100 |
| AmountParser.SuccessShape | FinanceTracker/Views/AddTransactionView.swift:159-178 | every success comes from a text of digits with at most one point, and its value is that decimal's cents |
| AmountParser.CentsExact | FinanceTracker/Views/AddTransactionView.swift:171-174 | with at most two fraction digits the cents are exactly the decimal times 100 |
| AmountParser.CentsPastTwoDigits | FinanceTracker/Views/AddTransactionView.swift:173-176 | with more fraction digits the cents are the first two digits' value, plus one exactly when the rest is at least half a cent |
| AmountParser.CentsRounding | FinanceTracker/Views/AddTransactionView.swift:173-176 | the cents are the integer nearest to the decimal times 100, a half rounded up |
| AmountParser.NormalizeCommutesWithTrim | FinanceTracker/Views/AddTransactionView.swift:160-164 | replacing commas before or after trimming gives the same text |
| AmountParser.Example1234 | FinanceTracker/Views/AddTransactionView.swift:157-158 | "12.34" parses to 1234 |
| AmountParser.ExampleComma | FinanceTracker/Views/AddTransactionView.swift:163-164 | "12,34" parses to 1234 |
| AmountParser.ExampleWhole | FinanceTracker/Views/AddTransactionView.swift:171-174 | "5" parses to 500 |
| AmountParser.ExampleRoundsUp | FinanceTracker/Views/AddTransactionView.swift:175-176 | "12.345" parses to 1235 |
| AmountParser.ExampleRoundsDown | FinanceTracker/Views/AddTransactionView.swift:175-176 | "12.344" parses to 1234 |
| AmountParser.ExampleBlank | FinanceTracker/Views/AddTransactionView.swift:161 | "" and blank text give `EmptyInput` |
| AmountParser.ExampleTwoPoints | FinanceTracker/Views/AddTransactionView.swift:166-171 | "12.3.4" gives `InvalidCharacter` |
| AmountParser.ExampleLettersAndSign | FinanceTracker/Views/AddTransactionView.swift:166-168 | "abc" and "-5" give `InvalidCharacter` |
| AmountParser.ParseCentsAsWritten | FinanceTracker/Views/AddTransactionView.swift:166-176 | the code as written: a success is never negative |
| AmountParser.TwoCommasReadings | FinanceTracker/Views/AddTransactionView.swift:163-171 | "1,2,3" becomes "1.2.3": the one-point rule rejects it, while the code as written saves the prefix "1.2" as 120 cents |
| AmountParser.AsWrittenAgreesUpToTwoDigits | FinanceTracker/Views/AddTransactionView.swift:171-176 | for digits, one point and at most two fraction digits the code as written and the corrected parser give the same cents |
| AmountParser.AsWrittenTruncates | FinanceTracker/Views/AddTransactionView.swift:176 | as written, "12.345" gives 1234 |
| AmountParser.AsWrittenAcceptsSecondPoint | FinanceTracker/Views/AddTransactionView.swift:171 | as written, "12.3.4" gives 1230 |
| Text.TrimSpec | FinanceTracker/Views/SettingsView.swift:192-195 | trimming removes exactly a whitespace prefix and suffix, and the result starts and ends with a non-whitespace character |
| Text.TrimEmptyIff | FinanceTracker/Views/SettingsView.swift:192-195 | trimming leaves nothing exactly when the text is all whitespace |
| Text.TrimIdempotent | FinanceTracker/Views/SettingsView.swift:192-195 | trimming a trimmed text changes nothing |
| Text.TrimSurrounding | FinanceTracker/Views/AddTransactionView.swift:160 | whitespace around a text is gone after trimming |
| AddTransaction.CanSave | FinanceTracker/Views/AddTransactionView.swift:102-105 | saving is allowed only with a non-blank amount and a selected category |
| AddTransaction.Build | FinanceTracker/Views/AddTransactionView.swift:107-129 | a transaction is built exactly when `canSave` holds; otherwise the message of the first failing guard; the built transaction has the parsed amount, the parsed tax or none, "USD", the selected category and source, the form's type and date, no merchant, and no note when the note is empty |
| AddTransaction.TaxNeverBlocks | FinanceTracker/Views/AddTransactionView.swift:102-105 | the tax text never decides whether saving succeeds, and an unparsable tax is stored as none |
| AddTransaction.ResetClearsAmount | FinanceTracker/Views/AddTransactionView.swift:142-150 | after a reset nothing can be saved, a category is selected exactly when there is one, and the error is untouched |
| AddTransaction.BuildIgnoresIdentity | FinanceTracker/Views/AddTransactionView.swift:119-129 | two saves of the same form differ only in identity and timestamps |
| AddTransaction.AddTransactionForm.OnAppear | FinanceTracker/Views/AddTransactionView.swift:88-93 | the first category is selected when none is, and nothing else changes |
| AddTransaction.AddTransactionForm.ShowErrorMessage | FinanceTracker/Views/AddTransactionView.swift:152-155 | the message is stored and the alert flag set, nothing else changes |
| AddTransaction.AddTransactionForm.ResetForm | FinanceTracker/Views/AddTransactionView.swift:142-150 | the texts are cleared, the date is `now`, the type is "expense", no source, the first category |
| AddTransaction.AddTransactionForm.Save | FinanceTracker/Views/AddTransactionView.swift:107-140 | a transaction is inserted exactly when `canSave` held, and it is the one `Build` gives; a failed guard shows its message; a stored save resets the form; a failed save keeps the form and shows "Save failed: " with the error |
| Analytics.MonthlyExpenseByCategory | FinanceTracker/Views/AnalyticsView.swift:101-116 | one row per category id among the month's expenses, each totalling that category's amounts and named after the category of the last expense seen; rows in non-increasing total; no rows exactly when there are no such expenses |
| Analytics.MonthlyIncomeBySource | FinanceTracker/Views/AnalyticsView.swift:118-133 | one row per source name ("Unassigned" for none) among the month's income, named by it, totalling its amounts; rows in non-increasing total; no rows exactly when there is no such income |
| Analytics.MonthlyNetBySource | FinanceTracker/Views/AnalyticsView.swift:135-150 | one row per source name among all the month's transactions, `+amount` for income and `-amount` otherwise; rows in non-increasing magnitude, negative totals kept; no rows exactly when the month is empty |
| Analytics.OtherMonthIgnored | FinanceTracker/Views/AnalyticsView.swift:96-104 | a transaction outside the month changes none of the three reports |
| Analytics.IncomeIgnoredByExpenseReport | FinanceTracker/Views/AnalyticsView.swift:102-104 | a transaction not typed "expense" changes nothing in the expense report |
| Analytics.UnassignedMerges | FinanceTracker/Views/AnalyticsView.swift:127 | income with no source and income from a source named "Unassigned" end up in one row holding both amounts |
| Grouping.EntriesOf | FinanceTracker/Views/AnalyticsView.swift:114 | `dict.map` visits every entry of the dictionary exactly once |
| Grouping.SumOfGroups | FinanceTracker/Views/AnalyticsView.swift:106-112 | the totals of a grouping add up to the sum over all grouped transactions |
| Grouping.FoldStep | FinanceTracker/Views/AnalyticsView.swift:126-129 | one `dict[key] = (dict[key] ?? 0) + value` step keeps the dictionary equal to the per-key sums of the prefix processed |
| Grouping.FoldNamedStep | FinanceTracker/Views/AnalyticsView.swift:108-112 | the same for the expense loop, which also stores the category name last seen |
| Grouping.SortedGrouping | FinanceTracker/Views/AnalyticsView.swift:114-115 | sorting the rows keeps the same rows, so it is still a grouping, empty exactly when nothing was grouped |
| Grouping.SplitOff | FinanceTracker/Views/AnalyticsView.swift:106-112 | one key's total plus the sum of the other transactions is the sum of all, and the other keys keep their totals |
| Models.IsSameMonth | FinanceTracker/Views/AnalyticsView.swift:96-99 | every instant is in its own month |
| Models.SameMonthIsEquivalence | FinanceTracker/Views/AnalyticsView.swift:96-99 | being in the same month is reflexive, symmetric and transitive |
| Dashboard.TotalIncomeCents | FinanceTracker/Views/DashboardView.swift:24-29 | the sum of the amounts of the transactions both in the month and typed "income" |
| Dashboard.TotalExpenseCents | FinanceTracker/Views/DashboardView.swift:31-36 | the same for "expense" |
| Dashboard.NetCents | FinanceTracker/Views/DashboardView.swift:38-40 | with only "income" and "expense" types, the signed sum over the month's transactions |
| Dashboard.TotalsStep | FinanceTracker/Views/DashboardView.swift:15-40 | one more transaction adds its amount to the total of its type when it is in the month, and nothing otherwise; net moves by the signed amount |
| Dashboard.OtherMonthsIgnored | FinanceTracker/Views/DashboardView.swift:15-22 | transactions outside the month change neither the month's list nor any total, wherever they sit |
| Dashboard.IncomeRowsMatchTotal | FinanceTracker/Views/DashboardView.swift:24-29 | the income report's rows add up to the dashboard's income total |
| Dashboard.ExpenseRowsMatchTotal | FinanceTracker/Views/DashboardView.swift:31-36 | the expense report's rows add up to the dashboard's expense total |
| Dashboard.SignedSplit | FinanceTracker/Views/DashboardView.swift:38-40 | with only "income" and "expense" types, the signed sum is income minus expense |
| Dashboard.NetRowsMatchNet | FinanceTracker/Views/DashboardView.swift:38-40 | with only those two types, the net report's rows add up to the dashboard's net |
| Dashboard.CurrentMonthTransactions | FinanceTracker/Views/DashboardView.swift:15-22 | a transaction is listed exactly when it is in the input and dated in the month |
| TransactionsList.FromRawValue | FinanceTracker/Views/TransactionsView.swift:17-21 | a title reads back to the scope that has it, and an unknown title to none |
| TransactionsList.RawValueRoundTrip | FinanceTracker/Views/TransactionsView.swift:17-21 | every scope's title reads back to that scope, and the two titles differ, as `id` being `rawValue` needs |
| TransactionsList.FilteredTransactions | FinanceTracker/Views/TransactionsView.swift:67-76 | `All` gives the list unchanged; `Month` gives exactly the transactions in the month, each as often as in the list, in list order |
| TransactionsList.MonthWithinAll | FinanceTracker/Views/TransactionsView.swift:67-76 | the month's list is a subsequence of the full list |
| TransactionsList.RowLabel | FinanceTracker/Views/TransactionsView.swift:34 | the merchant when there is one, else the category name |
| TransactionsList.SavedRowShowsCategory | FinanceTracker/Views/TransactionsView.swift:34 | a transaction the form saves is labelled with its category's name |
| TransactionsList.DeleteTransactions | FinanceTracker/Views/TransactionsView.swift:24-86 | the offsets, valid for the list shown, pick in order from the list recomputed at delete time; an offset past that list is the trap; every deleted transaction is in the store and, in the month scope, in the delete-time month; for the full list or when both instants share a month the deleted rows are the rows shown |
| TransactionsList.ListStableWithinMonth | FinanceTracker/Views/TransactionsView.swift:67-76 | two instants in the same month give the same list |
| TransactionsList.StaleOffsetsAcrossMonthTurn | FinanceTracker/Views/TransactionsView.swift:24-86 | when the month turns between display and delete, row 0 of the month scope deletes a transaction other than the one shown |
| TransactionsList.DeleteUsesScreenRows | FinanceTracker/Views/TransactionsView.swift:82-86 | deleting row 0 of the month scope removes the month's transaction, not the first of the full list |
| Seqs.ResolveOffsets | FinanceTracker/Views/TransactionsView.swift:84-86 | the picked elements are the list's elements at the offsets, in increasing order |
| Seqs.FilterIsSubsequence | FinanceTracker/Views/TransactionsView.swift:74 | a filter keeps elements in order |
| Seqs.SortBy | FinanceTracker/Views/SettingsView.swift:78 | the result is sorted by rank and a permutation of the input |
| Settings.MaxOrder | FinanceTracker/Views/SettingsView.swift:154 | none exactly for no categories; otherwise an order in use and at least every order |
| Settings.NextOrder | FinanceTracker/Views/SettingsView.swift:154 | above every order of either kind; 1 for no categories; otherwise one more than an order in use |
| Settings.NewSource | FinanceTracker/Views/SettingsView.swift:125-130 | no source exactly when the name is all whitespace; otherwise the trimmed name and the trimmed note, none when blank |
| Settings.NewCategory | FinanceTracker/Views/SettingsView.swift:149-161 | no category exactly when the name is all whitespace; otherwise the trimmed name, the chosen kind, the trimmed icon or none, and the next order |
| Settings.StoredTextIsTrimmed | FinanceTracker/Views/SettingsView.swift:126-130 | stored names, notes and icons are trimmed and never blank |
| Settings.Section | FinanceTracker/Views/SettingsView.swift:78 | exactly the categories of the kind, each as often as in the list, in non-decreasing order |
| Settings.SectionsPartition | FinanceTracker/Views/SettingsView.swift:78-99 | no category is in both sections, and an "expense" or "income" category is in one |
| Settings.NewCategoryGoesLast | FinanceTracker/Views/SettingsView.swift:154-163 | a list sorted by order stays sorted with the new category at the end |
| Settings.SectionDeleteStaysInKind | FinanceTracker/Views/SettingsView.swift:92-94 | a deletion in a section removes only categories of that kind |
| Settings.SettingsForm.AddSource | FinanceTracker/Views/SettingsView.swift:125-138 | the inserted source is `NewSource` of the fields; a blank name changes nothing; otherwise the source fields are cleared and the category fields kept |
| Settings.SettingsForm.AddCategory | FinanceTracker/Views/SettingsView.swift:149-170 | the inserted category is `NewCategory` of the fields; a blank name changes nothing; otherwise name and icon are cleared and the type goes back to "expense" |
| Settings.SettingsForm.DeleteSources | FinanceTracker/Views/SettingsView.swift:140-145 | the deleted sources are those at the offsets of the source list |
| Settings.SettingsForm.DeleteCategories | FinanceTracker/Views/SettingsView.swift:172-177 | the deleted categories are those at the offsets of the section shown, not of the full list |

## Left out

- TransactionsList.DeleteTransactions: when the month turns between display and delete, the offsets resolve against the new month's list, as the code does; `StaleOffsetsAcrossMonthTurn` shows the effect. The model does not claim which rows the user meant.
- The SwiftUI `body` code, navigation, alerts, `hideKeyboard()`, `ContentView.swift` and the `#Preview` blocks are UI.
- `modelContext.insert`, `save` and `delete`, `@Query` and `@Model` are not modelled as effects. The methods return what they would insert or delete. Query results are snapshot constants of the form classes, so their re-sorting after a store change is not modelled.
- The `print` calls when saving the settings or a deletion fails are not modelled.
- `SeedService.swift` and `Item.swift` are not part of this model. The first seeds the store; the second is unused.
- `formatMoney` is left out. It is locale formatting through `NumberFormatter`.
- `Calendar.current`, `Date()` and time zones are parameters, as named above. Gregorian calendar arithmetic is not modelled.
- `AddTransaction.AddTransactionForm.ResetForm` takes the `Date()` it stores as `now`. `Save` uses the same `now` for the new transaction's `createdAt` and `updatedAt`.
- Dashboard.TotalIncomeCents, Dashboard.TotalExpenseCents, Dashboard.NetCents, Analytics.MonthlyExpenseByCategory, Analytics.MonthlyIncomeBySource and Analytics.MonthlyNetBySource: one `now` stands for every `Date()` they read. The source reads the clock once per transaction inside each report's filter (`AnalyticsView.swift:98`) and once per recomputation of `currentMonthTransactions` (`DashboardView.swift:17`, used at `:25` and `:32`). A month turn during one evaluation, which can split a report between two months or make `netCents` subtract one month's expenses from another month's income, is not modelled. `NetCents` and the `*RowsMatch*` lemmas hold for that single instant.
- `Decimal` and `NSDecimalNumber` internals are replaced by digit-string arithmetic.
- AmountParser.ParseAmount: does not model Swift `Int` overflow, the `.intValue` narrowing at `AddTransactionView.swift:176`, or the overflow traps of the sums at `AnalyticsView.swift:111`, `:128` and `:144`. All integers are unbounded.
- The report rows' fresh `UUID()` ids at `AnalyticsView.swift:131` and `:148` are not modelled. The key stands in for them.
- Dictionary iteration order is not modelled; `Grouping.EntriesOf` picks entries in an arbitrary order.
- Analytics.MonthlyExpenseByCategory: the order of rows with equal totals is left unconstrained, as Swift's sort and the dictionary leave it. The same holds for `MonthlyIncomeBySource`, `MonthlyNetBySource` and `Settings.Section`.
- The "Top expense categories" section shows only the first three expense rows (`.prefix(3)` at `AnalyticsView.swift:28`). That is presentation. The "All expense categories", income and net sections (`:44`, `:61`, `:78`) list every row.
- Settings.SettingsForm.AddSource: the new source is not added to the `sources` snapshot. The store and the query own that list. The same holds for `AddCategory`.

## Findings

| source | as written | input that shows it | evidently intended | confidence | as-written member | corrected member |
|---|---|---|---|---|---|---|
| FinanceTracker/Views/AddTransactionView.swift:176 | `rounding(accordingToBehavior: nil)` uses the default behaviour, which keeps every fraction digit; `.intValue` then drops the fraction | "12.345" is saved as 1234 cents | round to the nearest cent, as the comment at :175 says; with halves up, 1235 | medium, not executed | AmountParser.AsWrittenTruncates | AmountParser.CentsRounding |
| FinanceTracker/Views/AddTransactionView.swift:166-171 | the character guard allows any number of points, and `Decimal(string:)` reads the longest decimal prefix | "12.3.4" is saved as 1230 cents | accept one point only, as the comment at :166 says | low, not executed | AmountParser.AsWrittenAcceptsSecondPoint | AmountParser.SecondPointRejected |
