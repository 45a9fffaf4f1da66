# jeito — a Dafny model of its bookkeeping, booking and membership rules

jeito is the Django intranet of the Éclaireuses Éclaireurs de France. It covers the accounts of the
association, the bookings of its Bécours centre and the membership records. This project models the
parts of jeito that compute something:

- **Accounting**
  - the year-end `closing` command: it nets classes 1/2/5, copies the class 4 lines and posts the
    class 6/7 result;
  - the ledger views: the account's running balance, the entry totals, the trial balance, the
    analytic balance, the budget, the two bank-reconciliation selections and the cash-flow series;
  - the command that imports accounting entries from a semicolon-separated file;
  - two data migrations:
    - 0021 creates purchase invoices and third-party accounts;
    - 0054 splits the 2019 entries into cashings, incomes and expenditures.
- **Bookings**
  - the legacy Bécours `Group.denormalize`, which computes the dates, the comfort, the peak
    occupancy and the overnights;
  - the booking and item amount formulas of the model managers;
  - the tracking mixin that logs every save and delete;
  - the home page sums, the agreement numbering and the occupancy table;
  - the `convert` command from legacy groups to bookings.
- **Membership**
  - seasons;
  - structures and their region and local structure;
  - a person's adhesion of the moment and the rights derived from it;
  - the number validators;
  - the adhesion filter;
  - the membership views: the cumulative daily chart, the comparison table, the dashboard widgets'
    reference date and group count.

### How the model is built

- Each file is one module, named after the source file it models. Three modules are shared:
  - `Common`: sums, filters and GROUP BY keys;
  - `Calendar`: proleptic Gregorian dates with `toordinal` and `timedelta`;
  - `Text`: `str`, `int`, `split` and zero padding.
- Money is an integer number of cents.
- Code that updates rows step by step is a class whose fields are the tables, with methods proved
  against functions of the old tables. This covers:
  - the closing command;
  - the import command;
  - both migrations;
  - the conversion;
  - the tracking mixin;
  - `Group`;
  - `AdhesionFilter`.
- Loops in views are methods with loop invariants. The rest consists of functions and lemmas.
- A database query is modelled by the rows it selects, in table order.
- The clock (`settings.NOW()`, `date.today()`, `now()`) is a `today` parameter.
- Keys the database assigns are parameters too.

Where the code and the project's own description disagree, the model follows the code:

- An SQL `SUM` over no rows is NULL.
  - `closing` then fails at `balance < 0` when the old year has no class 6/7 line. `Closing.Books.Close`
    returns `false` there, and the rows created before that point stay.
  - The next-reconciliation balance is undefined (`None - None`) when no line is reconciled
    (`Reports.NextBalance`).
- A tracked save is tagged CHANGE even for a new object. The operation is chosen after the row is
  written, when the key is already set.
- The booking manager's sums run over the join of items and payments (Findings).
- The daily membership series stalls on an adhesion dated before 1 September (Findings).
- The agreement order is counted in the year of the stay, but the number shows the year of the
  agreement's own date (Findings).

## Model

| member | source | states |
|---|---|---|
| Closing.Books.Close | accounting/management/commands/closing.py:11-48 | The new entry ("A nouveaux", journal OD, dated on the new year's start) is appended with the next id. The new lines are exactly `CarriedLines` of the old lines, appended after them. Every line stays on a stored entry. The command completes iff the old year has a class 6/7 line. |
| Closing.Books.PostNetLines | accounting/management/commands/closing.py:20-28 | The first loop appends exactly `NetLines` and changes no entry. |
| Closing.Books.PostCopies | accounting/management/commands/closing.py:29-38 | The second loop appends exactly `CopyLines` and changes no entry. |
| Closing.CloseTransactions | accounting/management/commands/closing.py:20-48 | After the first two loops the result query sees the same balance as before them, and the result line completes the carried lines. |
| Closing.CloseKeepsValid | accounting/management/commands/closing.py:14-48 | The new entry and its lines keep every line on a stored entry, with entry ids below the next id. |
| Closing.LaterQueriesUnaffected | accounting/management/commands/closing.py:20-40 | The rows the loops create are never selected by a later query of the same run. |
| Closing.NetLinesInert | accounting/management/commands/closing.py:22-29 | The netted lines are on class 1/2/5 accounts, so the class 4 and class 6/7 queries are unchanged by them. |
| Closing.CopyLinesInert | accounting/management/commands/closing.py:30-39 | The copies are on class 4 accounts, so the class 6/7 query is unchanged by them. |
| Closing.NettedAccountsClass | accounting/management/commands/closing.py:20-21 | Every account of the GROUP BY is a class 1, 2 or 5 account. |
| Closing.NetLinesCoverAccounts | accounting/management/commands/closing.py:20-28 | Every class 1/2/5 account with an unlettered old-year line gets a line on the new entry. |
| Closing.NetLinesOnlyNettedAccounts | accounting/management/commands/closing.py:20-28 | Conversely, every netted line is on such an account. |
| Closing.NetLinesOnePerAccount | accounting/management/commands/closing.py:20-28 | No account gets two netted lines. Each line's revenue minus expense is the account's unlettered old-year revenue minus expense. Both amounts are non-negative and at most one is non-zero. |
| Closing.CopiesAreExact | accounting/management/commands/closing.py:29-38 | Every unlettered old-year class 4 line gets its own copy, in order. Each copy has the same title, account, third party, expense and revenue, and is on the new entry. |
| Closing.ResultLine | accounting/management/commands/closing.py:39-48 | The result line is on 1290000 iff the result is negative, and on 1200000 otherwise (zero included). Its revenue minus expense is the result. Its amounts are non-negative, with at most one non-zero. |
| Closing.ResultBalance | accounting/management/commands/closing.py:39-40 | The result is defined iff some old-year line is on a class 6/7 account; with none, the SQL sum is NULL. |
| Closing.SplitLine | accounting/management/commands/closing.py:26-27 | `max(-b, 0)` as expense and `max(b, 0)` as revenue: both are non-negative, at most one is non-zero, and revenue minus expense is b. |
| Closing.CarriedLines | accounting/management/commands/closing.py:20-48 | Every carried line is on the new entry, unlettered and unreconciled. |
| Closing.LetteredNotCarried | accounting/management/commands/closing.py:20-29 | Adding a lettered line on a class 1, 2, 4 or 5 account changes nothing that is carried forward. |
| Closing.ResultIncludesLettered | accounting/management/commands/closing.py:39-40 | Every old-year class 6/7 line, lettered or not, adds its balance to the result. |
| Closing.OtherClassesIgnored | accounting/management/commands/closing.py:20-40 | Lines on accounts of classes 0, 3, 8 and 9 change nothing that is carried forward. |
| Closing.OtherYearsIgnored | accounting/management/commands/closing.py:20-40 | Lines of other years change nothing that is carried forward. |
| Closing.UnselectedLineIgnored | accounting/management/commands/closing.py:20-40 | A line that none of the three queries selects changes nothing that is carried forward. |
| Closing.CarryForwardConserves | accounting/management/commands/closing.py:20-48 | The netted lines carry the total balance of the netted rows. The copies carry that of the copied rows. The result line carries that of the class 6/7 rows. |
| Closing.SecondRunRepeats | accounting/management/commands/closing.py:11-48 | Nothing prevents a second run. When the new entry is outside the old year, a second run carries the same lines again, on a second entry. |
| Closing.ProfitScenario | accounting/management/commands/closing.py:39-48 | A revenue of 1000.00 on 7010000 and an expense of 400.00 on 6010000 close as a single 600.00 revenue line on 1200000. |
| Closing.ThirdPartyScenario | accounting/management/commands/closing.py:29-38 | Two unlettered lines of third party X001 on 4010000 are carried as two lines, not merged. |
| Reports.RunningBalance | accounting/views.py:103-113 | Each line's `solde` is the running balance up to and including that line. The totals are the column sums, and the final solde is total revenue minus total expense. |
| Reports.EntryTotals | accounting/views.py:121-133 | The three totals are the column sums over the entries. |
| Reports.EntryTotalsBalance | accounting/views.py:126-132 | When each entry's balance is its revenue minus its expense, the balance total is the revenue total minus the expense total. |
| Reports.BalanceRowsAccounts | accounting/views.py:85-89 | The trial balance has exactly one row per account with lines, and no other row. |
| Reports.AccountRowOf | accounting/views.py:85-89 | An account row holds the sums of that account's lines, and its solde is revenues minus expenses. |
| Reports.BalanceTotals | accounting/views.py:88-93 | The revenue and expense totals are the sums over all lines. The overall solde is the sum of the row soldes, which equals total revenue minus total expense. |
| Reports.AnalyticBalanceRows | accounting/views.py:65-70 | Row i is the aggregate of the i-th distinct analytic code of the class 6/7 lines, in first-appearance order. Each row's solde is its revenue minus its expense and equals the group's balance. |
| Reports.AnalyticTotals | accounting/views.py:65-74 | The column totals are the sums over the class 6/7 lines, and the total solde is their difference. |
| Reports.AnalyticIgnoresOtherClasses | accounting/views.py:65 | Lines outside classes 6 and 7 change no analytic row. |
| Reports.BudgetRows | accounting/views.py:26-34 | Row i is the budget row of the i-th distinct analytic code of the class 6/7 lines. Each row's `solde_total` is `solde_real + solde_proj` and equals the group's balance. |
| Reports.BudgetTotals | accounting/views.py:26-38 | The realised total is the balance of the class 6/7 lines of entries that are not projected. The projected total is that of projected entries, and the overall total is their sum. |
| Reports.PreviousStatement | accounting/views.py:146-151 | The previous statement is the latest statement dated strictly before the current one. It is None iff there is none. |
| Reports.StatementsDisjoint | accounting/views.py:146-156 | A reconciled line appears on at most one of two statements with different dates. |
| Reports.ReconciledLineOnStatement | accounting/views.py:146-156 | A reconciled bank line appears on the earliest statement dated on or after its reconciliation. |
| Reports.ReconciledLineCovered | accounting/views.py:146-156 | A reconciled bank line appears on some statement whenever a statement is dated on or after its reconciliation. |
| Reports.UnreconciledLineRepeats | accounting/views.py:154-155 | A line that was never reconciled is listed on every statement dated on or after its entry. |
| Reports.NextReconciliationIsNew | accounting/views.py:165-177 | A reconciled line of the next reconciliation is on no existing statement. |
| Reports.UnreconciledLineIsNext | accounting/views.py:174 | Every unreconciled bank line is listed for the next reconciliation. |
| Reports.NextBalance | accounting/views.py:181-183 | The balance is defined iff some 5120000 line is reconciled by today. With none, both SQL sums are NULL and the subtraction raises. |
| Reports.NextBalanceIsNegated | accounting/views.py:181-183 | The balance is minus the ledger balance of the lines reconciled by today, projected entries included. |
| Reports.NextBalanceAdds | accounting/views.py:181-183 | One more line reconciled by today adds its expense minus its revenue, even on a projected entry. |
| Reports.NextBalanceSkips | accounting/views.py:181 | A line that is not reconciled by today leaves the balance unchanged. |
| Reports.CashFlowSerie | accounting/views.py:201-218 | The series walks the days from 1 January of the season. Each day's value is minus the balance of the 5120000/5300000 lines of the season reconciled on or before that day. |
| Reports.CashFlowValues | accounting/views.py:205-217 | The value of each point of the walk is minus the balance of the season's lines reconciled by its day. |
| Reports.CashFlowDays | accounting/views.py:203-216 | The days of the series are exactly the days from 1 January to min(31 December, yesterday), 29 February excepted. |
| Reports.GroupsInSeason | accounting/views.py:205-206 | The grouped query returns only valid days of the season, none before 1 January. |
| Reports.CashUpTo | accounting/views.py:206-214 | The groups dated on or before d add up to the balance of the rows reconciled on or before d. |
| ImportEntries.Journal.Import | accounting/management/commands/import_accounting_entries.py:11-21 | The tables after the command are `ImportLines` of the rows applied to the old tables. The result is false once a row raises: a row the loop cannot read, a new account whose number or title is too long, an amount the decimal column refuses, or an entry title over 100 characters. |
| ImportEntries.Journal.GetOrCreateAccount | accounting/management/commands/import_accounting_entries.py:20 | An existing account is kept as it is. An unknown number is created with the row's title iff the number has at most 7 and the title at most 100 characters; otherwise the insert raises and the table is unchanged. |
| ImportEntries.ParseRow | accounting/management/commands/import_accounting_entries.py:13-21 | A row with at least 9 columns is skipped iff its column 8 is not exactly "G" or its account (column 2) starts with a character other than 6 or 7. An entry is created only from a "G" row on a 6/7 account. It carries the date read from column 1, the account number and title of columns 2-3, the title of column 6, and the amount of column 7 as the decimal column stores it (`ParseAmount`). |
| ImportEntries.ParseDDMMYY | accounting/management/commands/import_accounting_entries.py:19 | A date that is read is a valid date of year 1 to 99: the two-digit year gets no century. |
| ImportEntries.NoCenturyAdded | accounting/management/commands/import_accounting_entries.py:19 | "311219" reads as 31 December of year 19: no century is added. |
| ImportEntries.DDMMYYRoundTrip | accounting/management/commands/import_accounting_entries.py:19 | Every date of years 1 to 99, written DDMMYY, reads back as itself. |
| ImportEntries.ImportKeeps | accounting/management/commands/import_accounting_entries.py:20-21 | Existing accounts keep their titles, and earlier entries stay as they were. |
| ImportEntries.ImportRuns | accounting/management/commands/import_accounting_entries.py:14-21 | The command finishes iff no row raises against the accounts known when it is read. A row raises when it cannot be read, when its new account does not fit the columns, when its amount is refused or when its title is too long. |
| ImportEntries.ImportCount | accounting/management/commands/import_accounting_entries.py:14-21 | When the command finishes, it has created exactly one entry per accepted row (every accepted row then had a storable amount and title). |
| ImportEntries.ImportIntegrity | accounting/management/commands/import_accounting_entries.py:17-21 | Every entry refers to an account in the table. Every created entry is on a class 6 or 7 account, with an amount of fewer than 8 digits in hundredths. |
| ImportEntries.ParseAmount | accounting/models.py:29 | A stored amount lies strictly between -10^8 and 10^8 hundredths, and only text that `Decimal` reads is stored. |
| ImportEntries.AmountRoundTrip | accounting/models.py:29 | Every amount the column holds, written with a sign, units, a point and two decimals, is stored back as itself. |
| ImportEntries.WholeAmountLimit | accounting/models.py:29 | A whole number of units is stored iff it is below 1000000, as that many hundreds of hundredths. |
| ImportEntries.CommaRefused | accounting/management/commands/import_accounting_entries.py:21 | "12,50" is refused: a decimal comma makes the save raise. |
| ImportEntries.ThirdDecimalRounds | accounting/models.py:29 | A third decimal is rounded half to even: "0.125" is stored as 12 hundredths. |
| ImportEntries.BadRowStops | accounting/management/commands/import_accounting_entries.py:14-21 | A row that cannot be read, whose amount is refused or whose entry title is too long stops the command, whatever the tables hold. |
| ImportEntries.CleanRowsRun | accounting/management/commands/import_accounting_entries.py:14-21 | Rows that raise against no account table let the command finish. |
| ImportEntries.AccountBeforeEntry | accounting/management/commands/import_accounting_entries.py:20-21 | When the account step passes but the amount or the entry title is refused, the command stops with the row's account in the table and no entry added. |
| Text.RoundHalfEvenNearest | accounting/models.py:29 | The rounded quotient is within half a unit of the exact one, and even on a tie. |
| Text.DigitsValueConcat | accounting/models.py:29 | Digits written after others shift the first run left by their number of digits. |
| ImportEntries.FailedStays | accounting/management/commands/import_accounting_entries.py:14-21 | Once a row has raised, the later rows change nothing. |
| Text.JoinSplit | accounting/management/commands/import_accounting_entries.py:13 | Splitting a line on ";" loses nothing: joining the fields gives the line back. |
| Text.SplitJoin | accounting/management/commands/import_accounting_entries.py:13 | Fields free of ";", joined and then split, come back unchanged. |
| Text.ParseIntTwoChars | accounting/management/commands/import_accounting_entries.py:19 | A two-character slice that `int()` reads is a number below 100. |
| Migrations.InvoiceTables.CreatePurchaseInvoices | accounting/migrations/0021_purchaseinvoice_thirdpartyaccount_transferorder.py:8-17 | The purchase invoice table gains the selected entries, saved under their ids. The other table is unchanged. |
| Migrations.InvoiceTables.CreateThirdPartyAccounts | accounting/migrations/0021_purchaseinvoice_thirdpartyaccount_transferorder.py:19-28 | The third-party table gains the selected accounts, saved under their ids. The other table is unchanged. |
| Migrations.PurchaseInvoicesSelected | accounting/migrations/0021_purchaseinvoice_thirdpartyaccount_transferorder.py:11-17 | Starting from the empty table, an entry becomes a purchase invoice iff it is dated 2019 and has both a line on a class 6 account and a line on a 401 account. Its row carries all of the entry's fields. |
| Migrations.ThirdPartyAccountsSelected | accounting/migrations/0021_purchaseinvoice_thirdpartyaccount_transferorder.py:22-28 | Starting from the empty table, an account becomes a third-party account iff its number starts with 4 and not with 48 or 49. Its row carries all of the account's fields. |
| Migrations.KindTables.CreateData | accounting/migrations/0054_auto_20191031_0609.py:6-26 | The three tables after the loop are `SaveKinds` of the entries applied to the old tables. |
| Migrations.SaveKindsTables | accounting/migrations/0054_auto_20191031_0609.py:14-26 | Each table keeps what it held and gains, under their ids, the considered entries classified into it. |
| Migrations.KindRowsSelected | accounting/migrations/0054_auto_20191031_0609.py:11-26 | From the empty tables, each table holds exactly the considered entries of its kind, unchanged. |
| Migrations.ExactlyOneKind | accounting/migrations/0054_auto_20191031_0609.py:11-26 | Only 2019 entries with a class 5 line are considered, and each of them lands in exactly one table: a cashing iff it has a line on 5112000, 5115000 or 5170000 with revenue above 0; otherwise an income iff some class 5 line has an expense above 0; otherwise an expenditure. |
| Becours.Group.Save | becours/models.py:14-43 | A save always recomputes the summary before storing it. It stores nothing when the group has no headcount, where `denormalize` raises. It also stores nothing when `number`, `nights` or `overnights` would be negative, which the `PositiveIntegerField` columns refuse. |
| Becours.Group.Denormalize | becours/models.py:24-39 | The method succeeds iff the group has a headcount. Then begin, end, nights, comfort, number and overnights are the group's summary. Otherwise begin and end become None and the rest is untouched. |
| Becours.Group.ComputeComfort | becours/models.py:29-33 | The comfort loop computes `ComfortOf` of the headcounts. |
| Becours.Group.ComputeStays | becours/models.py:34-37 | The two nested loops build `AddStays` of the headcounts over an empty map. |
| Becours.FirstBegin | becours/models.py:26 | `begin` is a headcount's begin and is on or before every headcount's begin. |
| Becours.LastEnd | becours/models.py:27 | `end` is a headcount's end and is on or after every headcount's end. |
| Becours.ComfortCommonOrMixed | becours/models.py:29-33 | With comforts 1 and 2, the comfort is the common one when all headcounts agree, and 3 as soon as two differ. |
| Becours.ComfortSticks | becours/models.py:31-33 | Once the comfort is 3, it stays 3. |
| Becours.AddStaysAt | becours/models.py:34-37 | After the loops, each day's value is the number of people on site that night: the headcounts with begin ≤ d < end. |
| Becours.StayIsCover | becours/models.py:36-37 | `range((end - begin).days)` from begin walks exactly the nights the headcount covers. |
| Becours.PeakOccupancy | becours/models.py:38 | `number` is the peak occupancy: no night has more people and some night has exactly that many. It is None iff no night is occupied. |
| Becours.StaysAreOccupancy | becours/models.py:34-37 | Once the two loops have run, the count of every day is the number of people on site that night. The days with a count are exactly the occupied days, each listed once. |
| Becours.OvernightsIsDemand | becours/models.py:39 | `overnights` is the sum over headcounts of number × nights, or None when that sum is 0. |
| Becours.ColumnsFitIffOrdered | becours/models.py:14-39 | The recomputed row passes the checks of its positive columns iff the last departure is not before the first arrival. The peak and total of head counts are never negative. |
| Becours.ReversedGroupRefused | becours/models.py:18-28 | Five people from 10 July to 5 July 2017 give `nights` = -5, and the row is refused. |
| BookingModels.AgreementNumberReads | booking/models.py:88-89 | The number is the year, a dash and the order zero-padded to at least three digits. Both parts read back as the year and the order. |
| BookingModels.AgreementNumberInjective | booking/models.py:88-89 | Two agreements have the same number iff they have the same year and order. |
| BookingModels.ItemNights | booking/models.py:198 | The nights are the days from begin to end, and NULL when a date is missing. |
| BookingModels.ItemAmountComplete | booking/models.py:198-208 | With every column filled, the item amount is price + overnights×price_pppn + headcount×price_pp + nights×price_pn, plus the overnights when the item carries the membership fee. |
| BookingModels.ItemAmountWithoutDates | booking/models.py:198-208 | Without dates, only the lump price and the per-person price remain. |
| BookingModels.ItemAmountWithoutHeadcount | booking/models.py:198-208 | Without a headcount, only the lump price and the per-night price remain. |
| BookingModels.HasProduct | booking/models.py:182-188 | `terrain` and `village` hold iff some item is of product 1 or product 2 respectively. |
| BookingModels.SumNullableValue | booking/models.py:129-142 | An SQL SUM is NULL exactly when every summand is NULL, and otherwise adds the non-NULL ones. |
| BookingModels.MinBegin | booking/models.py:127 | `begin` is the earliest item begin, skipping NULL dates, and NULL when there is none. |
| BookingModels.MaxEnd | booking/models.py:127 | `end` is the latest item end, skipping NULL dates, and NULL when there is none. |
| BookingModels.BookingTotalsAddUp | booking/models.py:127-146 | With the intended sums, the booking amount is the sum of its items' amounts. The headcount is NULL iff no item has one, and otherwise it is their sum. The balance is NULL without payments, and otherwise it is the amount less the payments. |
| BookingModels.JoinMultiplies | booking/models.py:127-146 | In the query as written, every item sum is counted once per payment, and the payment sum once per item. |
| BookingModels.JoinExample | booking/models.py:132-146 | Two items at 100.00 and one payment of 50.00 give a balance of 100.00 as written, and 150.00 as intended. |
| Tracking.Database.Save | booking/models.py:45-65 | The tables after a save are `SaveEffect` of the tables before it. The method returns the object's key, or None when the stored row is missing. |
| Tracking.Database.Delete | booking/models.py:67-74 | The tables after a delete are `DeleteEffect` of the tables before it. |
| Tracking.RecordedExactly | booking/models.py:56-65 | A save records exactly the fields it should, in field order. Each value is under the save's event and carries the text of the new value. |
| Tracking.FirstSaveRecords | booking/models.py:60 | A first save records exactly the non-id fields that are neither None nor the empty string. |
| Tracking.ChangeRecords | booking/models.py:60 | A later save records exactly the non-id fields whose value differs from the stored row. |
| Tracking.UnchangedSaveRecordsNothing | booking/models.py:50-65 | Saving an unchanged object records an event and no value. |
| Tracking.SaveRecordsOneEvent | booking/models.py:45-65 | Every save that goes through stores the values and appends exactly one event about the saved row. A new object is tagged CHANGE, and ADD only ever appears for key 0. The save fails iff the object's stored row is missing. |
| Tracking.DeleteRecordsOneEvent | booking/models.py:67-74 | A delete appends one DELETE event, keeps the earlier events and values, and drops only that row. |
| Tracking.OperationCode | booking/models.py:51 | The operation codes are 1 for ADD, 2 for CHANGE and 3 for DELETE. |
| BookingViews.HomeIncome | booking/views.py:20-28 | The potential income is the sum of net amounts over items of state income 1. The confirmed income is the same over states 2 and 3, and the total is the sum over states 1 to 3. |
| BookingViews.HomeOvernights | booking/views.py:21-29 | The same holds for overnights, an item without dates or headcount counting 0. |
| BookingViews.TruthySum | booking/views.py:22-27 | Dropping the falsy values does not change the sum: it is the sum with None read as 0. |
| BookingViews.OccupancyTotal | booking/views.py:66-72 | The total is the headcount of the occupying items. Each occupying item's booking has a line, and each line carries the headcount of its booking's occupying items. |
| BookingViews.Occupants | booking/views.py:67-68 | The occupying items are exactly those with the product, begin ≤ day < end, a state income of 1, 2 or 3 and a headcount. |
| BookingViews.OccupancyTable | booking/views.py:76-80 | The table has 365 rows, and row i is the village and terrain occupancy of the i-th day from 1 January 2017. |
| BookingViews.TableDays | booking/views.py:77-78 | The table's days are consecutive valid days of 2017, the last one 31 December. |
| BookingViews.NextOrder | booking/views.py:46-49 | The next order is one more than the highest order of the year's agreements, or 1 when the year has none. |
| BookingViews.CreateAgreementAsWritten | booking/views.py:45-50 | The view as written: an agreement is created iff some item has a begin date. It is dated today, with the order counted in the year of the earliest item. |
| BookingViews.DuplicateNumberExample | booking/views.py:45-50 | On 2 May 2017, with agreement 2017-001 on file, a stay in July 2018 gets number 2017-001 again. |
| BookingViews.CreateAgreement | booking/views.py:45-50 | The corrected view: the order is counted in the year of the agreement's own date. |
| BookingViews.CreateAgreementFreshNumber | booking/views.py:45-50 | With the corrected count, a new agreement's number is not already taken. |
| Convert.Database.Convert | booking/management/commands/convert.py:11-47 | The tables after the command are `ConvertGroups` of the legacy groups applied to the old tables. |
| Convert.Database.CreateItems | booking/management/commands/convert.py:25-34 | The headcount loop appends one item per headcount, in order. The bookings and payments stay as they were. |
| Convert.JoinNames | booking/management/commands/convert.py:6-7 | The two names are separated by one space when both are non-empty, and simply concatenated otherwise. |
| Convert.JoinNamesSplits | booking/management/commands/convert.py:6-7 | When the first name has no space, the contact splits back into the two names at its first space. |
| Convert.OrgType | booking/management/commands/convert.py:19 | Types 1 and 2 are kept, and every other type becomes 5. |
| Convert.ConvertShape | booking/management/commands/convert.py:12-47 | The n-th group becomes the n-th new booking (`BookingOf`: its name, contact, email, telephone, org type and the state "Payé"). It also becomes the n-th new payment (`PaymentOf`: mean 1, the group's cost, dated at its end or 31 December 2016), linked to that booking. Earlier rows stay. |
| Convert.ConvertItems | booking/management/commands/convert.py:25-41 | The items of the n-th new booking are its group's headcounts, in order, followed by the additional-cost line iff that cost is non-zero. |
| Convert.ItemOfAmount | booking/management/commands/convert.py:25-34 | A converted headcount costs its overnights at the headcount's price, plus the membership fee when the group paid one. |
| Convert.ExtraItemAmount | booking/management/commands/convert.py:35-41 | The extra line's amount is the additional cost and nothing more. |
| Convert.NewBookingItems | booking/management/commands/convert.py:25-41 | A new booking has no items among the existing rows, only among the appended ones. |
| Seasons.CurrentSeason | members/utils.py:8-12 | The current season is the year or the next one, and the next one iff the month is September or later. |
| Seasons.CurrentSeasonWindow | members/utils.py:8-12 | The current season of a day is exactly the season whose window (1 September to 31 August) holds it. |
| Seasons.CurrentSeasonMonotone | members/utils.py:8-12 | The current season never goes back as the date advances. |
| Seasons.TestClockSeason | jeito/test_settings.py:29-30 | The test clock, 12 March 2015, is in season 2015. |
| MembersModels.FirstOfKind | members/models.py:76-88 | The search returns the first structure, walking upward from the structure itself, whose type is in the set, or None iff there is none. |
| MembersModels.RegionSearch | members/models.py:76-81 | A region is its own region. The region found is an ancestor of type 6, and it is None iff no ancestor has type 6. |
| MembersModels.CenterIsOwnSla | members/models.py:83-88 | Every centre is its own local structure. |
| MembersModels.Centers | members/models.py:30-31 | The centres are exactly the structures of type 15, or of type 10 or 11 with subtype 1. |
| MembersModels.AdhesionSeasons | members/models.py:198-204 | The window holds the year iff the month is September or earlier, holds the next year iff the month is September or later, and holds nothing else. |
| MembersModels.Latest | members/models.py:205-208 | The result is an adhesion of the window with the highest season, or None iff the window holds no adhesion. |
| MembersModels.ActiveRule | members/models.py:192-220 | A person is active iff they are a superuser or hold an adhesion in the window. Staff and Bécours rights imply being active. |
| MembersModels.LoginTestDates | members/tests.py:21-31 | An adhesion of season 2015 lets its holder in on 30 September 2015 but not on 1 October 2015. |
| MembersModels.ResponsibleIffListed | members/models.py:262-276 | A nomination is responsible iff its function code is one of the eleven listed codes (PRE, RRR, RRI, RESLA, RESR, RCP, RESSV, RUO, RUC, RUE, RUA). The eleven codes are distinct. |
| MembersModels.NumberValidators | members/models.py:59-64 | A structure number passes its field iff it is exactly 10 digits. A member number passes its field (lines 165-170) iff it is exactly 6 digits. |
| MembersFilters.SeasonChoicesCover | members/filters.py:31 | The choices offer a season iff it lies between 2012 and the current season. |
| MembersFilters.CpnNumbersAre | members/filters.py:47-48 | The zipped centre numbers are the five prefixes followed by "00" to "04". |
| MembersFilters.CpnNumbersValid | members/filters.py:47-48 | The centre numbers are five valid 10-digit structure numbers. |
| MembersFilters.CpnNotSvn | members/filters.py:46-48 | No centre number is a holiday-service number. |
| MembersFilters.SectorsPartition | members/filters.py:79-86 | Sectors 1, 2 and 3 split the adhesions: each adhesion falls in exactly one sector. Any other value keeps everything. |
| MembersFilters.UnitsPartition | members/filters.py:88-93 | The four branches and "other units" split the adhesions. An empty value keeps everything. |
| MembersFilters.FilterDataSeason | members/filters.py:67-72 | A missing season becomes the current one. The reference filter reads the season as an integer and shifts it one season back; it fails iff that text is not an integer. The other keys are kept as given. |
| MembersFilters.CutoffInSeason | members/filters.py:95-103 | The cutoff lies inside the season. It is undefined iff it moves yesterday, yesterday is 29 February, and the target year is a common year. |
| MembersFilters.CutoffIsYesterday | members/filters.py:97-99 | For the current season the cutoff is yesterday, on every day but 1 September. |
| MembersFilters.AdhesionFilter.Qs | members/filters.py:74-103 | The result is the rows of the filtered query (`Select`, with its repeated rows) and the recorded cutoff date, or None where the season or the cutoff raises. |
| MembersFilters.SelectKeeps | members/filters.py:74-103 | The filter keeps exactly these adhesions: of the season, in the chosen sector, unit, function and rate, with a main nomination, and dated up to the cutoff when one applies. |
| MembersFilters.FunctionKeepsOne | members/filters.py:55-56 | An adhesion passes the function filter iff no function is chosen or one of its nominations is in that category. |
| MembersFilters.RateKeepsOne | members/filters.py:57-58 | An adhesion passes the rate filter iff no rate is chosen or its rate is in that category. |
| MembersFilters.MainRowsPositive | members/filters.py:74-77 | The main-nomination join gives an adhesion some row iff it has a main nomination. |
| MembersFilters.SelectRows | members/filters.py:55-77 | Each occurrence of a kept adhesion comes out once per nomination in the chosen function category (once without a function filter) times once per main nomination. |
| MembersFilters.DuplicateRowExample | members/filters.py:74-77 | An adhesion with two category-1 nominations, one of them main, comes out twice from the function and main-nomination filters. |
| MembersFilters.SelectDistinctOnce | members/filters.py:74-77 | The deduplicated query returns each adhesion the filter keeps exactly once, and no other. |
| MembersFilters.MainOnly | members/filters.py:74-77 | Only adhesions with a main nomination are kept (each once per main nomination, by MembersFilters.SelectRows). |
| DailySeries.Serie | members/views.py:45-55 | The walk as written yields `Points` of the grouped query over the days from start. |
| DailySeries.SerieDays | members/views.py:46-53 | The days of the series are exactly those from start to end, 29 February excepted, and there are none when end is before start. |
| DailySeries.PointsAreCumulative | members/views.py:48-54 | When every group is dated on or after the start, each day's value is the total of the groups dated on or before it. |
| DailySeries.PointsNonDecreasing | members/views.py:48-54 | A headcount series never decreases from day to day. |
| DailySeries.EarlyGroupStalls | members/views.py:50-51 | A group dated before the start, listed last, is never popped, and the walk stays at 0. |
| DailySeries.EarlyGroupExample | members/views.py:43-54 | Five adhesions on 2 September 2015 and one on 20 August 2015, in the season starting 1 September 2015, chart 0 every day instead of 6. |
| DailySeries.SerieCumulative | members/views.py:45-55 | The corrected walk pops every group dated on or before the current day. Its points have the same days as the written walk, and each value is the total up to that day for any dates. |
| MembersViews.AdhesionSerie | members/views.py:24-55 | The season's chart is the walk over the days from 1 September to min(31 August, yesterday). |
| MembersViews.SerieSelectedRows | members/views.py:26-42 | The chart's query returns each occurrence of an adhesion of the season in the chosen sector, unit and rate once per main nomination it has in the chosen category (once without a function filter), and no other adhesion. |
| MembersViews.MainInRowsPositive | members/views.py:39-40 | The chart's nomination join gives an adhesion some row iff one of its nominations is both main and in the category. |
| MembersViews.ChartCountsSelection | members/views.py:24-54 | With the season's adhesions dated from 1 September on, each point of the chart counts the query's rows dated up to its day, and the chart never decreases. |
| MembersViews.SerieCountsMembers | members/views.py:24-54 | The chart's days lie in the season's window and skip 29 February. When every selected adhesion is dated on or after 1 September, a point counts the adhesions dated up to its day, and the chart is non-decreasing. |
| MembersViews.ReferenceDayIsKey | members/views.py:62-67 | The reference day of the last point is a day of the previous season's chart. |
| MembersViews.FormatDiffReads | members/views.py:137-144 | The text is "=" iff the difference is 0. It starts with "+ " iff the difference is positive and with "- " iff negative, and the rest reads back as its absolute value. |
| MembersViews.PercentAgreesWithDiff | members/views.py:146-155 | The percentage is "=" iff the difference text is. It is infinite only for a zero reference and a non-zero current value. A rise or fall carries the absolute difference. |
| MembersViews.GraphLabelRule | members/views.py:162-167 | A label is shown iff the value is at least a fiftieth of the total. A shown share satisfies part × 50 ≥ whole. |
| MembersViews.LabelledAtMost50 | members/views.py:162-164 | With non-negative values adding up to at most the total, at most 50 keys get a label. |
| MembersViews.CollectRows | members/views.py:172-178 | There is one row per key of the two queries, in first-appearance order. Each column holds the last headcount the query gives the key, or 0. The totals are the two columns' query sums. |
| MembersViews.AddColumn | members/views.py:176-178 | One query's rows go into one column: each new key first gets a row of zeros, and the total grows by the query's sum. |
| MembersViews.ContextData | members/views.py:169-199 | The table holds a row per key plus the TOTAL row. The TOTAL row is the two query sums with their difference and percentage. |
| MembersViews.TotalIsColumnSum | members/views.py:173-186 | When each query names a key once, the TOTAL row is the column sum of the keyed rows. |
| MembersViews.RepeatedKeyExample | members/views.py:176-178 | A key named twice by a query shows its last headcount (3), while the total counts both (5). |
| MembersViews.WidgetReferenceDayValid | members/views.py:278-280 | The widget's reference day is the same day one year earlier, with 29 February mapped to 28 February, and it is always a valid date. |
| MembersViews.NbGroupsCounts | members/views.py:404-411 | A group counts iff its own adhesions plus those of its child structures, in the season and up to the date, number at least 3. |
| MembersViews.TallyCounts | members/views.py:406-410 | The tally has a key for every group with members, holding its number of members. |
| Text.Format03RoundTrip | booking/models.py:89 | `{:03}` writes a non-negative order as at least three digits, which read back as the order. |
| Calendar.NextIsSuccessor | members/views.py:46-47 | Adding one day gives the next valid date, with no valid date in between. |
| Calendar.BeforeIsOrdinalOrder | members/views.py:50 | Python's date comparison agrees with the order of day ordinals. |
| Calendar.ReplaceYear | members/filters.py:99 | `replace(year=y)` keeps the month and day, and is None exactly for 29 February into a common year. |

## Left out

- The fixed rows the code fetches: journal OD, accounts 1200000 and 1290000, and the state "Payé". They are assumed to exist. A missing one would make the command raise.
- The two `Year` lookups of `closing` are parameters.
- The year, title and journal of the new entry are recorded, but the year's start date is taken as given.
- `closing` and the import command are not transactions. Rows created before a failure stay, and the model keeps them.
- Dates are Python's proleptic Gregorian dates from year 1, without the 9999 upper bound.
- Query ordering (`order_by`) and the tie-breaking of `latest()` among equal keys are not modelled. Rows come in table order.
- Reports.CashFlowSerie: the grouped query is an input characterised by `GroupedByDay`, not computed from the rows. The same holds for the membership chart's grouped query (`CountsByDay`).
- Floating point:
  - the booking deposit `amount * .3`;
  - the percentages in comments, labels and widgets;
  - the `{:0.1f}` renderings.
  MembersViews.FormatPercent keeps the sign and the difference, not the rounded percentage.
- The HTML and JSON comment texts, the chart labels, `strftime`, and `CashFlowJsonView.get`'s comparison with the previous year.
- `ProjectionView` is not part of this model, nor are the filter sets behind `object_list` (`EntryFilter`, `BudgetFilter`, `BalanceFilter`, `AccountFilter`). Their output is the input rows.
- The user and the timestamp of tracking events (`CuserMiddleware`, `now()`) are not modelled.
- Tracking.Database.Delete: a delete of an object that was never saved is not distinguished.
- Field values are rendered by `str()` only for strings, integers and booleans. Other values carry their text.
- Document generation in `CreateAgreementView`: the templates, the ODT/PDF files and their names.
- Bécours comforts other than 1 and 2, where `or` on a 0 comfort differs. Becours.ComfortCommonOrMixed assumes comforts 1 and 2, as the field's choices do.
- The database key of a booking created by `convert` is its position in the booking table, not a key the database assigns. Its lines and its payment refer to that position. The group's `comments`, `invoice` and `invoice_number` are copied as opaque values.
- Convert.Database.Convert, Convert.ConvertShape, Convert.ConvertItems, Convert.ItemOfAmount, Convert.ExtraItemAmount: they follow the schema `convert` was written for, which is not the one in becours/models.py and booking/models.py. That schema has a legacy `Group` with `comments`, `invoice_number`, `cost`, `coop_cost` and `additional_cost`, a `Headcount` with `cost`, and a `Booking` with `invoice` and `invoice_number`. In the model files of this repository only `Group.invoice` exists among these, so `convert` run against them would raise on the first missing attribute.
- MembersFilters.AdhesionFilter.Qs, MembersFilters.FunctionKeepsOne, MembersFilters.MainOnly, MembersFilters.SelectRows, MembersViews.SerieSelected: the lookups `nomination__…` of members/filters.py and members/views.py are read as the reverse relation of `Nomination.adhesion`. members/models.py names that relation `nominations`, under which those lookups would raise FieldError. The model follows the schema the filters were written for.
- ImportEntries.Journal.GetOrCreateAccount: the account table is keyed by number, so account numbers are assumed unique. `Account.number` has no unique constraint. With two stored accounts of the same number, `get_or_create` raises MultipleObjectsReturned, a case the model cannot represent, and ImportEntries.ImportRuns is stated only for tables with unique numbers.
- `csv.reader` quoting: the model splits each line on ";". The file I/O is the list of lines.
- `int()` also accepts digit-group underscores and Unicode whitespace and digits. ParseInt reads only ASCII spaces, an optional sign and ASCII digits.
- Python's `\d` also matches non-ASCII digits. The number validators model ASCII digits only.
- Reverse operations of migrations are `RunPython.noop` and do nothing. The schema operations are not modelled.
- The form layer of `AdhesionFilter`:
  - the ChoiceFilter validation of the submitted values;
  - the checkbox parsing of `date2date`;
  - the `KeyError` of a missing GET parameter in the views.
  The request data are plain strings with a missing key read as "".
- The row keys of the individual `Tableau*` views: the table works on (key, headcount) rows.
- The widgets' ratios and the revenue widget are not modelled.
- `AdhesionFactory` and the login machinery of the tests: a test's person is one adhesion of season 2015.
- Convert.Database.Convert: the tracking rows (`TrackingEvent`, `TrackingValue`) that each save of a booking, item or payment appends are not modelled; the conversion states only the booking tables. Tracking.Database.Save models one save's tracking rows.
- Convert.Database.CreateItems: likewise, the tracking rows of each item's save are not part of its state.
- ImportEntries.ParseAmount: `Decimal` also reads exponents, `_` digit groups, NaN, Infinity and non-ASCII digits. The model treats those as refused.
- PostgreSQL's truncation of trailing spaces that overflow a `varchar` is not modelled: a value too long for its column always raises.
- The multi-valued joins of 0021 and 0054 can return an entry more than once. The model selects each entry once, which stores the same rows, since saving a subtype row again overwrites it with itself.

## Findings

| source | as written | input that shows it | evidently intended | confidence | as-written member | corrected member |
|---|---|---|---|---|---|---|
| members/views.py:48-54 (the same walk at accounting/views.py:211-217) | Only the last group of the descending grouped list is compared with the current day, and only for equality. A group dated before the first day is never popped, and it blocks every group behind it. | Season 2016: five adhesions dated 2 September 2015 and one dated 20 August 2015. The chart shows 0 on every day. | Each day shows the number of adhesions dated on or before it (6 from 2 September). | not executed | DailySeries.EarlyGroupStalls, DailySeries.EarlyGroupExample | DailySeries.SerieCumulative (with DailySeries.PointsAreCumulative) |
| booking/models.py:127-146 | Every `Sum('items__…')` and `Sum('payments__amount')` runs over the join of items and payments. Item sums are counted once per payment, and payments once per item. | Two items at 100.00 and one payment of 50.00: the payment sums to 100.00 and the balance to 100.00. | Item sums over the items, the payment sum over the payments: a balance of 150.00. | not executed | BookingModels.BookingTotalsAsWritten, BookingModels.JoinExample, BookingModels.JoinMultiplies | BookingModels.BookingTotalsOf, BookingModels.BookingTotalsAddUp |
| members/filters.py:74-77 | The function filter and the main-nomination filter are two separate joins on nominations, so the query returns an adhesion once per nomination in the chosen category times once per main nomination. The comment says the second filter deduplicates, and the tables count these rows with `Count('id')`. | An adhesion with two nominations in function category 1, one of them main, filtered on category 1: it comes out twice. | Each kept adhesion once (a `.distinct()` query). | not executed | MembersFilters.SelectRows, MembersFilters.DuplicateRowExample | MembersFilters.SelectDistinct (with MembersFilters.SelectDistinctOnce) |
| booking/views.py:45-50 | The order is counted among the agreements of the year of the earliest item. The agreement is dated today, and its number shows today's year. | On 2 May 2017, with agreement 2017-001 on file, an agreement for a July 2018 stay gets order 1 and number 2017-001 again. | Count the order in the year the number shows, so that numbers are unique. | not executed | BookingViews.CreateAgreementAsWritten, BookingViews.DuplicateNumberExample | BookingViews.CreateAgreement, BookingViews.CreateAgreementFreshNumber |

The corrected filter query is a separate function: the filter object (MembersFilters.AdhesionFilter.Qs) and the tables keep the query as written. The corrected walk is a separate method, and the membership chart keeps the walk as written. MembersViews.SerieCountsMembers therefore states its counting property only for adhesions dated on or after 1 September. The cash-flow series never meets the stall, because its query only returns days of the season (Reports.GroupsInSeason).
