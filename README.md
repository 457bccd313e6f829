# Treasury ledger core, modelled in Dafny

This project models the bookkeeping core of a small charity treasury web
application. The treasury records revenues and expenses in Egyptian pounds
(EGP) or US dollars (USD). It also keeps recurring expenses, disbursement
sheets of beneficiaries, projects, monthly budgets per expense category, and
one global USD-to-EGP exchange rate.

What the model covers:

- **Dates** (`dates.dfy`): calendar dates and the JavaScript `setMonth` /
  `setFullYear` roll-over. Jan 31 plus one month is Mar 3 (Mar 2 in a leap
  year), and Feb 29 plus one year is Mar 1.
- **Types** (`types.dfy`): the records and enumerations of `types.ts`.
- **USD normalisation and totals** (`normaliser.dfy`):
  - The dashboard totals and the report summary divide an EGP amount by the
    transaction's own rate snapshot when it is an expense, and by the global
    rate otherwise.
  - The category breakdown, the trend and the budget view use the snapshot
    of any transaction that carries one (`t.exchangeRate || rate`).
- **Report views** (`aggregation.dfy`):
  - expenses by category, in first-occurrence order;
  - the six-month trend, a method with a loop;
  - budget against actual spending for the current month;
  - saving and reloading of the budget form.
- **Recurring expenses** (`recurrence.dfy`):
  - `calculateNextDueDate`, as a method with a loop;
  - the start-up catch-up, which books one expense transaction per missed
    due date, moves each due date to today or later, and collects the
    expenses due tomorrow. It is a per-expense method, a specification
    function for the whole run, and lemmas about both.
- **Listing utilities** (`listing.dfy`): the two filter panels, ten-per-page
  pagination, the report's category toggle, the project column of a row, and
  which disbursement sheet becomes active after a delete.
- **Handlers as functions** (`updates.dfy`, `collections.dfy`): the save and
  delete handlers, with the stable newest-first sort and the modal's
  submission.
- **The mutable store** (`ledger.dfy`): a `Ledger` class whose methods are the
  handlers.
  - Each method states its whole new state in terms of the functions above.
  - Each method keeps the invariant that ids are unique in every collection.
  - `CatchUp` runs the start-up effect.

Points where the code behaves differently from what a reader might expect:

- **Editing an EGP expense without typing a rate.** The comment at
  App.tsx:2586-2587 says an edited EGP expense without a rate is re-stamped
  with the current global rate. The modal, however, builds its submission
  from the stored transaction (App.tsx:402) and only overwrites the rate
  when a positive one is typed (App.tsx:415-420). So the save handler
  receives the old rate and keeps it (`Updates.EditKeepsCarriedRate`). The
  re-stamp happens only when a submission really has no rate
  (`Updates.Edited`).
- **A new EGP expense.** It always gets the global rate, even when a rate was
  typed (App.tsx:2605-2608).
- **Order of the category breakdowns.** They are ordered by first occurrence
  in the transaction list (`Object.entries` of a fold), not in enumeration
  order. The budget view does use enumeration order (App.tsx:1980).
- **Conversion in the trend and category views.** They use the looser
  `t.exchangeRate || rate`, not the totals' rule.
  `Normaliser.LooseAgreesWhenWellPlaced` shows the two agree whenever only
  EGP expenses carry a rate, which every save path keeps
  (`Updates.SaveKeepsRatesWellPlaced`). `Normaliser.LooseDiffersOnRatedRevenue`
  shows they differ otherwise.
- **The trend window near the end of a month.** Each bucket is today moved
  back with `setMonth` (App.tsx:1247-1248). When the target month is shorter
  than today's day, the date rolls into the following month. On the 29th to
  31st a month can then appear twice and the month before it not at all
  (`Aggregation.MonthEndTrendWindow`). Only the first of two equal buckets is
  found, so the second stays at zero (`Aggregation.FinancialTrend`).
- **Catch-up bookings are appended unsorted.** The bookings are added after
  the existing transactions (App.tsx:2552). They carry no rate snapshot, so
  they are valued at the live global rate (`Recurrence.BookingsValuedAtLiveRate`).

Modelling choices:

- Amounts and rates are mathematical reals. A rate is a real greater than
  zero.
- Dates are valid calendar triples. Comparing two `YYYY-MM-DD` strings is
  chronological order.
- "Today", the creation time of a sheet, and fresh ids are parameters. The
  k-th transaction booked by a catch-up run gets the id `mintId(k)`.

## Model

| member | source | states |
|---|---|---|
| Dates.DaysInMonth | App.tsx:2495-2499 | month lengths of the Gregorian calendar: February has 29 days exactly in leap years, December 31 |
| Dates.Normalise | App.tsx:2496 | a day past the end of its month rolls into the next month by the excess, as a JavaScript Date does |
| Dates.AddMonth | App.tsx:2496 | `setMonth(+1)`: strictly later; the next month with the same day, or two months on with a smaller day when the day overflows |
| Dates.AddYear | App.tsx:2498 | `setFullYear(+1)`: same month and day one year on, except Feb 29 which becomes Mar 1 |
| Dates.NextDay | App.tsx:2508-2509 | tomorrow: later than today with no valid date in between |
| Dates.BeforeIsLexicographic | App.tsx:2494 | `date < now` on calendar dates: earlier year, or same year and earlier month, or same month and earlier day |
| Dates.BeforeMonthIndex | App.tsx:2520 | an earlier date is in the same or an earlier month, which bounds the catch-up loops |
| Dates.MonthsBack | App.tsx:1247-1248 | `setMonth(getMonth() - n)`: n months back with the same day when that month is long enough, else the overshoot into the month after it; from a day up to the 28th always exactly n months back |
| Dates.MonthEndMonthsBack | App.tsx:1247-1248 | from 31 May 2024 one to five months back land on 1 May, 31 March, 2 March, 31 January and 31 December 2023 |
| Types.ExpenseCategories | types.ts:20-27 | the six expense categories in declaration order, pairwise distinct, Operational first and Rewards last |
| Types.ExpenseCategoriesComplete | types.ts:20-27 | every expense category appears in the enumeration |
| Types.LabelInjective | types.ts:11-27 | the twelve category strings are distinct, so keying by the string is keying by the category |
| Normaliser.ToUSD | App.tsx:2472-2473 | a USD amount is unchanged; an EGP amount times the effective rate (expense snapshot, else global) gives back the amount |
| Normaliser.ToUSDLoose | App.tsx:1234-1235 | the same with any snapshot taking precedence over the global rate |
| Normaliser.NormalisationIdentity | App.tsx:2473 | a USD transaction's value does not depend on the global rate |
| Normaliser.SnapshotPrecedence | App.tsx:2472 | an EGP expense with a snapshot is valued at that snapshot whatever the global rate |
| Normaliser.GlobalRateFallback | App.tsx:2472 | an EGP revenue, or an EGP expense without snapshot, is valued at the global rate |
| Normaliser.LooseAgreesOnExpenses | App.tsx:1234-1235 | the loose and strict conversions agree on expenses and on transactions without snapshot |
| Normaliser.LooseAgreesWhenWellPlaced | App.tsx:1258-1259 | they agree on every transaction whose snapshot, if any, sits on an EGP expense |
| Normaliser.LooseDiffersOnRatedRevenue | App.tsx:1258-1259 | a revenue carrying a rate is valued differently by the two conversions |
| Normaliser.SnapshotScenario | App.tsx:2472-2473 | 200 EGP booked at 50 stays 4 USD after the global rate moves to 48 |
| Normaliser.OfKind | App.tsx:1231 | `filter` by type: no longer than the input, every element of the requested type |
| Normaliser.Accumulate | App.tsx:2471-2480 | the reduce yields the revenue sum and the expense sum, each over the transactions of that type |
| Normaliser.UnifiedBalances | App.tsx:2469-2486 | total revenues, total expenses, and a balance equal to their difference |
| Normaliser.TotalsPartition | App.tsx:2474-2478 | revenue and expense sums together account for every transaction exactly once |
| Normaliser.BalanceCoversEveryTransaction | App.tsx:2474-2478 | the two dashboard totals add up to the value of the whole list |
| Normaliser.BalancesAppend | App.tsx:2471-2480 | the totals of two concatenated lists are the sums of their totals |
| Aggregation.AddTo | App.tsx:1236 | `acc[c] = (acc[c] or 0) + v`: only c's entry grows, by v; a new key goes last |
| Aggregation.FirstOccurrences | App.tsx:1240 | the keys of an object built by insertion: the same elements, each once |
| Aggregation.ExpensesByCategory | App.tsx:1229-1241 | keys are the expense categories in first-occurrence order; each value is the loose USD sum of that category's expenses; the values total the expenses |
| Aggregation.ByCategoryStep | App.tsx:1232-1237 | one more transaction: an expense with a new category appends that category, and the loose expense sum grows by its value |
| Aggregation.SumLooseOfExpenses | App.tsx:1234-1235 | over expenses only, the loose sum equals the strict sum |
| Aggregation.ByCategoryAddsUpToExpenses | App.tsx:1229-1241 | the category breakdown totals exactly the dashboard's expense total |
| Aggregation.OfKindMembers | App.tsx:1231 | a transaction survives the type filter iff it is in the list and has that type |
| Aggregation.ByCategoryKeys | App.tsx:1236-1240 | a category is a key iff some expense has it |
| Aggregation.FromIndex | App.tsx:1248 | a month count maps back to a valid year and month |
| Aggregation.TrendWindow | App.tsx:1246-1250 | six valid months, oldest first, ending with today's month; bucket k lies 5 - k months back or one month later; up to the 28th they are exactly the six consecutive months |
| Aggregation.WindowMonth | App.tsx:1247-1248 | bucket k is the month of today moved back 5 - k months, which is that month or the one after it, and exactly that month up to the 28th |
| Aggregation.InTrendWindow | App.tsx:1246-1256 | every bucket lies in the five months before today's month or in it; up to the 28th each of those months is a bucket |
| Aggregation.MonthEndTrendWindow | App.tsx:1246-1250 | on 31 May 2024 the buckets are Dec, Jan, Mar, Mar, May, May: February and April have none |
| Aggregation.EarlyInMonthEveryBucketCounts | App.tsx:1246-1256 | up to the 28th the six buckets are distinct, so each is the first of its month |
| Aggregation.EightMonthsBackIsOutside | App.tsx:1256-1257 | a transaction eight months back falls in no bucket and is dropped |
| Aggregation.FindBucket | App.tsx:1256 | `find`: the first bucket of that month, -1 iff none |
| Aggregation.PeriodSumPrefix | App.tsx:1252-1264 | one more transaction raises a month's sum of a type by its loose USD value exactly when it has that type and month |
| Aggregation.TrendStart | App.tsx:1249 | the zeroed buckets hold the sums over no transactions |
| Aggregation.TrendStep | App.tsx:1252-1265 | adding one transaction to the first bucket of its month, under its type, keeps every bucket equal to its month's sums so far, or to zero for a repeated month |
| Aggregation.FillBuckets | App.tsx:1252-1266 | the loop leaves in each first bucket of a month the loose USD sums of that month's revenues and expenses, and zeros in a repeated bucket |
| Aggregation.FinancialTrend | App.tsx:1245-1269 | six buckets in window order, each first bucket of its month holding that month's loose USD revenue and expense sums, a repeated month's bucket zero |
| Aggregation.TrendEarlyInMonth | App.tsx:1245-1269 | up to the 28th every bucket holds its month's revenue and expense sums |
| Aggregation.MonthlyExpenses | App.tsx:1967-1971 | exactly the expenses dated in the given month: every kept transaction is one, every such expense of the list is kept |
| Aggregation.Row | App.tsx:1980-1992 | a row of the category, budget and actual given, remaining budget minus actual, percentage at most 100 |
| Aggregation.RowPercentage | App.tsx:1987-1990 | the percentage is 0 without a positive budget, 100 iff actual meets the budget, else actual/budget in percent, and never negative for non-negative spending |
| Aggregation.BudgetVsActual | App.tsx:1962-1993 | one row per expense category in enumeration order, each the row of its budget field (0 if empty) and this month's loose USD spending on it |
| Aggregation.BudgetIgnoresOtherTransactions | App.tsx:1967-1971 | a revenue, or an expense of another month, changes no row |
| Aggregation.BudgetCountsMonthExpense | App.tsx:1973-1977 | an expense of this month adds its USD value to its own category's row only |
| Aggregation.CategorySumSnoc | App.tsx:1236 | one more transaction raises a category's sum by its loose USD value exactly when it is an expense of that category |
| Aggregation.SaveBudgetsFrom | App.tsx:1938-1944 | only positive fields become budgets, in USD with the field's amount |
| Aggregation.SaveBudgets | App.tsx:1937-1946 | the same over the form's categories |
| Aggregation.LoadBudgetFields | App.tsx:1838-1845 | a field is filled iff some budget of that category exists, and holds the amount of the first such budget |
| Aggregation.FirstBudgetOfSaved | App.tsx:1938-1944 | the first saved budget of a category is its field iff that field is positive |
| Aggregation.FirstBudgetCons | App.tsx:1841 | `find` returns the first budget when its category matches, and searches the rest otherwise |
| Aggregation.LoadAfterSave | App.tsx:1838-1845 | reloading saved budgets gives back exactly the positive fields |
| Aggregation.SaveDependsOnPositiveFields | App.tsx:1939 | empty or non-positive fields have no effect on what is saved |
| Aggregation.SaveLoadRoundTrip | App.tsx:1937-1946 | saving, reloading and saving again stores the same budgets |
| Collections.Keys | App.tsx:2580 | the ids of a collection, position by position |
| Collections.IndexOf | App.tsx:2580 | `findIndex`: the first position with that id, -1 iff none has it |
| Collections.Replace | App.tsx:2738-2739 | overwrite the record with the same id; ids and other positions unchanged; no-op when the id is unknown |
| Collections.RemoveById | App.tsx:2620 | `filter`: keeps exactly the records with another id |
| Collections.RemoveByIdSingle | App.tsx:2620 | a one-record list is kept iff its id differs |
| Collections.RemoveByIdAppend | App.tsx:2620 | filtering a concatenation filters each part and keeps them in order, so the survivors keep their relative order |
| Collections.RemoveAbsent | App.tsx:2649 | filtering out an unknown id changes nothing |
| Collections.RemoveKeepsUnique | App.tsx:2680 | deleting keeps ids distinct |
| Collections.AppendFreshKeepsUnique | App.tsx:2641 | appending under an unused id keeps ids distinct |
| Collections.ReplaceThenFind | App.tsx:2739 | after an edit the edited record is found at its old position |
| Collections.OverwriteKeepsUnique | App.tsx:2661 | overwriting a record by one with its id keeps ids distinct |
| Collections.RemoveFreshAppended | App.tsx:2641 | appending under an unused id and filtering that id out gives the collection back |
| Recurrence.Step | App.tsx:2495-2499 | one period on: strictly later, in a later month, at most two months on for monthly |
| Recurrence.Iterate | App.tsx:2494-2500 | k periods on: at least k months later, strictly later when k > 0 |
| Recurrence.NextOnOrAfter | App.tsx:2494-2500 | the first date of the chain not before today; the start itself when not overdue |
| Recurrence.DueDatesBefore | App.tsx:2520-2540 | the missed due dates: empty iff not overdue, starting at the due date, each one period after the last, all before today |
| Recurrence.DueDatesFollowChain | App.tsx:2520-2540 | the k-th missed date is k periods on, and the new due date is one period after the last missed one |
| Recurrence.DueDateIsChainDate | App.tsx:2520-2537 | the k-th missed due date is the start moved on k periods |
| Recurrence.NextFollowsDueDates | App.tsx:2520-2539 | the new due date is the start moved on once per missed date |
| Recurrence.IterateShift | App.tsx:2535 | stepping first and then k times is stepping k + 1 times |
| Recurrence.NextDueIsFirstOnChain | App.tsx:2494-2500 | the next due date is the first chain date not before today; all earlier ones are before today |
| Recurrence.CalculateNextDueDate | App.tsx:2489-2502 | the loop returns the first chain date not before today |
| Recurrence.Materialise | App.tsx:2522-2530 | a booking is an expense on the due date with the expense's amount, currency and category, the "(دوري)" suffix, no rate and no project |
| Recurrence.Generated | App.tsx:2520-2531 | one booking per missed date, numbered consecutively |
| Recurrence.Advance | App.tsx:2517-2545 | the catch-up of one expense: only its due date moves, to a date not before today, with one booking per missed due date |
| Recurrence.AdvanceContract | App.tsx:2516-2540 | only the due date moves, never back and never before today; bookings exist iff overdue; each is a rate-less expense copy dated on the chain before today |
| Recurrence.AdvanceIdempotent | App.tsx:2520 | advancing an advanced expense again books nothing and changes nothing |
| Recurrence.AdvanceExpense | App.tsx:2516-2545 | the loop computes the advanced expense and its bookings |
| Recurrence.AdvanceStep | App.tsx:2520-2539 | one turn of the while loop keeps its invariant: the missed dates split into those booked and those still ahead, with the same final due date |
| Recurrence.AdvanceExit | App.tsx:2520 | when the loop condition fails the loop has computed the expense's catch-up |
| Recurrence.ChainStep | App.tsx:2520-2537 | an overdue date is missed and the chain continues one period on |
| Recurrence.GeneratedStep | App.tsx:2531 | pushing one more booking gives the bookings of one more missed date, with the next id |
| Recurrence.AdvanceBooksIffOverdue | App.tsx:2520-2521 | an expense books something iff it is overdue, and one that is not stays as it was |
| Recurrence.CatchUpRun | App.tsx:2511-2546 | the whole start-up run in list order: one advanced expense per expense, reminders all due tomorrow; its full meaning is stated by CatchUpAdvancesEach, CatchUpBooksIffOverdue, UpcomingIffDueTomorrow and CatchUpIdempotent |
| Recurrence.CatchUpAdvancesEach | App.tsx:2516-2540 | the run keeps the list's length and moves each expense, in place, to its first due date not before today |
| Recurrence.CatchUpRemindersDueTomorrow | App.tsx:2543-2545 | every reminder of the run is due tomorrow |
| Recurrence.AnyOverdueSnoc | App.tsx:2516-2520 | some expense of a longer list is overdue iff one of the shorter list is or the new one is |
| Recurrence.SomeOverdueIsAny | App.tsx:2516-2520 | the run-order test for an overdue expense agrees with "some expense is overdue" |
| Recurrence.CatchUpBooksIffSomeOverdue | App.tsx:2519-2521 | the run books something iff some expense is overdue, in run order |
| Recurrence.CatchUpKeepsOnTimeExpenses | App.tsx:2516-2546 | when no expense is overdue the run leaves the expenses as they were |
| Recurrence.CatchUpBooksIffOverdue | App.tsx:2519-2521 | the run books something iff some expense is overdue; otherwise the expenses are unchanged |
| Recurrence.CatchUpBookings | App.tsx:2522-2530 | every booking is an expense without rate, dated before today |
| Recurrence.CatchUpIds | App.tsx:2523 | the k-th booking of the run gets the k-th fresh id |
| Recurrence.UpcomingIffDueTomorrow | App.tsx:2543-2545 | an expense is a reminder iff it is advanced and now due tomorrow |
| Recurrence.CatchUpIdempotent | App.tsx:2505-2561 | a second run on the same day books nothing and changes nothing |
| Recurrence.BookingsValuedAtLiveRate | App.tsx:2522-2530 | bookings are valued at the current global rate |
| Recurrence.OfKindOfExpenses | App.tsx:2524 | a list of expenses is its own expense part and has no revenue part |
| Recurrence.CatchUpTotals | App.tsx:2552 | appending the bookings leaves revenues unchanged and raises expenses by their value |
| Recurrence.ThreeMonthsBehind | App.tsx:2520-2540 | a monthly expense due 2024-01-15, caught up on 2024-04-10, books three dates and is next due 2024-04-15 |
| Recurrence.MonthEndDrift | App.tsx:2535 | a monthly expense from 2023-01-31 drifts to 2023-03-03, then 2023-04-03 |
| Recurrence.LeapDayYearly | App.tsx:2537 | a yearly expense from 2024-02-29 is next due 2025-03-01 |
| Listing.Select | App.tsx:1388 | `filter`: exactly the accepted transactions |
| Listing.SelectSingle | App.tsx:1388 | a one-transaction list is kept iff it is accepted |
| Listing.SelectAppend | App.tsx:1388 | selecting from a concatenation selects from each part, in order |
| Listing.FilterTransactionsInOrder | App.tsx:1387-1396 | the list filter keeps the list's order: it filters each part of a concatenation, and keeps a single transaction iff it meets every bound |
| Listing.FilterReportInOrder | App.tsx:1897-1905 | the report filter keeps the list's order in the same way |
| Listing.FilterTransactions | App.tsx:1387-1396 | the list keeps exactly the transactions meeting every set bound |
| Listing.FilterReport | App.tsx:1897-1905 | the report keeps exactly the transactions within the dates, of the type and in the chosen categories |
| Listing.SelectAll | App.tsx:1394 | a filter accepting everything keeps the list as it is |
| Listing.ClearedFiltersKeepAll | App.tsx:1389-1393 | empty filter inputs keep every transaction in order |
| Listing.ReportByTypeIsOfKind | App.tsx:1901 | filtering the report by type alone is the type filter of the totals |
| Listing.ReportSummary | App.tsx:1907-1919 | revenue and expense sums over the filtered transactions, strict conversion |
| Listing.UnfilteredReportMatchesDashboard | App.tsx:1907-1919 | without filters the report summary equals the dashboard totals |
| Listing.ExpenseDistribution | App.tsx:1995-2005 | per-category sums of the filtered expenses, totalling the report's expense figure |
| Listing.TotalPages | App.tsx:1398 | the least page count that holds the list at ten per page |
| Listing.PageSlice | App.tsx:1399-1400 | a page is the run of at most ten consecutive transactions starting at its offset, full when enough remain |
| Listing.RowOnItsPage | App.tsx:1398-1400 | every transaction appears on a page within the page count, at its position |
| Listing.PrevPage | App.tsx:1470 | one back from a page above 1, page 1 otherwise |
| Listing.NextPage | App.tsx:1478 | one on from a page before the last, the last page otherwise |
| Listing.PageButtonsStayInRange | App.tsx:1470-1478 | from a valid page both buttons land on a valid page |
| Listing.NextPageFromStalePage | App.tsx:1478 | from a page past a shrunk list, next jumps back to the last page |
| Listing.ToggleCategory | App.tsx:1877-1884 | the category flips membership, others keep theirs; a new one goes last |
| Listing.RemoveCategory | App.tsx:1880 | removes every copy of the category and nothing else |
| Listing.ToggleTwice | App.tsx:1879-1881 | toggling twice restores the selection |
| Listing.RemoveAppended | App.tsx:1880-1881 | removing a just-appended category restores the list |
| Listing.FindProject | App.tsx:295 | `find`: the first project with that id, none iff no project has it |
| Listing.ProjectLabel | App.tsx:293-296 | "-" without a project, the found project's name when it has one, "مشروع محذوف" when it was deleted |
| Listing.FirstOtherSheet | App.tsx:1719 | the id of the first sheet other than the deleted one, none iff there is no such sheet |
| Listing.NextActiveSheet | App.tsx:1714-1720 | deleting another sheet keeps the active one; deleting the active one activates the first surviving sheet, or none when it was the only one |
| Updates.InsertNewestFirst | App.tsx:2614 | one insertion step: one more element, the same elements plus the new one |
| Updates.InsertKeepsNewestFirst | App.tsx:2614 | inserting into a newest-first list keeps it newest-first |
| Updates.ConsKeepsNewestFirst | App.tsx:2614 | an element no older than any of a newest-first list can head it |
| Updates.SortNewestFirst | App.tsx:2614 | the sort yields a permutation ordered by descending date |
| Updates.SortKeepsSortedList | App.tsx:2614 | an already newest-first list is left as it is |
| Updates.InsertKeepsUnique | App.tsx:2614 | inserting a transaction with a new id keeps ids distinct |
| Updates.SortKeepsUnique | App.tsx:2614 | sorting keeps ids distinct |
| Updates.SubmitForm | App.tsx:399-420 | the submission: the form's fields, the edited id or "", and the typed positive rate of an EGP expense, else the edited transaction's rate |
| Updates.Edited | App.tsx:2582-2594 | an EGP expense keeps a supplied rate or gets the global rate; anything else loses its rate; nothing else changes |
| Updates.Added | App.tsx:2600-2608 | a new transaction gets the fresh id; an EGP expense gets the global rate; nothing else changes |
| Updates.SavedTransactions | App.tsx:2576-2617 | newest-first permutation of the list with the edited transaction overwritten, or with the new one added; an unknown edit only sorts |
| Updates.SaveKeepsIdsUnique | App.tsx:2576-2617 | saving keeps transaction ids distinct |
| Updates.SaveKeepsRatesWellPlaced | App.tsx:2585-2594 | after a save only EGP expenses carry a rate |
| Updates.PermutationKeepsRatesWellPlaced | App.tsx:2614 | sorting cannot misplace a rate: a rearranged list has rates only where the original had |
| Updates.ReplaceKeepsRatesWellPlaced | App.tsx:2580-2595 | overwriting a transaction by one with a well-placed rate keeps every rate well placed |
| Updates.NewFormPlacesRate | App.tsx:415-420 | a new submission carries a rate only when it is an EGP expense |
| Updates.EditKeepsCarriedRate | App.tsx:402-420 | editing an EGP expense with the rate field cleared keeps the stored rate, not the global one |
| Updates.NewEgpExpenseGetsGlobalRate | App.tsx:2605-2608 | a new EGP expense is saved with the global rate under the fresh id |
| Updates.SaveUnknownEditOnlySorts | App.tsx:2580-2581 | an edit of an unknown id only re-sorts the list |
| Updates.SavedRecurring | App.tsx:2627-2646 | an edit overwrites the expense at its position with the submission re-dated to its first due date from the start, leaving the others; an unknown id changes nothing; an add appends it re-dated under the fresh id |
| Updates.SavedRecurringNotOverdue | App.tsx:2632 | a saved recurring expense is due on the first chain date from its start not before today, so the catch-up books nothing for it |
| Updates.SavedSheets | App.tsx:2656-2677 | an edit overwrites the sheet at its position, leaving the others, and returns no id; an unknown id changes nothing; an add appends an empty sheet and returns its id |
| Updates.SavedRecord | App.tsx:2686-2707 | only the named sheet changes, and only its records: the record overwritten or appended; an unknown sheet changes nothing |
| Updates.DeletedRecord | App.tsx:2709-2721 | only the named sheet's records change: they become the records with another id, in order, so no record with that id remains; an unknown sheet changes nothing |
| Updates.AddThenDeleteRecord | App.tsx:2699-2715 | adding a record then deleting it restores the sheets |
| Updates.SavedRecordKeepsIndex | App.tsx:2688-2704 | saving a record keeps every sheet at its position, so its sheet is found where it was |
| Updates.UnlinkProject | App.tsx:2752-2757 | exactly the transactions linked to the project lose the link; nothing else changes |
| Updates.UnlinkIsExact | App.tsx:2753-2754 | no transaction stays linked, and a transaction changes iff it was linked |
| Updates.SavedProjects | App.tsx:2735-2748 | an edit overwrites the project at its position, leaving the others; an unknown id changes nothing; an add appends it under the fresh id |
| Store.Ledger.constructor | App.tsx:2435-2441 | the store holds the loaded collections, and is valid iff their ids are unique |
| Store.Ledger.SaveTransaction | App.tsx:2576-2617 | transactions become the saved list, other state unchanged, ids stay unique |
| Store.Ledger.DeleteTransaction | App.tsx:2619-2625 | the transaction is filtered out, other state unchanged |
| Store.Ledger.SaveRecurringExpense | App.tsx:2627-2646 | the expense is saved with its recomputed due date, other state unchanged |
| Store.Ledger.DeleteRecurringExpense | App.tsx:2648-2654 | the expense is filtered out, other state unchanged |
| Store.Ledger.SaveSheet | App.tsx:2656-2677 | the sheet is saved and the new id returned on add, other state unchanged |
| Store.Ledger.DeleteSheet | App.tsx:2679-2684 | the sheet is filtered out, other state unchanged |
| Store.Ledger.SaveRecord | App.tsx:2686-2707 | the record is saved in its sheet, other state unchanged |
| Store.Ledger.DeleteRecord | App.tsx:2709-2721 | the record is filtered out of its sheet, other state unchanged |
| Store.Ledger.SaveSettings | App.tsx:2723-2727 | the settings are replaced, nothing else changes, ids stay unique |
| Store.Ledger.SaveBudgets | App.tsx:2729-2733 | the budgets are replaced, nothing else changes, ids stay unique |
| Store.Ledger.SaveProject | App.tsx:2735-2748 | the project is saved, other state unchanged |
| Store.Ledger.DeleteProject | App.tsx:2750-2766 | its transactions are unlinked and the project is filtered out, other state unchanged |
| Store.Ledger.CatchUp | App.tsx:2505-2561 | expenses are advanced and bookings appended only when something was overdue; reminders are raised iff anything was booked or is due tomorrow |
| Store.AdvanceAll | App.tsx:2511-2546 | the loop over the expenses computes the whole run, and `updated` holds iff something was booked |
| Store.CatchUpRunPrefix | App.tsx:2516-2546 | the run over one more expense is the run so far followed by that expense's catch-up |
| Store.CatchUpKeepsIds | App.tsx:2539 | advancing keeps the expenses' ids in order |
| Store.CatchUpKeepsUnique | App.tsx:2548-2553 | after the run the expenses' ids stay unique and the appended bookings add fresh, distinct transaction ids |
| Store.SameKeysKeepUnique | App.tsx:2549 | a collection with the same ids in order has unique ids when the original does |
| Store.AppendMintedKeepsUnique | App.tsx:2552 | appending bookings with distinct unused ids keeps transaction ids unique |

## Left out

- Rendering, toasts, modals, charts, the login screen and role menu: user interface only.
- Persistence through the data service: each handler's state replacement is modelled, the storage call that follows it is not.
- The AI category suggestion, the AI summary, the Excel and report exports, and receipt upload through the file reader: calls into code that is not part of this model.
- Id generation from the clock and random numbers: fresh ids are parameters, with preconditions that they are unused.
- Wall-clock time and time zones: "today" and a sheet's creation time are parameters. The UTC/local-time shift of `toISOString` on a date is not modelled.
- The date range of JavaScript dates: years are unbounded integers.
- Floating point, `parseFloat` and `NaN`: amounts and rates are reals, empty or non-numeric inputs are `None`, and a zero rate is excluded by the type `Rate`.
- Aggregation.FinancialTrend: buckets are matched by calendar month and year rather than by the localized short month name and year, which identifies the same bucket.
- Updates.SortNewestFirst: the stability of the sort (equal dates keep their relative order) is not stated.
- Updates.SortNewestFirst: the in-place sort of the copied array is modelled on values, so array aliasing is not captured.
- Updates.SubmitForm: trimming of the recipient field and the data-URL receipt are taken as given strings.
- Updates.SavedTransactions: the merge of the stored transaction with the submission is not modelled separately, because the modal's submission already carries every field of the stored transaction.
- Listing.NextActiveSheet: requires unique sheet ids; without them the source's non-null assertion can fail, and that failure is not modelled.
- Listing.PageSlice: requires a page of at least 1, as the page state never goes lower.
- Recurrence.CatchUpRun: the source also writes the new due date into the shared expense object while it loops; the model produces new values instead.
- Store.Ledger.CatchUp: the catch-up bookings are appended without re-sorting, as in the source.
- Store.Ledger.SaveSheet: requires the records of an edited sheet to have unique ids, which the editing form preserves.
