# Cash-flow ledger

A model of the cash-flow ledger of a personal-finance app: `utils/cashFlowStorage.ts`.
The ledger keeps two persisted records:

- an optional **balance**: the initial balance, the current balance, the total income and the last entry id;
- a list of **income entries**: an amount, a date, a description, a category and a creation time. Each entry is stamped with the running balance after it (`balanceAfter`).

Every operation that changes the entries recomputes the running balances from the initial balance. It sorts the entries by date, then by creation time, and takes prefix sums.

The model has six modules:

- `CashFlowTypes` (types.dfy): the records, the nine categories and the errors the ledger throws (`ValidationError`, `NotFoundError`, `BalanceNotInitializedError`).
- `Validation` (validation.dfy): the four field validators and the whole-draft and partial-update checks.
- `RunningBalance` (running_balance.dfy): the stable sort used by the ledger and `calculateRunningBalance` as a loop. It also defines the ledger invariant `IsRunningBalance`, with its lemmas.
- `Query` (query.dfy): `filterEntriesByDateRange`, the filter criteria of `getIncomeEntries`, the case-insensitive substring search and `findIndex`/`find`.
- `Summary` (summary.dfy): the month range, the totals, the average, the per-category breakdown (a loop), the trend against the previous month, and the start and end balances of `getMonthlySummary` as the program computes them. A corrected summary, `CorrectedMonthlySummaryOf`, sits beside it (see Findings).
- `Ledger` (ledger.dfy): the store as the class `CashFlowStore`. Its fields are `balance: Option<Balance>` and `entries: seq<Entry>`. Each exported operation of the ledger is a method on it.
  - The ghost predicate `Consistent` is the ledger invariant: the entries are in ledger order, and each is stamped with the initial balance plus the prefix sum up to it. The totals agree with the entries.
  - The save, update, delete and recalculate methods establish `Consistent` whatever state they start from. `updateBalance` keeps it exactly when the amount is 0.
  - Every method keeps `WellFormed`: every stored value passed the validators.

Amounts are exact `real`s. Dates are `Date(year, month, day)` values, parsed from and printed back to `YYYY-MM-DD`. A new entry's id and creation time and the clock reading `now` are method parameters.

## Model

| member | source | states |
|---|---|---|
| Validation.ValidateAmount | utils/cashFlowStorage.ts:148-162 | passes exactly when the amount is a positive whole number of cents; fails with "not positive" exactly when the amount is at most 0; every failure is a ValidationError on the amount field |
| Validation.CentsCharacterization | utils/cashFlowStorage.ts:158-161 | "at most two decimals" holds exactly when the amount is some whole number of cents, and that number is unique |
| Validation.WholeCentsAreValidAmounts | utils/cashFlowStorage.ts:148-162 | every positive whole number of cents validates and converts back to the same cents |
| Validation.ValidAmountsAreWholeCents | utils/cashFlowStorage.ts:148-162 | every amount that validates is a positive whole number of cents |
| Validation.ValidateDate | utils/cashFlowStorage.ts:167-179 | a date that validates is a real calendar day with a four-digit year, and printing it gives back the input string; the failure is "not YYYY-MM-DD" exactly when the pattern does not match; every failure is on the date field |
| Validation.FormatInvertsParse | utils/cashFlowStorage.ts:171-178 | reading a YYYY-MM-DD string's digits and printing them again gives the same string |
| Validation.FormattedDatesValidate | utils/cashFlowStorage.ts:167-179 | every calendar date with a four-digit year, printed as YYYY-MM-DD, validates back to itself |
| Validation.Trim | utils/cashFlowStorage.ts:188 | the trimmed text is empty exactly when the text is all white space; otherwise it starts and ends with a non-space character |
| Validation.ValidateDescription | utils/cashFlowStorage.ts:184-194 | passes exactly when the text is not blank and has at most 200 characters; fails as "blank" exactly when it is all white space |
| Validation.ValidateCategory | utils/cashFlowStorage.ts:199-207 | an accepted string is the name of the category it returns; a rejected one gets the unknown-category ValidationError |
| Validation.CategoryNamesValidate | utils/cashFlowStorage.ts:199-207 | the name of each of the nine categories is accepted as that category |
| Validation.ValidateIncomeEntry | utils/cashFlowStorage.ts:212-219 | a draft passes exactly when all four fields pass, and then yields the parsed date and category; an amount failure is reported first; every failure is a ValidationError |
| Validation.ValidateUpdate | utils/cashFlowStorage.ts:414-417 | an update passes exactly when every supplied field passes its validator; it yields a parsed date and category exactly for the supplied ones |
| RunningBalance.SortBySorted | utils/cashFlowStorage.ts:263-266 | the sort's output is ordered by its comparator (and, from SortBy's own contract, is a permutation of the input) |
| RunningBalance.SortOfSortedIsIdentity | utils/cashFlowStorage.ts:263-266 | sorting a list that is already ordered leaves it unchanged |
| RunningBalance.DateOnlySortOfNewestFirst | utils/cashFlowStorage.ts:658-660 | re-sorting a newest-first list by date alone leaves the entries of each day newest first: the result is ordered by date, then by creation time descending |
| RunningBalance.ChronologicalOrderIsUnique | utils/cashFlowStorage.ts:263-266 | two orderings by (date, creation time) of the same entries are equal when the creation times are distinct |
| RunningBalance.SumOfPermutation | utils/cashFlowStorage.ts:268-270 | the total income does not depend on the order of the entries |
| RunningBalance.RunningBalanceHelperIsSum | utils/cashFlowStorage.ts:303-308 | the reduce yields the initial balance plus the sum of the amounts |
| RunningBalance.CalculateRunningBalance | utils/cashFlowStorage.ts:256-282 | the loop yields the entries in (date, creation time) order, each stamped with the initial balance plus the prefix sum up to it; the entries are the same as the input's apart from the stamps; the total is the sum of all amounts and the current balance is the initial balance plus the total |
| RunningBalance.RunningBalanceCorrect | utils/cashFlowStorage.ts:256-282 | the recomputed list satisfies the ledger invariant, has the input's entries up to stamps and the same sum, and its last stamp is the final balance |
| RunningBalance.IsRunningBalanceIffFixpoint | utils/cashFlowStorage.ts:256-282 | a list satisfies the ledger invariant exactly when recomputing it changes nothing |
| RunningBalance.RunningBalanceIdempotent | utils/cashFlowStorage.ts:256-282 | recomputing the output of a recomputation gives the same list |
| RunningBalance.RunningBalanceOfPermutation | utils/cashFlowStorage.ts:263-275 | with distinct creation times, the recomputation does not depend on the input order |
| Query.FilterEntriesByDateRange | utils/cashFlowStorage.ts:287-298 | keeps exactly the entries dated within the range, both ends included, each as often as before |
| Query.ContainsMeaning | utils/cashFlowStorage.ts:389 | the left-to-right search succeeds exactly when the needle occurs somewhere in the text |
| Query.CriteriaMeaning | utils/cashFlowStorage.ts:370-391 | an entry passes every criterion the filter supplies exactly when it matches the filter: date in range, category listed (an empty list imposes nothing), amount within the inclusive bounds, and search text (when non-empty) a case-insensitive substring of the description |
| Query.QueryMeaning | utils/cashFlowStorage.ts:361-395 | the query keeps exactly the stored entries that match the filter, each as often as stored, newest first; without a filter it returns every entry |
| Query.FindIndex | utils/cashFlowStorage.ts:421-425 | the index of the first entry with the id, or -1 exactly when no entry has it |
| Query.Find | utils/cashFlowStorage.ts:403 | an entry found is the first entry of the list with the id; nothing is found exactly when no entry has the id |
| Query.FindNewest | utils/cashFlowStorage.ts:400-405 | in a newest-first list, the entry found is the most recently created one with the id |
| Summary.MonthRangeMeaning | utils/cashFlowStorage.ts:607-613 | a calendar day is in a month's range exactly when it lies in that month, with out-of-range month numbers rolling over into the neighbouring years |
| Summary.PreviousMonthIsOneBefore | utils/cashFlowStorage.ts:634-640 | the previous month is the calendar month right before; January goes back to December of the previous year |
| Summary.Average | utils/cashFlowStorage.ts:622 | the average times the count gives the total; it is 0 when there are no entries |
| Summary.Trend | utils/cashFlowStorage.ts:636-653 | the trend is 0 when the previous total is 0; otherwise the trend times the previous total is 100 times the change, so the trend is 0 exactly when the totals are equal |
| Summary.BreakdownMeaning | utils/cashFlowStorage.ts:624-630 | the breakdown has a key exactly for the categories that occur; each value is that category's total; the values add up to the sum of the amounts |
| Summary.BuildCategoryBreakdown | utils/cashFlowStorage.ts:624-630 | the forEach loop builds exactly the breakdown of the entries |
| Summary.StartBalanceIsBalanceBeforeRange | utils/cashFlowStorage.ts:658-664 | in a consistent ledger with distinct creation times, the corrected start balance of a month with entries is the initial balance plus every amount dated before the month |
| Summary.MonthlyStartBalanceAsWritten | utils/cashFlowStorage.ts:658-666 | for a month with entries, the summary's start balance is taken from the entry that is on the month's earliest day and is the latest created of that day: its stamp minus its amount when the stamp is present and non-zero, otherwise the current balance minus the month's income |
| Summary.MonthlyStartBalanceWithoutEntries | utils/cashFlowStorage.ts:662-666 | for a month without entries, the start and end balances are both the current balance |
| Summary.CorrectedStartBalanceMeaning | utils/cashFlowStorage.ts:658-666 | in a consistent ledger with distinct creation times, the corrected summary of a month with entries starts at the initial balance plus every amount dated before the month and ends at that plus the month's amounts |
| Summary.SameDaySummaryCounterexample | utils/cashFlowStorage.ts:658-666 | for two same-day entries of 100 then 200 over an initial balance of 1000, the summary as written reports 1100 and 1400, while the corrected summary reports 1000 and 1300 |
| Summary.SameDayStartBalanceCounterexample | utils/cashFlowStorage.ts:658-666 | for two same-day entries of 100 then 200 over 1000, the start balance as written is 1100 and the end balance 1400, while the balance before the month was 1000 |
| Summary.MonthlySummaryShape | utils/cashFlowStorage.ts:615-666 | the summary fails exactly when no balance is set, with BalanceNotInitializedError; otherwise expenses are 0, the net cash flow is the income, the average is the income over the count and the end balance is the start balance plus the net cash flow |
| Summary.MonthlySummaryTotals | utils/cashFlowStorage.ts:615-630 | the income is the sum of the amounts dated in the month and equals the sum of the breakdown; the count is the number of those entries |
| Summary.MonthlyTrendMeaning | utils/cashFlowStorage.ts:632-656 | the trend compares the net cash flow with the previous calendar month's total income |
| Ledger.NewEntry | utils/cashFlowStorage.ts:320-330 | a new entry is built exactly when the draft validates, otherwise the validation error is returned; it carries the draft's fields, the given id and time and no stamp, and its date and category print back to the draft's strings |
| Ledger.Patch | utils/cashFlowStorage.ts:427-430 | a patched entry keeps its id, creation time and stamp |
| Ledger.WithoutIdMeaning | utils/cashFlowStorage.ts:471 | the filter drops exactly the entries with the id and keeps every other entry as often as before; it shortens the list when the id occurs |
| Ledger.UniqueIdMeaning | utils/cashFlowStorage.ts:471 | the filter drops exactly one entry exactly when exactly one position of the list holds the id |
| Ledger.UpdatedEntryFound | utils/cashFlowStorage.ts:427-455 | when exactly one stored entry has the id, the entry found by id after the recomputation is the patched entry, stamped |
| Ledger.PositiveStamps | utils/cashFlowStorage.ts:268-275 | with an initial balance and amounts that passed the amount validator (so are positive), every running-balance stamp of a consistent ledger is present and positive |
| Ledger.FoundNewestFirst | utils/cashFlowStorage.ts:420-425 | the id is found in the newest-first list exactly when some stored entry has it |
| Ledger.RecalculateKeepsEntries | utils/cashFlowStorage.ts:564-575 | recalculating a ledger that already satisfies the invariant, with distinct creation times, stores the same entries |
| Ledger.RecalculateKeepsTotals | utils/cashFlowStorage.ts:577-582 | recalculating totals that already agree with the entries changes only the update time of the balance |
| Ledger.CashFlowStore.constructor | utils/cashFlowStorage.ts:363-364 | an empty store has no balance and no entries and is consistent |
| Ledger.CashFlowStore.GetBalance | utils/cashFlowStorage.ts:503-513 | fails with BalanceNotInitializedError exactly when no balance is set, otherwise returns it |
| Ledger.CashFlowStore.SetInitialBalance | utils/cashFlowStorage.ts:518-537 | an invalid amount is rejected before anything changes; otherwise the balance record is replaced by one whose initial and current balance are the amount and whose totals are 0, and the entries are kept |
| Ledger.CashFlowStore.GetIncomeEntries | utils/cashFlowStorage.ts:361-395 | the successive filters narrow the entries to the query's result, newest first |
| Ledger.CashFlowStore.GetIncomeEntryById | utils/cashFlowStorage.ts:400-405 | returns a stored entry with the id that is the most recently created one with it, or nothing exactly when no stored entry has the id |
| Ledger.CashFlowStore.SaveIncomeEntry | utils/cashFlowStorage.ts:317-356 | an invalid draft or a missing balance fails and changes nothing; otherwise the store holds the recomputed list with the new entry added (one more entry, same others up to stamps, sum grown by its amount), the balance records the new totals and the new id, the entry returned is stored under the new id, and the store is consistent |
| Ledger.CashFlowStore.UpdateIncomeEntry | utils/cashFlowStorage.ts:410-457 | an invalid field, an absent id or a missing balance fails and changes nothing; otherwise the first entry with the id, newest first, is replaced by its patched version, the list is recomputed, the balance records the new totals, and the store is consistent; the returned entry is stored with the id, and when exactly one stored entry had the id it is the patched entry, stamped |
| Ledger.CashFlowStore.DeleteIncomeEntry | utils/cashFlowStorage.ts:462-494 | an absent id or a missing balance fails and changes nothing; otherwise every entry with the id is removed, every other entry is kept up to stamps, the list is recomputed and shorter, and the store is consistent |
| Ledger.CashFlowStore.UpdateBalance | utils/cashFlowStorage.ts:542-559 | without a balance it fails and changes nothing; otherwise only the current balance (shifted by the amount) and the update time change, so a consistent store stays consistent exactly when the amount is 0 |
| Ledger.CashFlowStore.RecalculateBalance | utils/cashFlowStorage.ts:564-591 | without a balance it fails and changes nothing; otherwise the entries are recomputed with the same entries and sum, the totals follow them, and the store is consistent again, whatever updateBalance did before |
| Ledger.CashFlowStore.GetMonthlySummary | utils/cashFlowStorage.ts:600-682 | the two range queries, the balance lookup and the summary arithmetic give the monthly summary of the stored balance and entries, with the start balance as the program computes it |

## Left out

- Storage I/O is not modelled: AsyncStorage, JSON encoding and decoding, and `safeStorageOperation`'s StorageError wrapping. The two records are the class's two fields. The write of the entries and then the balance is one atomic step, so a failure between the two writes is not modelled.
- `generateUUID` and `Date.now()` are not modelled. The new id, the creation time and `now` are method parameters.
- Validation.ValidateAmount: works on exact reals. "At most two decimals" is `amount * 100` being a whole number. It does not model floating point, the `toString()` decimal count, or the NaN and infinity checks (no real is NaN or infinite).
- Validation.ValidateDate: checks calendar validity strictly (month 1 to 12, day within the month, leap years). JavaScript engines that roll `2024-02-30` over into March accept it.
- Validation.ValidateDescription: counts characters, not UTF-16 code units.
- Query.Contains: the case folding is `toLowerCase` on the ASCII letters only.
- Summary.MonthRange: is the first to last calendar day of the month. The local-time `toISOString()` conversion can shift the range by a day outside UTC, and that shift is not modelled.
- Summary.MonthRange: takes the year as given. JavaScript's `Date` constructor reads a year from 0 to 99 as 1900 plus that year (utils/cashFlowStorage.ts:607-608 and 639-640), so the source queries the wrong century for those years; the model does not capture this.
- Summary.MonthlySummaryOf: the `period` string and `periodType` are not modelled. The trend's `try`/`catch` is left out, because no error can occur there in the model.
- Summary.StartBalance: the corrected start balance drops the truthiness test on `balanceAfter`. In a consistent, well-formed ledger every `balanceAfter` is present and positive (Ledger.PositiveStamps), so the test never fails there.
- Ledger.CashFlowStore.UpdateIncomeEntry: when several stored entries share the id, the returned entry is only stated to be stored with the id. The source's `find` then returns whichever of them comes first after the recomputation, and nothing makes ids unique.
- Ledger.RecalculateKeepsEntries: needs distinct creation times. With equal (date, creation time) pairs, the source's order among tied entries depends on the stored order.
- Ledger.CashFlowStore.UpdateBalance: the model does not state that the adjustment is lost at the next save, update, delete or recalculation. That follows from their contracts, which recompute the current balance from the entries.
- `EntryUpdate` has no `balanceAfter` field. Fields set explicitly to `undefined` in an update are not modelled; in the source they overwrite the entry's field with `undefined`.
- `isRecurring` and `recurringId` are carried along but not interpreted.
- `getYearlySummary` is not part of this model. Its trend calls itself for the previous year with no base case.

## Findings

| source | as written | input that shows it | evidently intended | confidence | as-written member | corrected member |
|---|---|---|---|---|---|---|
| utils/cashFlowStorage.ts:658-664 | the start balance re-sorts the month's newest-first entries by date alone, so among entries of the month's first day it picks the latest-created one | initial balance 1000; entry A of 100 and then entry B of 200, both on 2024-01-05: start balance 1100 and end balance 1400, instead of 1000 and 1300 | the balance before the month's first entry in ledger order (date, then creation time), that is the initial balance plus every amount dated before the month | not executed | Summary.SameDaySummaryCounterexample | Summary.CorrectedStartBalanceMeaning |
