/**
 * The monthly summary: the month's entries and their totals, the average, the
 * per-category breakdown, the trend against the previous month and the
 * balances at the start and end of the month.
 */
module Summary {
  import opened CashFlowTypes
  import opened Validation
  import opened RunningBalance
  import opened Query

  // ------------------------------------------------------------ the period

  /**
   * The (year, month) a local date built from a year and a zero-based month
   * lands in: a month number outside 1..12 rolls over into neighbouring years.
   */
  function NormalizeMonth(year: int, month: int): (r: (int, int))
    ensures 1 <= r.1 <= 12
    ensures r.0 * 12 + r.1 == year * 12 + month
  {
    (year + (month - 1) / 12, (month - 1) % 12 + 1)
  }

  /** The first to the last calendar day of the month. */
  function MonthRange(year: int, month: int): (r: DateRange)
    ensures r.startDate.day == 1 && r.endDate.day >= 28
  {
    var (y, m) := NormalizeMonth(year, month);
    DateRange(Date(y, m, 1), Date(y, m, DaysInMonth(y, m)))
  }

  /** A real calendar day falls in the range of a month exactly when it is in that month. */
  lemma MonthRangeMeaning(year: int, month: int, d: Date)
    requires ValidDate(d)
    ensures InDateRange(d, MonthRange(year, month)) <==> (d.year, d.month) == NormalizeMonth(year, month)
  {
  }

  /** The month before: January goes back to December of the year before. */
  function PreviousMonth(year: int, month: int): (int, int) {
    if month == 1 then (year - 1, 12) else (year, month - 1)
  }

  /** The previous month's range is the calendar month right before this month's. */
  lemma PreviousMonthIsOneBefore(year: int, month: int)
    ensures var (py, pm) := PreviousMonth(year, month);
            var (y, m) := NormalizeMonth(year, month);
            var (y', m') := NormalizeMonth(py, pm);
            y' * 12 + m' == y * 12 + m - 1
    ensures month == 1 ==> NormalizeMonth(PreviousMonth(year, month).0, PreviousMonth(year, month).1) == (year - 1, 12)
  {
  }

  /** The query getMonthlySummary runs: only the date range is supplied. */
  function RangeFilter(range: DateRange): IncomeFilter {
    IncomeFilter(Some(range), [], None, None, None)
  }

  function EntriesOfMonth(entries: seq<Entry>, year: int, month: int): seq<Entry> {
    QueryEntries(entries, Some(RangeFilter(MonthRange(year, month))))
  }

  // ----------------------------------------------------------- arithmetic

  /** `totalIncome / entryCount`, or 0 when there are no entries. */
  function Average(total: real, count: nat): (r: real)
    ensures count > 0 ==> r * count as real == total
    ensures count == 0 ==> r == 0.0
  {
    if count > 0 then total / count as real else 0.0
  }

  /** The percentage change from the previous month, 0 when the previous month had nothing. */
  function Trend(net: real, previous: real): (r: real)
    ensures previous == 0.0 ==> r == 0.0
    ensures previous != 0.0 ==> r * previous == (net - previous) * 100.0
    ensures previous != 0.0 ==> (r == 0.0 <==> net == previous)
  {
    if previous != 0.0 then ((net - previous) / previous) * 100.0 else 0.0
  }

  // --------------------------------------------------- category breakdown

  /** The amounts of the entries of category `c`. */
  function CategorySum(s: seq<Entry>, c: Category): real {
    if s == [] then 0.0
    else (if s[0].category == c then s[0].amount else 0.0) + CategorySum(s[1..], c)
  }

  /** The categories that occur among the entries. */
  function CategoriesOf(s: seq<Entry>): set<Category> {
    set e | e in s :: e.category
  }

  /** The breakdown as a record keyed by the categories that occur. */
  function Breakdown(s: seq<Entry>): map<Category, real> {
    map c | c in CategoriesOf(s) :: CategorySum(s, c)
  }

  /** The value a breakdown shows for `c`; a missing key reads as 0. */
  function BreakdownValue(m: map<Category, real>, c: Category): real {
    if c in m then m[c] else 0.0
  }

  /** The breakdown's values added up over the nine categories. */
  function BreakdownTotal(m: map<Category, real>): real {
    BreakdownValue(m, Salary) + BreakdownValue(m, Freelance) + BreakdownValue(m, Investment)
    + BreakdownValue(m, Business) + BreakdownValue(m, Rental) + BreakdownValue(m, Gift)
    + BreakdownValue(m, Refund) + BreakdownValue(m, Bonus) + BreakdownValue(m, Other)
  }

  lemma {:induction false} CategorySumAppend(s: seq<Entry>, e: Entry, c: Category)
    ensures CategorySum(s + [e], c) == CategorySum(s, c) + (if e.category == c then e.amount else 0.0)
  {
    if s == [] {
      assert s + [e] == [e];
    } else {
      assert (s + [e])[1..] == s[1..] + [e];
      CategorySumAppend(s[1..], e, c);
    }
  }

  /** A category that does not occur contributes nothing. */
  lemma {:induction false} CategorySumOfAbsent(s: seq<Entry>, c: Category)
    requires c !in CategoriesOf(s)
    ensures CategorySum(s, c) == 0.0
  {
    if s != [] {
      assert s[0] in s;
      assert CategoriesOf(s[1..]) <= CategoriesOf(s) by {
        forall x | x in CategoriesOf(s[1..])
          ensures x in CategoriesOf(s)
        {
          var e :| e in s[1..] && e.category == x;
          assert e in s;
        }
      }
      CategorySumOfAbsent(s[1..], c);
    }
  }

  /** The per-category sums over the nine categories add up to the total. */
  lemma {:induction false} CategorySumsAddUp(s: seq<Entry>)
    ensures CategorySum(s, Salary) + CategorySum(s, Freelance) + CategorySum(s, Investment)
          + CategorySum(s, Business) + CategorySum(s, Rental) + CategorySum(s, Gift)
          + CategorySum(s, Refund) + CategorySum(s, Bonus) + CategorySum(s, Other) == Sum(s)
  {
    if s != [] {
      CategorySumsAddUp(s[1..]);
    }
  }

  /** The breakdown holds, for each category that occurs, the sum of its amounts, and they add up to the total. */
  lemma BreakdownMeaning(s: seq<Entry>)
    ensures forall c :: c in Breakdown(s) <==> exists e :: e in s && e.category == c
    ensures forall c :: BreakdownValue(Breakdown(s), c) == CategorySum(s, c)
    ensures BreakdownTotal(Breakdown(s)) == Sum(s)
  {
    forall c
      ensures BreakdownValue(Breakdown(s), c) == CategorySum(s, c)
    {
      if c !in CategoriesOf(s) {
        CategorySumOfAbsent(s, c);
      }
    }
    CategorySumsAddUp(s);
  }

  lemma BreakdownAppend(s: seq<Entry>, e: Entry)
    ensures Breakdown(s + [e]) == Breakdown(s)[e.category := BreakdownValue(Breakdown(s), e.category) + e.amount]
  {
    var m := Breakdown(s)[e.category := BreakdownValue(Breakdown(s), e.category) + e.amount];
    assert CategoriesOf(s + [e]) == CategoriesOf(s) + {e.category} by {
      assert forall x :: x in s + [e] <==> x in s || x == e;
    }
    forall c | c in m
      ensures Breakdown(s + [e])[c] == m[c]
    {
      CategorySumAppend(s, e, c);
      if c !in CategoriesOf(s) {
        CategorySumOfAbsent(s, c);
      }
    }
  }

  /** The `forEach` that accumulates the amounts per category into a record. */
  method BuildCategoryBreakdown(entries: seq<Entry>) returns (breakdown: map<Category, real>)
    ensures breakdown == Breakdown(entries)
  {
    breakdown := map[];
    for i := 0 to |entries|
      invariant breakdown == Breakdown(entries[..i])
    {
      var e := entries[i];
      BreakdownAppend(entries[..i], e);
      assert entries[..i + 1] == entries[..i] + [e];
      breakdown := breakdown[e.category := (if e.category in breakdown then breakdown[e.category] else 0.0) + e.amount];
    }
    assert entries[..|entries|] == entries;
  }

  // ------------------------------------------------------ start balance

  /** The amounts of the entries dated before `d`. */
  function SumDatedBefore(s: seq<Entry>, d: Date): real {
    if s == [] then 0.0
    else (if DateBefore(s[0].date, d) then s[0].amount else 0.0) + SumDatedBefore(s[1..], d)
  }

  /**
   * The start balance as getMonthlySummary computes it: the month's entries
   * (newest first) are re-sorted by date alone, and the first one's balance
   * before it is taken when its `balanceAfter` is truthy; otherwise the current
   * balance less the month's income.
   */
  function StartBalanceAsWritten(monthEntries: seq<Entry>, currentBalance: real, totalIncome: real): real {
    var sorted := SortBy(DateOnly, monthEntries);
    if |sorted| > 0 && sorted[0].balanceAfter.Some? && sorted[0].balanceAfter.value != 0.0 then
      sorted[0].balanceAfter.value - sorted[0].amount
    else
      currentBalance - totalIncome
  }

  /**
   * The start balance with the month's entries in ledger order (date, then
   * creation time): the balance before the earliest entry of the month;
   * without entries, the current balance less the month's income.
   */
  function StartBalance(monthEntries: seq<Entry>, currentBalance: real, totalIncome: real): real {
    var sorted := SortBy(Chronological, monthEntries);
    if |sorted| > 0 && sorted[0].balanceAfter.Some? then
      sorted[0].balanceAfter.value - sorted[0].amount
    else
      currentBalance - totalIncome
  }

  lemma {:induction false} SumDatedBeforeSplit(a: seq<Entry>, b: seq<Entry>, d: Date)
    requires forall i :: 0 <= i < |a| ==> DateBefore(a[i].date, d)
    requires forall i :: 0 <= i < |b| ==> !DateBefore(b[i].date, d)
    ensures SumDatedBefore(a + b, d) == Sum(a)
    decreases |a| + |b|
  {
    if a == [] {
      assert a + b == b;
      if b != [] {
        SumDatedBeforeSplit([], b[1..], d);
        assert [] + b[1..] == b[1..];
      }
    } else {
      assert (a + b)[1..] == a[1..] + b;
      SumDatedBeforeSplit(a[1..], b, d);
    }
  }

  lemma SortedStartsWithMinimum(sorted: seq<Entry>, x: Entry)
    requires SortedBy(Chronological, sorted) && x in sorted
    ensures Precedes(Chronological, sorted[0], x)
  {
  }

  /**
   * An entry earlier in the ledger than the first of the range's entries
   * (listed in ledger order in `sorted`) is dated before the range.
   */
  lemma EarlierIsBeforeRange(s: seq<Entry>, range: DateRange, sorted: seq<Entry>, p: nat, i: nat)
    requires SortedBy(Chronological, s) && SortedBy(Chronological, sorted)
    requires forall i, j :: 0 <= i < j < |s| ==> s[i].timestamp != s[j].timestamp
    requires forall e :: multiset(sorted)[e] == if InDateRange(e.date, range) then multiset(s)[e] else 0
    requires i < p < |s| && sorted != [] && s[p] == sorted[0]
    ensures DateBefore(s[i].date, range.startDate)
  {
    assert Precedes(Chronological, s[i], s[p]);
    if !DateBefore(s[i].date, range.startDate) {
      assert InDateRange(s[i].date, range);
      assert s[i] in multiset(s);
      assert s[i] in multiset(sorted);
      SortedStartsWithMinimum(sorted, s[i]);
      assert false;
    }
  }

  /** The earliest entry of the range, in ledger order, sits at position `p` of the ledger and nothing in range precedes it. */
  lemma FirstOfRangeInLedger(s: seq<Entry>, range: DateRange, monthEntries: seq<Entry>)
    returns (p: nat)
    requires SortedBy(Chronological, s)
    requires forall i, j :: 0 <= i < j < |s| ==> s[i].timestamp != s[j].timestamp
    requires forall e :: multiset(monthEntries)[e] == if InDateRange(e.date, range) then multiset(s)[e] else 0
    requires monthEntries != []
    ensures p < |s| && s[p] == SortBy(Chronological, monthEntries)[0]
    ensures forall i :: 0 <= i < p ==> DateBefore(s[i].date, range.startDate)
    ensures forall i :: p <= i < |s| ==> !DateBefore(s[i].date, range.startDate)
  {
    var sorted := SortBy(Chronological, monthEntries);
    SortBySorted(Chronological, monthEntries);
    var first := sorted[0];
    assert first in multiset(monthEntries);
    assert InDateRange(first.date, range) && first in multiset(s);
    p :| 0 <= p < |s| && s[p] == first;
    forall i | 0 <= i < p
      ensures DateBefore(s[i].date, range.startDate)
    {
      EarlierIsBeforeRange(s, range, sorted, p, i);
    }
    forall i | p <= i < |s|
      ensures !DateBefore(s[i].date, range.startDate)
    {
      if i > p {
        assert Precedes(Chronological, s[p], s[i]);
      }
    }
  }

  /**
   * In a consistent ledger whose entries have distinct creation times, the
   * corrected start balance of a range with entries is the initial balance plus
   * every amount dated before the range.
   */
  lemma StartBalanceIsBalanceBeforeRange(
    initialBalance: real, s: seq<Entry>, range: DateRange, monthEntries: seq<Entry>,
    currentBalance: real, totalIncome: real)
    requires IsRunningBalance(initialBalance, s)
    requires forall i, j :: 0 <= i < j < |s| ==> s[i].timestamp != s[j].timestamp
    requires forall e :: multiset(monthEntries)[e] == if InDateRange(e.date, range) then multiset(s)[e] else 0
    requires monthEntries != []
    ensures StartBalance(monthEntries, currentBalance, totalIncome)
         == initialBalance + SumDatedBefore(s, range.startDate)
  {
    var p := FirstOfRangeInLedger(s, range, monthEntries);
    BalanceBeforePosition(initialBalance, s, p, range.startDate);
  }

  /** In a ledger whose entries before position `p` are exactly those dated before `d`, the balance before `s[p]` counts them. */
  lemma BalanceBeforePosition(initialBalance: real, s: seq<Entry>, p: nat, d: Date)
    requires IsRunningBalance(initialBalance, s) && p < |s|
    requires forall i :: 0 <= i < p ==> DateBefore(s[i].date, d)
    requires forall i :: p <= i < |s| ==> !DateBefore(s[i].date, d)
    ensures s[p].balanceAfter == Some(initialBalance + SumDatedBefore(s, d) + s[p].amount)
  {
    assert s == s[..p] + s[p..];
    SumDatedBeforeSplit(s[..p], s[p..], d);
    SumOfLongerPrefix(s, p);
  }

  // -------------------------------------------------------------- summary

  datatype MonthlySummary = MonthlySummary(
    year: int,
    month: int,
    totalIncome: real,
    totalExpenses: real,
    netCashFlow: real,
    entryCount: nat,
    averageIncome: real,
    startBalance: real,
    endBalance: real,
    categoryBreakdown: map<Category, real>,
    trend: real)

  /**
   * The summary of a month given its entries (newest first), the previous
   * month's total income and the current balance, as getMonthlySummary
   * computes it, with the start balance of StartBalanceAsWritten.
   */
  function MonthSummary(year: int, month: int, monthEntries: seq<Entry>, previous: real, currentBalance: real): MonthlySummary {
    var totalIncome := Sum(monthEntries);
    var startBalance := StartBalanceAsWritten(monthEntries, currentBalance, totalIncome);
    MonthlySummary(
      year, month, totalIncome, 0.0, totalIncome, |monthEntries|, Average(totalIncome, |monthEntries|),
      startBalance, startBalance + totalIncome, Breakdown(monthEntries), Trend(totalIncome, previous))
  }

  /**
   * getMonthlySummary over the stored balance and entries: it fails when no
   * balance is set; otherwise it summarises the month's entries against the
   * previous month's total.
   */
  function MonthlySummaryOf(balance: Option<Balance>, entries: seq<Entry>, year: int, month: int): Result<MonthlySummary> {
    if balance.None? then Failure(BalanceNotInitializedError)
    else
      var previousMonth := PreviousMonth(year, month);
      Success(MonthSummary(year, month, EntriesOfMonth(entries, year, month),
                           Sum(EntriesOfMonth(entries, previousMonth.0, previousMonth.1)), balance.value.currentBalance))
  }

  /**
   * The monthly summary with the start balance taken in ledger order
   * (StartBalance): the same as MonthlySummaryOf but for the start and end
   * balances.
   */
  function CorrectedMonthlySummaryOf(balance: Option<Balance>, entries: seq<Entry>, year: int, month: int): Result<MonthlySummary> {
    match MonthlySummaryOf(balance, entries, year, month)
    case Failure(e) => Failure(e)
    case Success(r) =>
      var startBalance := StartBalance(EntriesOfMonth(entries, year, month), balance.value.currentBalance, r.totalIncome);
      Success(r.(startBalance := startBalance, endBalance := startBalance + r.netCashFlow))
  }

  /**
   * The totals, average, breakdown, trend and balances getMonthlySummary
   * computes from the month's entries, one after the other.
   */
  method SummarizeMonth(year: int, month: int, monthEntries: seq<Entry>, previous: real, currentBalance: real)
    returns (r: MonthlySummary)
    ensures r == MonthSummary(year, month, monthEntries, previous, currentBalance)
  {
    var totalIncome := Sum(monthEntries);
    var totalExpenses := 0.0;
    var netCashFlow := totalIncome - totalExpenses;
    var entryCount := |monthEntries|;
    var averageIncome := Average(totalIncome, entryCount);
    var categoryBreakdown := BuildCategoryBreakdown(monthEntries);
    var trend := Trend(netCashFlow, previous);
    var startBalance := StartBalanceAsWritten(monthEntries, currentBalance, totalIncome);
    r := MonthlySummary(year, month, totalIncome, totalExpenses, netCashFlow, entryCount, averageIncome,
                        startBalance, startBalance + netCashFlow, categoryBreakdown, trend);
  }

  /** The entries of a month, as the date filter keeps them. */
  lemma EntriesOfMonthMeaning(entries: seq<Entry>, year: int, month: int)
    ensures forall e :: multiset(EntriesOfMonth(entries, year, month))[e]
                     == if InDateRange(e.date, MonthRange(year, month)) then multiset(entries)[e] else 0
    ensures Sum(EntriesOfMonth(entries, year, month)) == Sum(FilterEntriesByDateRange(entries, MonthRange(year, month)))
  {
    var filter := Some(RangeFilter(MonthRange(year, month)));
    QueryMeaning(entries, filter);
    var inMonth := FilterEntriesByDateRange(entries, MonthRange(year, month));
    assert multiset(EntriesOfMonth(entries, year, month)) == multiset(inMonth);
    SumOfPermutation(EntriesOfMonth(entries, year, month), inMonth);
  }

  /**
   * What a monthly summary promises: it fails exactly when no balance is set,
   * with BalanceNotInitializedError; otherwise there are no expenses, the net
   * cash flow is the income, the average is the income over the count (see
   * Average) and the end balance is
   * the start balance plus the net cash flow.
   */
  lemma MonthlySummaryShape(balance: Option<Balance>, entries: seq<Entry>, year: int, month: int)
    ensures MonthlySummaryOf(balance, entries, year, month).Failure? <==> balance.None?
    ensures balance.None? ==> MonthlySummaryOf(balance, entries, year, month).error == BalanceNotInitializedError
    ensures var r := MonthlySummaryOf(balance, entries, year, month);
            r.Success? ==>
              && r.value.totalExpenses == 0.0
              && r.value.netCashFlow == r.value.totalIncome
              && r.value.averageIncome == Average(r.value.totalIncome, r.value.entryCount)
              && r.value.endBalance == r.value.startBalance + r.value.netCashFlow
  {
  }

  /**
   * The income of a monthly summary is the sum of the amounts dated in the
   * month, and so is the sum of its breakdown; the count is the number of
   * those entries.
   */
  lemma MonthlySummaryTotals(balance: Option<Balance>, entries: seq<Entry>, year: int, month: int)
    requires balance.Some?
    ensures var r := MonthlySummaryOf(balance, entries, year, month);
            var inMonth := FilterEntriesByDateRange(entries, MonthRange(year, month));
            && r.Success?
            && r.value.totalIncome == Sum(inMonth)
            && r.value.totalIncome == BreakdownTotal(r.value.categoryBreakdown)
            && r.value.entryCount == |inMonth|
  {
    var r := MonthlySummaryOf(balance, entries, year, month);
    var monthEntries := EntriesOfMonth(entries, year, month);
    var inMonth := FilterEntriesByDateRange(entries, MonthRange(year, month));
    assert r.value.totalIncome == Sum(monthEntries);
    assert r.value.categoryBreakdown == Breakdown(monthEntries);
    assert r.value.entryCount == |monthEntries|;
    EntriesOfMonthMeaning(entries, year, month);
    BreakdownMeaning(monthEntries);
    assert multiset(monthEntries) == multiset(inMonth);
    assert |monthEntries| == |multiset(monthEntries)| == |multiset(inMonth)| == |inMonth|;
  }

  /** The trend compares the month's income with the previous month's total, as Trend defines. */
  lemma MonthlyTrendMeaning(balance: Option<Balance>, entries: seq<Entry>, year: int, month: int)
    requires balance.Some?
    ensures var r := MonthlySummaryOf(balance, entries, year, month);
            var (py, pm) := PreviousMonth(year, month);
            && r.Success?
            && r.value.trend == Trend(r.value.netCashFlow, Sum(FilterEntriesByDateRange(entries, MonthRange(py, pm))))
  {
    var (py, pm) := PreviousMonth(year, month);
    EntriesOfMonthMeaning(entries, py, pm);
  }

  /**
   * The start balance getMonthlySummary reports for a month with stored
   * entries: it is read from the entry `x` the date-only re-sort puts first,
   * which is of the month's earliest day and, among that day's entries, the
   * one created last. It is that entry's balance before it when its stamp is
   * present and not 0, and otherwise the current balance less the month's
   * income.
   */
  lemma MonthlyStartBalanceAsWritten(balance: Option<Balance>, entries: seq<Entry>, year: int, month: int)
    returns (x: Entry)
    requires balance.Some?
    requires exists e :: e in entries && InDateRange(e.date, MonthRange(year, month))
    ensures x in entries && InDateRange(x.date, MonthRange(year, month))
    ensures forall e :: e in entries && InDateRange(e.date, MonthRange(year, month)) ==> DateThenNewest(x, e)
    ensures var r := MonthlySummaryOf(balance, entries, year, month);
            && r.Success?
            && r.value.startBalance
               == if x.balanceAfter.Some? && x.balanceAfter.value != 0.0 then x.balanceAfter.value - x.amount
                  else balance.value.currentBalance - r.value.totalIncome
  {
    x := StartEntryOfMonth(entries, year, month);
    var r := MonthlySummaryOf(balance, entries, year, month);
    MonthlyStartIs(balance, entries, year, month);
    AsWrittenStartValue(EntriesOfMonth(entries, year, month), x, balance.value.currentBalance, r.value.totalIncome);
  }

  /** The start balance of the summary is the as-written one over the month's entries. */
  lemma MonthlyStartIs(balance: Option<Balance>, entries: seq<Entry>, year: int, month: int)
    requires balance.Some?
    ensures var r := MonthlySummaryOf(balance, entries, year, month);
            && r.Success?
            && r.value.startBalance
               == StartBalanceAsWritten(EntriesOfMonth(entries, year, month), balance.value.currentBalance, r.value.totalIncome)
  {
  }

  /** The as-written start balance is read from the first entry of the date-only re-sort. */
  lemma AsWrittenStartValue(monthEntries: seq<Entry>, x: Entry, currentBalance: real, totalIncome: real)
    requires monthEntries != [] && x == SortBy(DateOnly, monthEntries)[0]
    ensures StartBalanceAsWritten(monthEntries, currentBalance, totalIncome)
            == if x.balanceAfter.Some? && x.balanceAfter.value != 0.0 then x.balanceAfter.value - x.amount
               else currentBalance - totalIncome
  {
  }

  /** Without stored entries in the month, the summary starts and ends at the current balance. */
  lemma MonthlyStartBalanceWithoutEntries(balance: Option<Balance>, entries: seq<Entry>, year: int, month: int)
    requires balance.Some?
    requires forall e :: e in entries ==> !InDateRange(e.date, MonthRange(year, month))
    ensures var r := MonthlySummaryOf(balance, entries, year, month);
            && r.Success?
            && r.value.startBalance == balance.value.currentBalance
            && r.value.endBalance == balance.value.currentBalance
  {
    NoEntriesOfMonth(entries, year, month);
  }

  /** A month none of whose stored entries is dated in it has no entries in the query. */
  lemma NoEntriesOfMonth(entries: seq<Entry>, year: int, month: int)
    requires forall e :: e in entries ==> !InDateRange(e.date, MonthRange(year, month))
    ensures EntriesOfMonth(entries, year, month) == []
  {
    var monthEntries := EntriesOfMonth(entries, year, month);
    EntriesOfMonthMeaning(entries, year, month);
  }

  /**
   * The entry the as-written start balance reads, among the stored entries of
   * a month that has some: of the earliest day, the one created last.
   */
  lemma StartEntryOfMonth(entries: seq<Entry>, year: int, month: int) returns (x: Entry)
    requires exists e :: e in entries && InDateRange(e.date, MonthRange(year, month))
    ensures var monthEntries := EntriesOfMonth(entries, year, month);
            monthEntries != [] && x == SortBy(DateOnly, monthEntries)[0]
    ensures x in entries && InDateRange(x.date, MonthRange(year, month))
    ensures forall e :: e in entries && InDateRange(e.date, MonthRange(year, month)) ==> DateThenNewest(x, e)
  {
    var monthEntries := EntriesOfMonth(entries, year, month);
    var range := MonthRange(year, month);
    EntriesOfMonthMeaning(entries, year, month);
    var e0 :| e0 in entries && InDateRange(e0.date, range);
    assert e0 in multiset(monthEntries);
    assert SortedBy(NewestFirst, monthEntries) by {
      QueryMeaning(entries, Some(RangeFilter(range)));
    }
    x := AsWrittenStartEntry(monthEntries);
    assert x in multiset(monthEntries);
    forall e | e in entries && InDateRange(e.date, range)
      ensures DateThenNewest(x, e)
    {
      assert e in multiset(monthEntries);
    }
  }

  /**
   * The entry the start balance is read from: after the date-only re-sort of
   * a newest-first list, the first entry is of the earliest day and, among
   * that day's entries, the one created last.
   */
  lemma AsWrittenStartEntry(monthEntries: seq<Entry>) returns (x: Entry)
    requires SortedBy(NewestFirst, monthEntries) && monthEntries != []
    ensures x == SortBy(DateOnly, monthEntries)[0] && x in monthEntries
    ensures forall e :: e in monthEntries ==> DateThenNewest(x, e)
  {
    DateOnlySortOfNewestFirst(monthEntries);
    var sorted := SortBy(DateOnly, monthEntries);
    x := sorted[0];
    assert x in multiset(monthEntries);
    forall e | e in monthEntries
      ensures DateThenNewest(x, e)
    {
      assert e in multiset(sorted);
      var j :| 0 <= j < |sorted| && sorted[j] == e;
      if j > 0 {
        assert DateThenNewest(sorted[0], sorted[j]);
      }
    }
  }

  /**
   * The corrected summary of a month with entries, in a ledger in the
   * invariant whose entries have distinct creation times: the start balance is
   * the initial balance plus every amount dated before the month, and the end
   * balance adds the month's amounts.
   */
  lemma CorrectedStartBalanceMeaning(balance: Option<Balance>, entries: seq<Entry>, year: int, month: int)
    requires balance.Some? && IsRunningBalance(balance.value.initialBalance, entries)
    requires forall i, j :: 0 <= i < j < |entries| ==> entries[i].timestamp != entries[j].timestamp
    requires exists e :: e in entries && InDateRange(e.date, MonthRange(year, month))
    ensures var r := CorrectedMonthlySummaryOf(balance, entries, year, month);
            var start := balance.value.initialBalance + SumDatedBefore(entries, MonthRange(year, month).startDate);
            && r.Success?
            && r.value.startBalance == start
            && r.value.endBalance == start + Sum(FilterEntriesByDateRange(entries, MonthRange(year, month)))
  {
    var monthEntries := EntriesOfMonth(entries, year, month);
    var range := MonthRange(year, month);
    EntriesOfMonthMeaning(entries, year, month);
    var e0 :| e0 in entries && InDateRange(e0.date, range);
    assert e0 in multiset(monthEntries);
    StartBalanceIsBalanceBeforeRange(balance.value.initialBalance, entries, range, monthEntries,
                                     balance.value.currentBalance, Sum(monthEntries));
  }

  /**
   * The summary of January 2024 for the two same-day entries over an initial
   * balance of 1000: getMonthlySummary reports 1100 and 1400, while the
   * corrected summary reports 1000 and 1300.
   */
  lemma SameDaySummaryCounterexample()
    ensures var b := Some(Balance(1000.0, 1300.0, 0, Some("b"), 300.0, 0.0));
            var asWritten := MonthlySummaryOf(b, [SampleA(), SampleB()], 2024, 1);
            var corrected := CorrectedMonthlySummaryOf(b, [SampleA(), SampleB()], 2024, 1);
            && asWritten.Success? && asWritten.value.startBalance == 1100.0 && asWritten.value.endBalance == 1400.0
            && corrected.Success? && corrected.value.startBalance == 1000.0 && corrected.value.endBalance == 1300.0
  {
    SameDayStartBalanceCounterexample();
  }

  /** The first of two entries made on 2024-01-05 over an initial balance of 1000. */
  function SampleA(): Entry {
    Entry("a", 100.0, Date(2024, 1, 5), "first", Salary, 1, Some(1100.0), None, None)
  }

  /** The second entry of that day, created after SampleA. */
  function SampleB(): Entry {
    Entry("b", 200.0, Date(2024, 1, 5), "second", Bonus, 2, Some(1300.0), None, None)
  }

  lemma SampleLedgerIsConsistent()
    ensures IsRunningBalance(1000.0, [SampleA(), SampleB()])
    ensures Sum([SampleA(), SampleB()]) == 300.0
  {
    var a, b := SampleA(), SampleB();
    assert [a, b][..1] == [a] && [a, b][..2] == [a, b];
    assert Sum([a]) == 100.0 by {
      assert [a][1..] == [];
    }
    assert Sum([a, b]) == 300.0 by {
      assert [a, b][1..] == [b];
      assert [b][1..] == [];
    }
  }

  lemma SampleMonthNewestFirst()
    ensures EntriesOfMonth([SampleA(), SampleB()], 2024, 1) == [SampleB(), SampleA()]
  {
    var a, b := SampleA(), SampleB();
    var range := MonthRange(2024, 1);
    assert range == DateRange(Date(2024, 1, 1), Date(2024, 1, 31));
    assert Criteria(RangeFilter(range)) == [WithinRange(range)];
    assert Keep(WithinRange(range), [a, b]) == [a, b] by {
      KeepAllSatisfying(WithinRange(range), [a, b]);
    }
    assert KeepAll([WithinRange(range)], [a, b]) == [a, b] by {
      assert [WithinRange(range)][1..] == [];
    }
    SampleNewestFirst();
  }

  /** Newest first, the later-created SampleB comes before SampleA. */
  lemma SampleNewestFirst()
    ensures SortBy(NewestFirst, [SampleA(), SampleB()]) == [SampleB(), SampleA()]
  {
    var a, b := SampleA(), SampleB();
    assert SortBy(NewestFirst, [b]) == [b] by {
      assert [b][1..] == [];
    }
    assert [a, b][1..] == [b];
    assert Insert(NewestFirst, a, [b]) == [b, a] by {
      assert [b][1..] == [];
    }
  }

  /**
   * Two entries on the same day, 2024-01-05, created in the order A then B,
   * over an initial balance of 1000. The date-only re-sort of the newest-first
   * list puts B first, so the start balance is taken before B but after A:
   * 1100 instead of 1000, and the end balance 1400 instead of 1300, more than
   * the ledger ever held.
   */
  lemma SameDayStartBalanceCounterexample()
    ensures var monthEntries := EntriesOfMonth([SampleA(), SampleB()], 2024, 1);
            && IsRunningBalance(1000.0, [SampleA(), SampleB()])
            && StartBalanceAsWritten(monthEntries, 1300.0, 300.0) == 1100.0
            && StartBalanceAsWritten(monthEntries, 1300.0, 300.0) + Sum(monthEntries) == 1400.0
            && StartBalance(monthEntries, 1300.0, 300.0) == 1000.0
            && 1000.0 + SumDatedBefore([SampleA(), SampleB()], MonthRange(2024, 1).startDate) == 1000.0
  {
    SampleLedgerIsConsistent();
    SampleMonthNewestFirst();
    SampleStartBalances();
  }

  lemma SampleStartBalances()
    ensures StartBalanceAsWritten([SampleB(), SampleA()], 1300.0, 300.0) == 1100.0
    ensures StartBalance([SampleB(), SampleA()], 1300.0, 300.0) == 1000.0
    ensures Sum([SampleB(), SampleA()]) == 300.0
    ensures SumDatedBefore([SampleA(), SampleB()], MonthRange(2024, 1).startDate) == 0.0
  {
    SampleSorts();
    SampleSums();
  }

  lemma SampleSorts()
    ensures SortBy(DateOnly, [SampleB(), SampleA()]) == [SampleB(), SampleA()]
    ensures SortBy(Chronological, [SampleB(), SampleA()]) == [SampleA(), SampleB()]
  {
    var a, b := SampleA(), SampleB();
    assert [b, a][1..] == [a];
    assert [a][1..] == [];
    assert SortBy(DateOnly, [a]) == [a];
    assert Insert(DateOnly, b, [a]) == [b, a];
    assert SortBy(Chronological, [a]) == [a];
    assert Insert(Chronological, b, [a]) == [a, b];
  }

  lemma SampleSums()
    ensures Sum([SampleB(), SampleA()]) == 300.0
    ensures SumDatedBefore([SampleA(), SampleB()], Date(2024, 1, 1)) == 0.0
  {
    var a, b := SampleA(), SampleB();
    assert [a][1..] == [] && [b][1..] == [];
    assert [b, a][1..] == [a] && [a, b][1..] == [b];
    assert Sum([a]) == 100.0;
    assert SumDatedBefore([b], Date(2024, 1, 1)) == 0.0;
  }
}
