/**
 * The running-balance engine: entries are put in chronological order (date,
 * then creation timestamp) by a stable sort, and each is stamped with the
 * balance after it, accumulated from the initial balance.
 */
module RunningBalance {
  import opened CashFlowTypes

  // ----------------------------------------------------------------- orders

  /** `a` is an earlier calendar day than `b`. */
  predicate DateBefore(a: Date, b: Date) {
    || a.year < b.year
    || (a.year == b.year && (a.month < b.month || (a.month == b.month && a.day < b.day)))
  }

  /** The comparators the ledger sorts entries with. */
  datatype Order =
    | Chronological  // date ascending, then timestamp ascending
    | NewestFirst    // timestamp descending
    | DateOnly       // date ascending, same-day entries left in place

  /** The comparator of `o` puts `a` no later than `b` (it returns a number <= 0). */
  predicate Precedes(o: Order, a: Entry, b: Entry) {
    match o
    case Chronological => DateBefore(a.date, b.date) || (a.date == b.date && a.timestamp <= b.timestamp)
    case NewestFirst => a.timestamp >= b.timestamp
    case DateOnly => !DateBefore(b.date, a.date)
  }

  lemma PrecedesTotal(o: Order, a: Entry, b: Entry)
    ensures Precedes(o, a, b) || Precedes(o, b, a)
  {
  }

  lemma PrecedesTransitive(o: Order, a: Entry, b: Entry, c: Entry)
    requires Precedes(o, a, b) && Precedes(o, b, c)
    ensures Precedes(o, a, c)
  {
  }

  predicate SortedBy(o: Order, s: seq<Entry>) {
    forall i, j :: 0 <= i < j < |s| ==> Precedes(o, s[i], s[j])
  }

  // ------------------------------------------------------------ stable sort

  /** Puts `x` in front of the first element it may precede. */
  function Insert(o: Order, x: Entry, s: seq<Entry>): (r: seq<Entry>)
    ensures multiset(r) == multiset(s) + multiset{x}
    ensures |r| == |s| + 1
  {
    if s == [] || Precedes(o, x, s[0]) then [x] + s
    else
      assert s == [s[0]] + s[1..];
      [s[0]] + Insert(o, x, s[1..])
  }

  /**
   * Array.prototype.sort with the comparator of `o`: a stable sort, here an
   * insertion sort (elements the comparator ties keep their input order).
   */
  function SortBy(o: Order, s: seq<Entry>): (r: seq<Entry>)
    ensures multiset(r) == multiset(s)
    ensures |r| == |s|
  {
    if s == [] then []
    else
      assert s == [s[0]] + s[1..];
      Insert(o, s[0], SortBy(o, s[1..]))
  }

  lemma {:induction false} InsertSorted(o: Order, x: Entry, s: seq<Entry>)
    requires SortedBy(o, s)
    ensures SortedBy(o, Insert(o, x, s))
  {
    if s == [] || Precedes(o, x, s[0]) {
      forall j | 0 <= j < |s|
        ensures Precedes(o, x, s[j])
      {
        if j > 0 {
          PrecedesTransitive(o, x, s[0], s[j]);
        }
      }
      ConsSorted(o, x, s);
    } else {
      var rest := Insert(o, x, s[1..]);
      InsertSorted(o, x, s[1..]);
      PrecedesTotal(o, x, s[0]);
      forall j | 0 <= j < |rest|
        ensures Precedes(o, s[0], rest[j])
      {
        assert rest[j] in multiset(rest);
        if rest[j] != x {
          assert rest[j] in multiset(s[1..]);
          var k :| 0 <= k < |s[1..]| && s[1..][k] == rest[j];
          assert s[k + 1] == rest[j];
        }
      }
      ConsSorted(o, s[0], rest);
    }
  }

  /** An element that may precede every element of an ordered sequence can go in front of it. */
  lemma ConsSorted(o: Order, y: Entry, s: seq<Entry>)
    requires SortedBy(o, s)
    requires forall j :: 0 <= j < |s| ==> Precedes(o, y, s[j])
    ensures SortedBy(o, [y] + s)
  {
    var r := [y] + s;
    forall i, j | 0 <= i < j < |r|
      ensures Precedes(o, r[i], r[j])
    {
      assert r[j] == s[j - 1];
      if i > 0 {
        assert r[i] == s[i - 1];
      }
    }
  }

  /** The sort's output is ordered. */
  lemma {:induction false} SortBySorted(o: Order, s: seq<Entry>)
    ensures SortedBy(o, SortBy(o, s))
  {
    if s != [] {
      SortBySorted(o, s[1..]);
      InsertSorted(o, s[0], SortBy(o, s[1..]));
    }
  }

  /** Sorting an ordered sequence again changes nothing (this is where stability matters). */
  lemma {:induction false} SortOfSortedIsIdentity(o: Order, s: seq<Entry>)
    requires SortedBy(o, s)
    ensures SortBy(o, s) == s
  {
    if s != [] {
      SortOfSortedIsIdentity(o, s[1..]);
      assert [s[0]] + s[1..] == s;
    }
  }

  /** `a` is on an earlier day than `b`, or on the same day and created no earlier. */
  predicate DateThenNewest(a: Entry, b: Entry) {
    DateBefore(a.date, b.date) || (a.date == b.date && a.timestamp >= b.timestamp)
  }

  predicate SortedByDateThenNewest(s: seq<Entry>) {
    forall i, j :: 0 <= i < j < |s| ==> DateThenNewest(s[i], s[j])
  }

  /**
   * Sorting a newest-first list by date alone keeps the same-day entries in
   * their input order, newest first: the result is ordered by date, then by
   * creation time descending.
   */
  lemma {:induction false} DateOnlySortOfNewestFirst(s: seq<Entry>)
    requires SortedBy(NewestFirst, s)
    ensures SortedByDateThenNewest(SortBy(DateOnly, s))
  {
    if s != [] {
      var rest := SortBy(DateOnly, s[1..]);
      assert SortedBy(NewestFirst, s[1..]) by {
        SortedTail(NewestFirst, s);
      }
      DateOnlySortOfNewestFirst(s[1..]);
      forall y | y in rest
        ensures s[0].timestamp >= y.timestamp
      {
        assert y in multiset(s[1..]);
        var k :| 0 <= k < |s[1..]| && s[1..][k] == y;
        assert s[k + 1] == y;
      }
      InsertNewest(s[0], rest);
    }
  }

  /** Inserting by date alone an entry newer than all others keeps the order by date, then newest first. */
  lemma {:induction false} InsertNewest(x: Entry, s: seq<Entry>)
    requires SortedByDateThenNewest(s)
    requires forall y :: y in s ==> x.timestamp >= y.timestamp
    ensures SortedByDateThenNewest(Insert(DateOnly, x, s))
  {
    if s == [] || Precedes(DateOnly, x, s[0]) {
      NewestInFront(x, s);
    } else {
      assert SortedByDateThenNewest(s[1..]) by {
        forall i, j | 0 <= i < j < |s[1..]|
          ensures DateThenNewest(s[1..][i], s[1..][j])
        {
          assert s[1..][i] == s[i + 1] && s[1..][j] == s[j + 1];
        }
      }
      InsertNewest(x, s[1..]);
      EarlierInFront(x, s, Insert(DateOnly, x, s[1..]));
    }
  }

  /** An entry no later than the first of the list and newer than all of it can go in front. */
  lemma NewestInFront(x: Entry, s: seq<Entry>)
    requires SortedByDateThenNewest(s)
    requires forall y :: y in s ==> x.timestamp >= y.timestamp
    requires s == [] || Precedes(DateOnly, x, s[0])
    ensures SortedByDateThenNewest([x] + s)
  {
    var r := [x] + s;
    forall i, j | 0 <= i < j < |r|
      ensures DateThenNewest(r[i], r[j])
    {
      assert r[j] == s[j - 1];
      if i > 0 {
        assert r[i] == s[i - 1];
      } else if j > 1 {
        assert DateThenNewest(s[0], s[j - 1]);
      }
    }
  }

  /** The first entry, dated before `x`, stays in front of `x` inserted into the rest. */
  lemma EarlierInFront(x: Entry, s: seq<Entry>, rest: seq<Entry>)
    requires SortedByDateThenNewest(s) && s != [] && !Precedes(DateOnly, x, s[0])
    requires SortedByDateThenNewest(rest) && multiset(rest) == multiset(s[1..]) + multiset{x}
    ensures SortedByDateThenNewest([s[0]] + rest)
  {
    var r := [s[0]] + rest;
    forall j | 0 <= j < |rest|
      ensures DateThenNewest(s[0], rest[j])
    {
      assert rest[j] in multiset(rest);
      if rest[j] != x {
        assert rest[j] in multiset(s[1..]);
        var k :| 0 <= k < |s[1..]| && s[1..][k] == rest[j];
        assert s[k + 1] == rest[j];
      }
    }
    forall i, j | 0 <= i < j < |r|
      ensures DateThenNewest(r[i], r[j])
    {
      assert r[j] == rest[j - 1];
      if i > 0 {
        assert r[i] == rest[i - 1];
      }
    }
  }

  ghost predicate DistinctTimestamps(s: seq<Entry>) {
    forall x, y :: x in s && y in s && x.timestamp == y.timestamp ==> x == y
  }

  /** Entries that each precede the other chronologically share a date and a creation time. */
  lemma MutuallyPrecedingAreTied(x: Entry, y: Entry)
    requires Precedes(Chronological, x, y) && Precedes(Chronological, y, x)
    ensures x.date == y.date && x.timestamp == y.timestamp
  {
  }

  lemma SortedTail(o: Order, s: seq<Entry>)
    requires SortedBy(o, s) && s != []
    ensures SortedBy(o, s[1..])
  {
    forall i, j | 0 <= i < j < |s| - 1
      ensures Precedes(o, s[1..][i], s[1..][j])
    {
      assert s[1..][i] == s[i + 1] && s[1..][j] == s[j + 1];
    }
  }

  /** Having distinct creation times depends only on which entries occur. */
  lemma DistinctTimestampsTransfer(a: seq<Entry>, b: seq<Entry>)
    requires forall x :: x in b ==> x in a
    requires DistinctTimestamps(a)
    ensures DistinctTimestamps(b)
  {
  }

  /** Two chronologically ordered arrangements of the same entries start with the same entry. */
  lemma SameFirstEntry(a: seq<Entry>, b: seq<Entry>)
    requires SortedBy(Chronological, a) && SortedBy(Chronological, b)
    requires multiset(a) == multiset(b) && a != [] && b != []
    requires DistinctTimestamps(a)
    ensures a[0] == b[0]
  {
    assert b[0] in multiset(a) && a[0] in multiset(b);
    var i :| 0 <= i < |a| && a[i] == b[0];
    var j :| 0 <= j < |b| && b[j] == a[0];
    assert Precedes(Chronological, a[0], b[0]) by {
      if i > 0 {
        assert Precedes(Chronological, a[0], a[i]);
      }
    }
    assert Precedes(Chronological, b[0], a[0]) by {
      if j > 0 {
        assert Precedes(Chronological, b[0], b[j]);
      }
    }
    MutuallyPrecedingAreTied(a[0], b[0]);
    assert a[0] in a && b[0] in a;
  }

  /** Removing the same first entry from two arrangements of the same entries leaves the same entries. */
  lemma SameRest(a: seq<Entry>, b: seq<Entry>)
    requires multiset(a) == multiset(b) && a != [] && b != [] && a[0] == b[0]
    ensures multiset(a[1..]) == multiset(b[1..])
  {
    assert a == [a[0]] + a[1..] && b == [b[0]] + b[1..];
    assert multiset(a) == multiset{a[0]} + multiset(a[1..]);
    assert multiset(b) == multiset{a[0]} + multiset(b[1..]);
    assert multiset(a[1..]) == multiset(a) - multiset{a[0]};
    assert multiset(b[1..]) == multiset(b) - multiset{a[0]};
  }

  /**
   * Two chronologically ordered arrangements of the same entries are the same
   * sequence once no two different entries share a creation time.
   */
  lemma {:induction false} ChronologicalOrderIsUnique(a: seq<Entry>, b: seq<Entry>)
    requires SortedBy(Chronological, a) && SortedBy(Chronological, b)
    requires multiset(a) == multiset(b)
    requires DistinctTimestamps(a)
    ensures a == b
    decreases |a|
  {
    assert |a| == |b| by {
      assert |multiset(a)| == |multiset(b)|;
    }
    if a != [] {
      SameFirstEntry(a, b);
      SameRest(a, b);
      forall x | x in a[1..]
        ensures x in a
      {
      }
      DistinctTimestampsTransfer(a, a[1..]);
      SortedTail(Chronological, a);
      SortedTail(Chronological, b);
      ChronologicalOrderIsUnique(a[1..], b[1..]);
      assert a == [a[0]] + a[1..] && b == [b[0]] + b[1..];
    }
  }

  // -------------------------------------------------------------------- sums

  /** The sum of the amounts. */
  function Sum(s: seq<Entry>): real {
    if s == [] then 0.0 else s[0].amount + Sum(s[1..])
  }

  lemma {:induction false} SumAppend(a: seq<Entry>, b: seq<Entry>)
    ensures Sum(a + b) == Sum(a) + Sum(b)
  {
    if a == [] {
      assert a + b == b;
    } else {
      assert (a + b)[0] == a[0];
      assert (a + b)[1..] == a[1..] + b;
      SumAppend(a[1..], b);
    }
  }

  /** Extending a prefix by one entry adds that entry's amount. */
  lemma SumOfLongerPrefix(s: seq<Entry>, i: nat)
    requires i < |s|
    ensures Sum(s[..i + 1]) == Sum(s[..i]) + s[i].amount
  {
    assert s[..i + 1] == s[..i] + [s[i]];
    SumAppend(s[..i], [s[i]]);
  }

  /** Two sequences with the same amounts, position by position, have the same sum. */
  lemma {:induction false} SumOfSameAmounts(a: seq<Entry>, b: seq<Entry>)
    requires |a| == |b|
    requires forall i :: 0 <= i < |a| ==> a[i].amount == b[i].amount
    ensures Sum(a) == Sum(b)
  {
    if a != [] {
      SumOfSameAmounts(a[1..], b[1..]);
    }
  }

  /** Removing the first element of `a` from a permutation `b` of it leaves a permutation of the rest of `a`. */
  lemma PermutationSplit(a: seq<Entry>, b: seq<Entry>) returns (i: nat)
    requires multiset(a) == multiset(b) && a != []
    ensures i < |b| && b[i] == a[0]
    ensures b == b[..i] + [a[0]] + b[i + 1..]
    ensures multiset(a[1..]) == multiset(b[..i] + b[i + 1..])
  {
    var x := a[0];
    assert x in multiset(b);
    i :| 0 <= i < |b| && b[i] == x;
    assert b == b[..i] + [x] + b[i + 1..];
    assert a == [x] + a[1..];
    assert multiset(a[1..]) == multiset(a) - multiset{x};
    assert multiset(b[..i] + b[i + 1..]) == multiset(b) - multiset{x};
  }

  /** The sum does not depend on the order of the entries. */
  lemma {:induction false} SumOfPermutation(a: seq<Entry>, b: seq<Entry>)
    requires multiset(a) == multiset(b)
    ensures Sum(a) == Sum(b)
    decreases |a|
  {
    if a == [] {
      assert |multiset(b)| == 0;
    } else {
      var i := PermutationSplit(a, b);
      SumOfPermutation(a[1..], b[..i] + b[i + 1..]);
      SumAppend(b[..i] + [a[0]], b[i + 1..]);
      SumAppend(b[..i], [a[0]]);
      SumAppend(b[..i], b[i + 1..]);
    }
  }

  /** All amounts positive gives a positive sum for a non-empty sequence. */
  lemma {:induction false} SumOfPositives(s: seq<Entry>)
    requires forall i :: 0 <= i < |s| ==> s[i].amount > 0.0
    ensures Sum(s) >= 0.0
    ensures s != [] ==> Sum(s) > 0.0
  {
    if s != [] {
      SumOfPositives(s[1..]);
    }
  }

  /** calculateRunningBalanceHelper: folds the amounts, left to right, into the initial balance. */
  function RunningBalanceHelper(entries: seq<Entry>, initialBalance: real): real {
    if entries == [] then initialBalance
    else RunningBalanceHelper(entries[1..], initialBalance + entries[0].amount)
  }

  /** The helper's fold is the initial balance plus the sum of the amounts. */
  lemma {:induction false} RunningBalanceHelperIsSum(entries: seq<Entry>, initialBalance: real)
    ensures RunningBalanceHelper(entries, initialBalance) == initialBalance + Sum(entries)
  {
    if entries != [] {
      RunningBalanceHelperIsSum(entries[1..], initialBalance + entries[0].amount);
    }
  }

  // ----------------------------------------------------- the balance stamps

  /** `s` with every entry stamped with `start` plus the amounts up to and including it. */
  function Annotate(s: seq<Entry>, start: real): (r: seq<Entry>)
    ensures |r| == |s|
  {
    seq(|s|, k requires 0 <= k < |s| => s[k].(balanceAfter := Some(start + Sum(s[..k + 1]))))
  }

  /** What calculateRunningBalance returns as its entries. */
  function RunningBalanceOf(initialBalance: real, entries: seq<Entry>): seq<Entry> {
    Annotate(SortBy(Chronological, entries), initialBalance)
  }

  /**
   * The ledger invariant: the entries are in chronological order and every
   * `balanceAfter` is the initial balance plus the amounts up to and including
   * that entry.
   */
  predicate IsRunningBalance(initialBalance: real, s: seq<Entry>) {
    && SortedBy(Chronological, s)
    && forall k :: 0 <= k < |s| ==> s[k].balanceAfter == Some(initialBalance + Sum(s[..k + 1]))
  }

  /** An entry with its derived balance removed. */
  function Unstamped(e: Entry): Entry {
    e.(balanceAfter := None)
  }

  function UnstampedAll(s: seq<Entry>): (r: seq<Entry>)
    ensures |r| == |s|
  {
    seq(|s|, k requires 0 <= k < |s| => Unstamped(s[k]))
  }

  lemma UnstampedAppend(a: seq<Entry>, b: seq<Entry>)
    ensures UnstampedAll(a + b) == UnstampedAll(a) + UnstampedAll(b)
  {
  }

  /** Reordering entries reorders their unstamped copies the same way. */
  lemma {:induction false} UnstampedPermutation(a: seq<Entry>, b: seq<Entry>)
    requires multiset(a) == multiset(b)
    ensures multiset(UnstampedAll(a)) == multiset(UnstampedAll(b))
    decreases |a|
  {
    if a == [] {
      assert |multiset(b)| == 0;
    } else {
      var i := PermutationSplit(a, b);
      UnstampedPermutation(a[1..], b[..i] + b[i + 1..]);
      assert a == [a[0]] + a[1..];
      UnstampedAppend([a[0]], a[1..]);
      UnstampedAppend(b[..i] + [a[0]], b[i + 1..]);
      UnstampedAppend(b[..i], [a[0]]);
      UnstampedAppend(b[..i], b[i + 1..]);
    }
  }

  /** Stamping an ordered sequence yields the invariant. */
  lemma AnnotateSorted(s: seq<Entry>, start: real)
    requires SortedBy(Chronological, s)
    ensures IsRunningBalance(start, Annotate(s, start))
  {
    var r := Annotate(s, start);
    assert SortedBy(Chronological, r) by {
      forall i, j | 0 <= i < j < |r|
        ensures Precedes(Chronological, r[i], r[j])
      {
        assert Precedes(Chronological, s[i], s[j]);
      }
    }
    forall k | 0 <= k < |r|
      ensures r[k].balanceAfter == Some(start + Sum(r[..k + 1]))
    {
      SumOfSameAmounts(r[..k + 1], s[..k + 1]);
    }
  }

  /** Stamping changes nothing but the stamps. */
  lemma AnnotateUnstamped(s: seq<Entry>, start: real)
    ensures UnstampedAll(Annotate(s, start)) == UnstampedAll(s)
  {
  }

  /** Stamping keeps every amount, so the sum. */
  lemma AnnotateSum(s: seq<Entry>, start: real)
    ensures Sum(Annotate(s, start)) == Sum(s)
  {
    SumOfSameAmounts(Annotate(s, start), s);
  }

  /** The stamp at position `k` is the start plus the amounts up to and including `k`. */
  lemma AnnotateAt(s: seq<Entry>, start: real, k: nat)
    requires k < |s|
    ensures Annotate(s, start)[k].balanceAfter == Some(start + Sum(s[..k + 1]))
  {
  }

  /** The stamp at the last position is the start plus the given total of all amounts. */
  lemma AnnotateLastIs(s: seq<Entry>, start: real, total: real)
    requires s != [] && Sum(s) == total
    ensures Annotate(s, start)[|s| - 1].balanceAfter == Some(start + total)
  {
    var k := |s| - 1;
    assert s[..k + 1] == s;
    AnnotateAt(s, start, k);
  }

  /**
   * calculateRunningBalance's entries are the input, reordered chronologically,
   * with only `balanceAfter` changed, and every stamp is the prefix sum from the
   * initial balance; the last stamp is the initial balance plus all amounts.
   */
  lemma RunningBalanceCorrect(initialBalance: real, entries: seq<Entry>)
    ensures |RunningBalanceOf(initialBalance, entries)| == |entries|
    ensures IsRunningBalance(initialBalance, RunningBalanceOf(initialBalance, entries))
    ensures multiset(UnstampedAll(RunningBalanceOf(initialBalance, entries))) == multiset(UnstampedAll(entries))
    ensures Sum(RunningBalanceOf(initialBalance, entries)) == Sum(entries)
    ensures entries != [] ==>
      RunningBalanceOf(initialBalance, entries)[|entries| - 1].balanceAfter == Some(initialBalance + Sum(entries))
  {
    var s := SortBy(Chronological, entries);
    SortBySorted(Chronological, entries);
    AnnotateSorted(s, initialBalance);
    AnnotateUnstamped(s, initialBalance);
    AnnotateSum(s, initialBalance);
    SumOfPermutation(s, entries);
    UnstampedPermutation(s, entries);
    if entries != [] {
      AnnotateLastIs(s, initialBalance, Sum(entries));
    }
  }

  /** A ledger that already satisfies the invariant is left as it is by the engine. */
  lemma RunningBalanceFixpoint(initialBalance: real, s: seq<Entry>)
    requires IsRunningBalance(initialBalance, s)
    ensures RunningBalanceOf(initialBalance, s) == s
  {
    SortOfSortedIsIdentity(Chronological, s);
  }

  /** The invariant holds exactly of the sequences the engine leaves unchanged. */
  lemma IsRunningBalanceIffFixpoint(initialBalance: real, s: seq<Entry>)
    ensures IsRunningBalance(initialBalance, s) <==> RunningBalanceOf(initialBalance, s) == s
  {
    if IsRunningBalance(initialBalance, s) {
      RunningBalanceFixpoint(initialBalance, s);
    }
    RunningBalanceCorrect(initialBalance, s);
  }

  /** Running the engine on its own output gives the same entries and stamps. */
  lemma RunningBalanceIdempotent(initialBalance: real, entries: seq<Entry>)
    ensures RunningBalanceOf(initialBalance, RunningBalanceOf(initialBalance, entries))
         == RunningBalanceOf(initialBalance, entries)
  {
    RunningBalanceCorrect(initialBalance, entries);
    RunningBalanceFixpoint(initialBalance, RunningBalanceOf(initialBalance, entries));
  }

  /**
   * calculateRunningBalance: sorts the entries chronologically, then walks them
   * accumulating the running balance and the total income, stamping each entry.
   */
  method CalculateRunningBalance(initialBalance: real, entries: seq<Entry>)
    returns (updated: seq<Entry>, currentBalance: real, totalIncome: real)
    ensures updated == RunningBalanceOf(initialBalance, entries)
    ensures IsRunningBalance(initialBalance, updated)
    ensures multiset(UnstampedAll(updated)) == multiset(UnstampedAll(entries))
    ensures totalIncome == Sum(entries)
    ensures currentBalance == initialBalance + totalIncome
  {
    var sorted := SortBy(Chronological, entries);
    var runningBalance := initialBalance;
    totalIncome := 0.0;
    updated := [];
    ghost var stamped := Annotate(sorted, initialBalance);
    for i := 0 to |sorted|
      invariant totalIncome == Sum(sorted[..i])
      invariant runningBalance == initialBalance + totalIncome
      invariant updated == stamped[..i]
    {
      SumOfLongerPrefix(sorted, i);
      runningBalance := runningBalance + sorted[i].amount;
      totalIncome := totalIncome + sorted[i].amount;
      assert stamped[..i + 1] == stamped[..i] + [stamped[i]];
      updated := updated + [sorted[i].(balanceAfter := Some(runningBalance))];
    }
    currentBalance := runningBalance;
    assert sorted[..|sorted|] == sorted;
    assert stamped[..|sorted|] == stamped;
    assert totalIncome == Sum(entries) by {
      SumOfPermutation(sorted, entries);
    }
    assert IsRunningBalance(initialBalance, updated)
        && multiset(UnstampedAll(updated)) == multiset(UnstampedAll(entries)) by {
      RunningBalanceCorrect(initialBalance, entries);
    }
  }

  /**
   * The ledger does not depend on the order the entries are stored in: any
   * rearrangement recomputes to the same stamped entries, provided no two
   * different entries share a creation time.
   */
  lemma RunningBalanceOfPermutation(initialBalance: real, a: seq<Entry>, b: seq<Entry>)
    requires multiset(a) == multiset(b)
    requires DistinctTimestamps(a)
    ensures RunningBalanceOf(initialBalance, a) == RunningBalanceOf(initialBalance, b)
  {
    SortBySorted(Chronological, a);
    SortBySorted(Chronological, b);
    var sa := SortBy(Chronological, a);
    forall x | x in sa
      ensures x in a
    {
      assert x in multiset(sa);
    }
    DistinctTimestampsTransfer(a, sa);
    ChronologicalOrderIsUnique(SortBy(Chronological, a), SortBy(Chronological, b));
  }
}
