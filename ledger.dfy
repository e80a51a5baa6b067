/**
 * The ledger's persisted state and the operations over it: the optional
 * balance record and the list of income entries, kept as two fields of a
 * store object. Every operation that changes the entries recomputes the
 * running balances from the initial balance.
 */
module Ledger {
  import opened CashFlowTypes
  import opened Validation
  import opened RunningBalance
  import opened Query
  import opened Summary

  /**
   * The entry saveIncomeEntry builds from a draft, its new id and its creation
   * time, once the draft has passed validation: it carries the draft's fields,
   * its date and category read back give the draft's strings, and it has no
   * running balance yet.
   */
  function NewEntry(draft: EntryDraft, id: string, timestamp: int): (r: Result<Entry>)
    ensures r.Success? <==> ValidateIncomeEntry(draft).Success?
    ensures r.Failure? ==> r.error == ValidateIncomeEntry(draft).error
    ensures r.Success? ==>
      && r.value.id == id && r.value.timestamp == timestamp
      && r.value.amount == draft.amount && r.value.description == draft.description
      && r.value.balanceAfter == None && Unstamped(r.value) == r.value
      && ValidEntry(r.value)
      && FormatIsoDate(r.value.date) == draft.date && CategoryName(r.value.category) == draft.category
  {
    var v := ValidateIncomeEntry(draft);
    if v.Failure? then Failure(v.error)
    else Success(Entry(id, draft.amount, v.value.0, draft.description, v.value.1, timestamp, None,
                       draft.isRecurring, draft.recurringId))
  }

  /**
   * The entry with the update spread over it: the supplied fields replace the
   * entry's, the others are kept; the id and the creation time are never touched.
   */
  function Patch(e: Entry, u: EntryUpdate, date: Option<Date>, category: Option<Category>): (r: Entry)
    ensures r.id == e.id && r.timestamp == e.timestamp && r.balanceAfter == e.balanceAfter
  {
    Entry(
      e.id,
      if u.amount.Some? then u.amount.value else e.amount,
      if date.Some? then date.value else e.date,
      if u.description.Some? then u.description.value else e.description,
      if category.Some? then category.value else e.category,
      e.timestamp,
      e.balanceAfter,
      if u.isRecurring.Some? then u.isRecurring else e.isRecurring,
      if u.recurringId.Some? then u.recurringId else e.recurringId)
  }

  /** The entries whose id differs from `id`, in their order. */
  function WithoutId(s: seq<Entry>, id: string): (r: seq<Entry>)
    ensures |r| <= |s|
    ensures forall i :: 0 <= i < |r| ==> r[i].id != id
  {
    if s == [] then []
    else if s[0].id == id then WithoutId(s[1..], id)
    else [s[0]] + WithoutId(s[1..], id)
  }

  /**
   * The filter drops exactly the entries with the id: every other entry is
   * kept as often as before, and when the id occurs the result is shorter.
   */
  lemma {:induction false} WithoutIdMeaning(s: seq<Entry>, id: string)
    ensures forall e :: multiset(WithoutId(s, id))[e] == if e.id == id then 0 else multiset(s)[e]
    ensures (exists i :: 0 <= i < |s| && s[i].id == id) ==> |WithoutId(s, id)| < |s|
  {
    if s != [] {
      WithoutIdMeaning(s[1..], id);
      assert s == [s[0]] + s[1..];
      if exists i :: 0 <= i < |s| && s[i].id == id {
        var i :| 0 <= i < |s| && s[i].id == id;
        if s[0].id != id {
          assert s[1..][i - 1].id == id;
        }
      }
    }
  }

  /** Every stored entry passed the validators when it was written. */
  predicate AllValid(s: seq<Entry>) {
    forall i :: 0 <= i < |s| ==> ValidEntry(s[i])
  }

  /**
   * With a valid initial balance and valid entries every amount is positive,
   * so every running-balance stamp is present and positive (never falsy).
   */
  lemma PositiveStamps(initialBalance: real, s: seq<Entry>)
    requires ValidateAmount(initialBalance) == Pass && AllValid(s)
    requires IsRunningBalance(initialBalance, s)
    ensures forall k :: 0 <= k < |s| ==> s[k].balanceAfter.Some? && s[k].balanceAfter.value > 0.0
  {
    forall k | 0 <= k < |s|
      ensures s[k].balanceAfter.Some? && s[k].balanceAfter.value > 0.0
    {
      var prefix := s[..k + 1];
      forall i | 0 <= i < |prefix|
        ensures prefix[i].amount > 0.0
      {
        assert prefix[i] == s[i] && ValidEntry(s[i]);
      }
      SumOfPositives(prefix);
    }
  }

  // ----------------------------------------------- lemmas about stamping

  /** An entry of a sequence that equals `b` up to stamps comes from some entry of `b`. */
  lemma UnstampedOrigin(a: seq<Entry>, b: seq<Entry>, e: Entry) returns (j: nat)
    requires multiset(UnstampedAll(a)) == multiset(UnstampedAll(b))
    requires e in a
    ensures j < |b| && Unstamped(b[j]) == Unstamped(e)
  {
    var i :| 0 <= i < |a| && a[i] == e;
    assert UnstampedAll(a)[i] == Unstamped(e);
    assert Unstamped(e) in multiset(UnstampedAll(b));
    j :| 0 <= j < |b| && UnstampedAll(b)[j] == Unstamped(e);
  }

  /** Validity does not depend on the stamps, so it carries over to a restamped permutation. */
  lemma AllValidTransfer(a: seq<Entry>, b: seq<Entry>)
    requires multiset(UnstampedAll(a)) == multiset(UnstampedAll(b))
    requires AllValid(b)
    ensures AllValid(a)
  {
    forall i | 0 <= i < |a|
      ensures ValidEntry(a[i])
    {
      var j := UnstampedOrigin(a, b, a[i]);
      assert ValidEntry(b[j]);
    }
  }

  /** Dropping the stamps and then the entries with the id leaves every other entry as often as before. */
  lemma UnstampedWithoutId(s: seq<Entry>, id: string)
    ensures forall e :: multiset(UnstampedAll(WithoutId(s, id)))[e]
                     == if e.id == id then 0 else multiset(UnstampedAll(s))[e]
  {
    WithoutIdUnstamped(s, id);
    WithoutIdMeaning(UnstampedAll(s), id);
  }

  /** Removing an id commutes with dropping the stamps, which keep the id. */
  lemma {:induction false} WithoutIdUnstamped(s: seq<Entry>, id: string)
    ensures UnstampedAll(WithoutId(s, id)) == WithoutId(UnstampedAll(s), id)
  {
    if s != [] {
      WithoutIdUnstamped(s[1..], id);
      WithoutIdUnstampedStep(s, id);
    }
  }

  /** The inductive step of WithoutIdUnstamped: one more entry at the front. */
  lemma WithoutIdUnstampedStep(s: seq<Entry>, id: string)
    requires s != []
    requires UnstampedAll(WithoutId(s[1..], id)) == WithoutId(UnstampedAll(s[1..]), id)
    ensures UnstampedAll(WithoutId(s, id)) == WithoutId(UnstampedAll(s), id)
  {
    var u := UnstampedAll(s);
    assert u != [] && u[0] == Unstamped(s[0]) && u[0].id == s[0].id;
    assert u[1..] == UnstampedAll(s[1..]);
    if s[0].id == id {
      assert WithoutId(s, id) == WithoutId(s[1..], id);
      assert WithoutId(u, id) == WithoutId(u[1..], id);
    } else {
      assert WithoutId(s, id) == [s[0]] + WithoutId(s[1..], id);
      assert WithoutId(u, id) == [u[0]] + WithoutId(u[1..], id);
      UnstampedAppend([s[0]], WithoutId(s[1..], id));
      assert UnstampedAll([s[0]]) == [u[0]];
    }
  }

  /** Overwriting one position changes the unstamped multiset by exactly that entry. */
  lemma UnstampedUpdate(s: seq<Entry>, i: nat, y: Entry)
    requires i < |s|
    ensures multiset(UnstampedAll(s[i := y]))
         == multiset(UnstampedAll(s)) - multiset{Unstamped(s[i])} + multiset{Unstamped(y)}
  {
    assert UnstampedAll(s[i := y]) == UnstampedAll(s)[i := Unstamped(y)];
  }

  /** What recomputing the running balances over `list` stores, up to stamps. */
  lemma Recomputed(initialBalance: real, list: seq<Entry>, stored: seq<Entry>)
    requires multiset(list) == multiset(stored)
    ensures multiset(UnstampedAll(RunningBalanceOf(initialBalance, list))) == multiset(UnstampedAll(stored))
    ensures Sum(RunningBalanceOf(initialBalance, list)) == Sum(stored)
  {
    RunningBalanceCorrect(initialBalance, list);
    UnstampedPermutation(list, stored);
    SumOfPermutation(list, stored);
  }

  /** After recomputation, looking up an id that was in the list finds an entry. */
  lemma FoundAfterRecompute(initialBalance: real, list: seq<Entry>, id: string, k: nat)
    requires k < |list| && list[k].id == id
    ensures Find(RunningBalanceOf(initialBalance, list), id).Some?
  {
    var stamped := RunningBalanceOf(initialBalance, list);
    RunningBalanceCorrect(initialBalance, list);
    var j := UnstampedOrigin(list, stamped, list[k]);
    assert stamped[j] in stamped;
  }

  /** Exactly one entry carries the id: filtering the id out drops one entry. */
  ghost predicate UniqueId(s: seq<Entry>, id: string) {
    |WithoutId(s, id)| + 1 == |s|
  }

  /** UniqueId holds exactly when one position of the sequence holds the id. */
  lemma {:induction false} UniqueIdMeaning(s: seq<Entry>, id: string)
    ensures UniqueId(s, id) <==> OnePosition(s, id)
  {
    if s != [] {
      if s[0].id == id {
        UniqueIdAtHead(s, id);
      } else {
        UniqueIdMeaning(s[1..], id);
        UniqueIdPastHead(s, id);
      }
    }
  }

  /** Exactly one position of `s` holds the id. */
  ghost predicate OnePosition(s: seq<Entry>, id: string) {
    exists i :: 0 <= i < |s| && s[i].id == id && forall j :: 0 <= j < |s| && j != i ==> s[j].id != id
  }

  lemma UniqueIdAtHead(s: seq<Entry>, id: string)
    requires s != [] && s[0].id == id
    ensures UniqueId(s, id) <==> OnePosition(s, id)
  {
    var t := s[1..];
    assert WithoutId(s, id) == WithoutId(t, id);
    if forall j :: 0 <= j < |t| ==> t[j].id != id {
      assert |WithoutId(t, id)| == |t| by {
        WithoutIdAbsent(t, id);
      }
      forall j | 0 <= j < |s| && j != 0
        ensures s[j].id != id
      {
        assert s[j] == t[j - 1];
      }
    } else {
      var k :| 0 <= k < |t| && t[k].id == id;
      WithoutIdMeaning(t, id);
      assert s[k + 1].id == id;
    }
  }

  /** Filtering out an id no entry has keeps every entry. */
  lemma WithoutIdAbsent(t: seq<Entry>, id: string)
    requires forall j :: 0 <= j < |t| ==> t[j].id != id
    ensures |WithoutId(t, id)| == |t|
  {
    WithoutIdMeaning(t, id);
    assert multiset(WithoutId(t, id)) == multiset(t);
    assert |multiset(WithoutId(t, id))| == |multiset(t)|;
  }

  lemma UniqueIdPastHead(s: seq<Entry>, id: string)
    requires s != [] && s[0].id != id
    requires UniqueId(s[1..], id) <==> OnePosition(s[1..], id)
    ensures UniqueId(s, id) <==> OnePosition(s, id)
  {
    var t := s[1..];
    assert WithoutId(s, id) == [s[0]] + WithoutId(t, id);
    if OnePosition(t, id) {
      var i :| 0 <= i < |t| && t[i].id == id && forall j :: 0 <= j < |t| && j != i ==> t[j].id != id;
      forall j | 0 <= j < |s| && j != i + 1
        ensures s[j].id != id
      {
        if j > 0 {
          assert s[j] == t[j - 1];
        }
      }
      assert s[i + 1].id == id;
    }
    if OnePosition(s, id) {
      var i :| 0 <= i < |s| && s[i].id == id && forall j :: 0 <= j < |s| && j != i ==> s[j].id != id;
      assert t[i - 1].id == id;
      forall j | 0 <= j < |t| && j != i - 1
        ensures t[j].id != id
      {
        assert t[j] == s[j + 1];
      }
    }
  }

  /** Exactly one entry carries the id in a permutation of a sequence where exactly one does. */
  lemma UniqueIdTransfer(a: seq<Entry>, b: seq<Entry>, id: string)
    requires multiset(a) == multiset(b) && UniqueId(b, id)
    ensures UniqueId(a, id)
  {
    WithoutIdMeaning(a, id);
    WithoutIdMeaning(b, id);
    assert multiset(WithoutId(a, id)) == multiset(WithoutId(b, id));
    assert |WithoutId(a, id)| == |WithoutId(b, id)| by {
      assert |multiset(WithoutId(a, id))| == |multiset(WithoutId(b, id))|;
    }
    assert |a| == |b| by {
      assert |multiset(a)| == |multiset(b)|;
    }
  }

  /**
   * After an update, when exactly one stored entry carried the id, looking the
   * id up finds the patched entry, stamped.
   */
  lemma UpdatedEntryFound(initialBalance: real, current: seq<Entry>, stored: seq<Entry>, i: nat, y: Entry)
    requires multiset(current) == multiset(stored) && i < |current| && y.id == current[i].id
    requires UniqueId(stored, y.id)
    ensures Find(RunningBalanceOf(initialBalance, current[i := y]), y.id).Some?
    ensures Unstamped(Find(RunningBalanceOf(initialBalance, current[i := y]), y.id).value) == Unstamped(y)
  {
    var list := current[i := y];
    var saved := RunningBalanceOf(initialBalance, list);
    UniqueIdTransfer(current, stored, y.id);
    UniqueIdMeaning(current, y.id);
    FoundAfterRecompute(initialBalance, list, y.id, i);
    RunningBalanceCorrect(initialBalance, list);
    var j := UnstampedOrigin(saved, list, Find(saved, y.id).value);
    var i0 :| 0 <= i0 < |current| && current[i0].id == y.id
              && forall k :: 0 <= k < |current| && k != i0 ==> current[k].id != y.id;
    assert i0 == i;
    assert j == i;
  }

  /** The list a save recomputes over: the stored entries, reordered, and the new entry. */
  lemma AppendedList(current: seq<Entry>, stored: seq<Entry>, x: Entry)
    requires multiset(current) == multiset(stored) && x.balanceAfter == None
    ensures multiset(UnstampedAll(current + [x])) == multiset(UnstampedAll(stored)) + multiset{x}
    ensures Sum(current + [x]) == Sum(stored) + x.amount
    ensures AllValid(stored) && ValidEntry(x) ==> AllValid(current + [x])
  {
    UnstampedAppend(current, [x]);
    assert UnstampedAll([x]) == [x];
    UnstampedPermutation(current, stored);
    SumAppend(current, [x]);
    assert Sum([x]) == x.amount by {
      assert [x][1..] == [];
    }
    SumOfPermutation(current, stored);
    if AllValid(stored) && ValidEntry(x) {
      forall i | 0 <= i < |current + [x]|
        ensures ValidEntry((current + [x])[i])
      {
        if i < |current| {
          assert current[i] in multiset(stored);
        }
      }
    }
  }

  /** After a save, looking up the new id finds the new entry when no stored entry had that id. */
  lemma SavedEntryFound(initialBalance: real, current: seq<Entry>, stored: seq<Entry>, x: Entry)
    requires multiset(current) == multiset(stored) && x.balanceAfter == None
    ensures Find(RunningBalanceOf(initialBalance, current + [x]), x.id).Some?
    ensures (forall e :: e in stored ==> e.id != x.id) ==>
              Unstamped(Find(RunningBalanceOf(initialBalance, current + [x]), x.id).value) == x
  {
    var list := current + [x];
    var saved := RunningBalanceOf(initialBalance, list);
    FoundAfterRecompute(initialBalance, list, x.id, |list| - 1);
    if forall e :: e in stored ==> e.id != x.id {
      forall k | 0 <= k < |current|
        ensures list[k].id != x.id
      {
        assert current[k] in multiset(stored);
      }
      RunningBalanceCorrect(initialBalance, list);
      var j := UnstampedOrigin(saved, list, Find(saved, x.id).value);
      assert list[j] == x;
    }
  }

  /**
   * What a save stores: the entries, restamped, with the new entry added; the
   * sum grows by its amount; validity is kept.
   */
  lemma SavedEntries(initialBalance: real, current: seq<Entry>, stored: seq<Entry>, x: Entry)
    requires multiset(current) == multiset(stored) && x.balanceAfter == None
    ensures var saved := RunningBalanceOf(initialBalance, current + [x]);
            && |saved| == |stored| + 1
            && multiset(UnstampedAll(saved)) == multiset(UnstampedAll(stored)) + multiset{x}
            && Sum(saved) == Sum(stored) + x.amount
            && (AllValid(stored) && ValidEntry(x) ==> AllValid(saved))
  {
    var list := current + [x];
    var saved := RunningBalanceOf(initialBalance, list);
    AppendedList(current, stored, x);
    RunningBalanceCorrect(initialBalance, list);
    assert |current| == |stored| by {
      assert |multiset(current)| == |multiset(stored)|;
    }
    if AllValid(stored) && ValidEntry(x) {
      AllValidTransfer(saved, list);
    }
  }

  /** Overwriting one entry changes the sum by the difference of the amounts. */
  lemma SumOfUpdate(s: seq<Entry>, i: nat, y: Entry)
    requires i < |s|
    ensures Sum(s[i := y]) == Sum(s) - s[i].amount + y.amount
  {
    assert s == s[..i] + [s[i]] + s[i + 1..];
    assert s[i := y] == s[..i] + [y] + s[i + 1..];
    SumAppend(s[..i] + [s[i]], s[i + 1..]);
    SumAppend(s[..i], [s[i]]);
    SumAppend(s[..i] + [y], s[i + 1..]);
    SumAppend(s[..i], [y]);
    assert [s[i]][1..] == [] && [y][1..] == [];
  }

  /** An entry patched with validated fields is as valid as the entry it replaces. */
  lemma PatchValid(e: Entry, u: EntryUpdate)
    requires ValidEntry(e) && ValidateUpdate(u).Success?
    ensures ValidEntry(Patch(e, u, ValidateUpdate(u).value.0, ValidateUpdate(u).value.1))
  {
  }

  /**
   * What an update stores: the entries, restamped, with one replaced by its
   * patched version; the sum changes by the difference; validity is kept; the
   * id is still found.
   */
  lemma UpdatedEntries(initialBalance: real, current: seq<Entry>, stored: seq<Entry>, i: nat, y: Entry, saved: seq<Entry>)
    requires multiset(current) == multiset(stored) && i < |current| && y.id == current[i].id
    requires saved == RunningBalanceOf(initialBalance, current[i := y])
    ensures |saved| == |stored|
    ensures multiset(UnstampedAll(saved))
            == multiset(UnstampedAll(stored)) - multiset{Unstamped(current[i])} + multiset{Unstamped(y)}
    ensures Sum(saved) == Sum(stored) - current[i].amount + y.amount
    ensures AllValid(stored) && ValidEntry(y) ==> AllValid(saved)
    ensures Find(saved, y.id).Some?
  {
    var list := current[i := y];
    RunningBalanceCorrect(initialBalance, list);
    UnstampedUpdate(current, i, y);
    UnstampedPermutation(current, stored);
    SumOfUpdate(current, i, y);
    SumOfPermutation(current, stored);
    assert |current| == |stored| by {
      assert |multiset(current)| == |multiset(stored)|;
    }
    if AllValid(stored) && ValidEntry(y) {
      forall k | 0 <= k < |list|
        ensures ValidEntry(list[k])
      {
        if k != i {
          assert current[k] in multiset(stored);
        }
      }
      AllValidTransfer(saved, list);
    }
    FoundAfterRecompute(initialBalance, list, y.id, i);
  }

  /**
   * What a delete stores: the entries without the id, restamped; every other
   * entry is kept as often as before; there are fewer entries; validity is kept.
   */
  lemma DeletedEntries(initialBalance: real, current: seq<Entry>, stored: seq<Entry>, id: string, k: nat, saved: seq<Entry>)
    requires multiset(current) == multiset(stored) && k < |current| && current[k].id == id
    requires saved == RunningBalanceOf(initialBalance, WithoutId(current, id))
    ensures |saved| < |stored|
    ensures forall e :: multiset(UnstampedAll(saved))[e] == if e.id == id then 0 else multiset(UnstampedAll(stored))[e]
    ensures forall e :: e in saved ==> e.id != id
    ensures AllValid(stored) ==> AllValid(saved)
  {
    var list := WithoutId(current, id);
    WithoutIdMeaning(current, id);
    RunningBalanceCorrect(initialBalance, list);
    UnstampedWithoutId(current, id);
    UnstampedPermutation(current, stored);
    assert |current| == |stored| by {
      assert |multiset(current)| == |multiset(stored)|;
    }
    forall e | e in saved
      ensures e.id != id
    {
      var j := UnstampedOrigin(saved, list, e);
    }
    if AllValid(stored) {
      forall j | 0 <= j < |list|
        ensures ValidEntry(list[j])
      {
        assert list[j] in multiset(list);
        assert list[j] in multiset(stored);
      }
      AllValidTransfer(saved, list);
    }
  }

  /**
   * The state a save leaves: `after` is the running balance over the stored
   * entries, newest first, with `x` appended; the balance records the new
   * total and `x` as the last entry; one more entry, the same entries up to
   * stamps plus `x`, the sum grown by x's amount; and `e`, the entry returned,
   * is stored with x's id and is `x` itself, stamped, when the id was new.
   */
  ghost predicate Saved(before: seq<Entry>, b: Balance, x: Entry, now: int,
                        after: seq<Entry>, balance: Option<Balance>, e: Entry) {
    && after == RunningBalanceOf(b.initialBalance, SortBy(NewestFirst, before) + [x])
    && balance == Some(b.(currentBalance := b.initialBalance + Sum(after), totalIncome := Sum(after),
                          lastUpdated := now, lastEntryId := Some(x.id)))
    && |after| == |before| + 1
    && multiset(UnstampedAll(after)) == multiset(UnstampedAll(before)) + multiset{x}
    && Sum(after) == Sum(before) + x.amount
    && e in after && e.id == x.id
    && ((forall e :: e in before ==> e.id != x.id) ==> Unstamped(e) == x)
  }

  /**
   * The state an update leaves: the entry with the id that comes first newest
   * first is patched in the newest-first list, the list is recomputed, and the
   * balance records the new total; one entry, up to stamps, is replaced by its
   * patched version and the sum changes by the difference of their amounts.
   */
  ghost predicate Updated(before: seq<Entry>, b: Balance, id: string, u: EntryUpdate,
                          date: Option<Date>, category: Option<Category>, now: int,
                          after: seq<Entry>, balance: Option<Balance>, e: Entry)
    requires FindIndex(SortBy(NewestFirst, before), id) >= 0
  {
    var current := SortBy(NewestFirst, before);
    var target := current[FindIndex(current, id)];
    var patched := Patch(target, u, date, category);
    && target in before && target.id == id
    && after == RunningBalanceOf(b.initialBalance, current[FindIndex(current, id) := patched])
    && balance == Some(b.(currentBalance := b.initialBalance + Sum(after), totalIncome := Sum(after), lastUpdated := now))
    && |after| == |before|
    && multiset(UnstampedAll(after))
       == multiset(UnstampedAll(before)) - multiset{Unstamped(target)} + multiset{Unstamped(patched)}
    && Sum(after) == Sum(before) - target.amount + patched.amount
    && e in after && e.id == id
    && (UniqueId(before, id) ==> Unstamped(e) == Unstamped(patched))
  }

  /**
   * The state a delete leaves: every entry with the id is gone, every other
   * entry is kept as often as before up to stamps, and the balance records the
   * new total.
   */
  ghost predicate Deleted(before: seq<Entry>, b: Balance, id: string, now: int,
                          after: seq<Entry>, balance: Option<Balance>) {
    && after == RunningBalanceOf(b.initialBalance, WithoutId(SortBy(NewestFirst, before), id))
    && balance == Some(b.(currentBalance := b.initialBalance + Sum(after), totalIncome := Sum(after), lastUpdated := now))
    && |after| < |before|
    && (forall e :: multiset(UnstampedAll(after))[e] == if e.id == id then 0 else multiset(UnstampedAll(before))[e])
    && (forall e :: e in after ==> e.id != id)
  }

  /** The id is found in the newest-first list exactly when some stored entry has it. */
  lemma FoundNewestFirst(s: seq<Entry>, id: string)
    ensures FindIndex(SortBy(NewestFirst, s), id) >= 0 <==> exists e :: e in s && e.id == id
  {
    var current := SortBy(NewestFirst, s);
    if FindIndex(current, id) >= 0 {
      assert current[FindIndex(current, id)] in multiset(s);
    }
    if exists e :: e in s && e.id == id {
      var e :| e in s && e.id == id;
      assert e in multiset(current);
    }
  }

  /**
   * The state a recalculation leaves: the stored entries, newest first,
   * recomputed from the initial balance, with the new totals; the same entries
   * up to stamps and the same sum.
   */
  ghost predicate Recalculated(before: seq<Entry>, b: Balance, now: int, after: seq<Entry>, balance: Option<Balance>) {
    && after == RunningBalanceOf(b.initialBalance, SortBy(NewestFirst, before))
    && balance == Some(b.(currentBalance := b.initialBalance + Sum(after), totalIncome := Sum(after), lastUpdated := now))
    && multiset(UnstampedAll(after)) == multiset(UnstampedAll(before))
    && Sum(after) == Sum(before)
  }

  /**
   * Recomputing a ledger that already satisfies the invariant gives back the
   * same entries, provided no two different entries share a creation time.
   */
  lemma RecalculateKeepsEntries(before: seq<Entry>, b: Balance, now: int, after: seq<Entry>, balance: Option<Balance>)
    requires Recalculated(before, b, now, after, balance)
    requires IsRunningBalance(b.initialBalance, before) && DistinctTimestamps(before)
    ensures after == before
  {
    RecomputedUnchanged(b.initialBalance, before);
  }

  /**
   * Recomputing totals that already agree with the entries leaves the balance
   * record as it was, only its update time changing.
   */
  lemma RecalculateKeepsTotals(before: seq<Entry>, b: Balance, now: int, after: seq<Entry>, balance: Option<Balance>)
    requires Recalculated(before, b, now, after, balance)
    requires b.totalIncome == Sum(before) && b.currentBalance == b.initialBalance + Sum(before)
    ensures balance == Some(b.(lastUpdated := now))
  {
    SameTotals(b, now, Sum(after));
  }

  /** The running balances of a ledger in the invariant, recomputed from the newest-first list, are its own. */
  lemma RecomputedUnchanged(initialBalance: real, before: seq<Entry>)
    requires IsRunningBalance(initialBalance, before) && DistinctTimestamps(before)
    ensures RunningBalanceOf(initialBalance, SortBy(NewestFirst, before)) == before
  {
    RunningBalanceOfPermutation(initialBalance, before, SortBy(NewestFirst, before));
    RunningBalanceFixpoint(initialBalance, before);
  }

  /** Totals recomputed to the values already held leave the record as it was, apart from its time. */
  lemma SameTotals(b: Balance, now: int, sum: real)
    requires sum == b.totalIncome && b.initialBalance + sum == b.currentBalance
    ensures b.(currentBalance := b.initialBalance + sum, totalIncome := sum, lastUpdated := now) == b.(lastUpdated := now)
  {
  }

  // ------------------------------------------------------------- the store

  /** The two persisted records: the optional balance and the entries. */
  class CashFlowStore {
    var balance: Option<Balance>
    var entries: seq<Entry>

    /** A fresh store: no balance set and no entries. */
    constructor()
      ensures balance == None && entries == []
      ensures Consistent()
    {
      balance := None;
      entries := [];
    }

    /**
     * The ledger invariant: without a balance there are no entries; with one,
     * the entries are in ledger order stamped with the running balance from the
     * initial balance, the total income is the sum of the amounts and the
     * current balance is the initial balance plus that sum.
     */
    ghost predicate Consistent()
      reads this
    {
      match balance
      case None => entries == []
      case Some(b) =>
        && IsRunningBalance(b.initialBalance, entries)
        && b.totalIncome == Sum(entries)
        && b.currentBalance == b.initialBalance + Sum(entries)
    }

    /** Every stored value passed the validators. */
    ghost predicate WellFormed()
      reads this
    {
      && (balance.Some? ==> ValidateAmount(balance.value.initialBalance) == Pass)
      && AllValid(entries)
    }

    /** getBalance: the balance record, or BalanceNotInitializedError when none was set. */
    method GetBalance() returns (r: Result<Balance>)
      ensures r.Failure? <==> balance.None?
      ensures r.Failure? ==> r.error == BalanceNotInitializedError
      ensures r.Success? ==> Some(r.value) == balance
    {
      if balance.None? {
        return Failure(BalanceNotInitializedError);
      }
      return Success(balance.value);
    }

    /**
     * setInitialBalance: after validating the amount, replaces any balance record
     * with one whose initial and current balance are the amount and whose totals
     * are 0. The entries are not touched.
     */
    method SetInitialBalance(amount: real, now: int) returns (r: Result<Balance>)
      modifies this
      ensures ValidateAmount(amount).Fail? ==> r == Failure(ValidateAmount(amount).error) && unchanged(this)
      ensures ValidateAmount(amount) == Pass ==>
        && r == Success(Balance(amount, amount, now, None, 0.0, 0.0))
        && balance == Some(r.value)
        && entries == old(entries)
      ensures old(entries) == [] && ValidateAmount(amount) == Pass ==> Consistent()
      ensures old(WellFormed()) ==> WellFormed()
    {
      var check := ValidateAmount(amount);
      if check.Fail? {
        return Failure(check.error);
      }
      var b := Balance(amount, amount, now, None, 0.0, 0.0);
      balance := Some(b);
      return Success(b);
    }

    /**
     * getIncomeEntries: the stored entries narrowed by each criterion the filter
     * supplies, one reassignment per criterion, then sorted newest first.
     */
    method GetIncomeEntries(filter: Option<IncomeFilter>) returns (r: seq<Entry>)
      ensures r == QueryEntries(entries, filter)
    {
      var list := entries;
      if filter.None? {
        return SortBy(NewestFirst, list);
      }
      var f := filter.value;
      ghost var byDate := if f.dateRange.Some? then [WithinRange(f.dateRange.value)] else [];
      ghost var byCategory := if |f.categories| > 0 then [InCategories(f.categories)] else [];
      ghost var byMin := if f.minAmount.Some? then [AtLeast(f.minAmount.value)] else [];
      ghost var byMax := if f.maxAmount.Some? then [AtMost(f.maxAmount.value)] else [];
      ghost var byText := if f.searchText.Some? && f.searchText.value != [] then [DescriptionContains(f.searchText.value)] else [];
      KeepAllSnocIf([], f.dateRange.Some?, WithinRange(if f.dateRange.Some? then f.dateRange.value else DateRange(Date(0, 1, 1), Date(0, 1, 1))), entries);
      if f.dateRange.Some? {
        list := FilterEntriesByDateRange(list, f.dateRange.value);
      }
      assert [] + byDate == byDate;
      assert list == KeepAll(byDate, entries);
      KeepAllSnocIf(byDate, |f.categories| > 0, InCategories(f.categories), entries);
      if |f.categories| > 0 {
        list := Keep(InCategories(f.categories), list);
      }
      assert list == KeepAll(byDate + byCategory, entries);
      KeepAllSnocIf(byDate + byCategory, f.minAmount.Some?, AtLeast(if f.minAmount.Some? then f.minAmount.value else 0.0), entries);
      if f.minAmount.Some? {
        list := Keep(AtLeast(f.minAmount.value), list);
      }
      assert list == KeepAll(byDate + byCategory + byMin, entries);
      KeepAllSnocIf(byDate + byCategory + byMin, f.maxAmount.Some?, AtMost(if f.maxAmount.Some? then f.maxAmount.value else 0.0), entries);
      if f.maxAmount.Some? {
        list := Keep(AtMost(f.maxAmount.value), list);
      }
      assert list == KeepAll(byDate + byCategory + byMin + byMax, entries);
      KeepAllSnocIf(byDate + byCategory + byMin + byMax, f.searchText.Some? && f.searchText.value != [],
                    DescriptionContains(if f.searchText.Some? then f.searchText.value else []), entries);
      if f.searchText.Some? && f.searchText.value != [] {
        list := Keep(DescriptionContains(f.searchText.value), list);
      }
      assert list == KeepAll(byDate + byCategory + byMin + byMax + byText, entries);
      return SortBy(NewestFirst, list);
    }

    /** getIncomeEntries called without a filter: every stored entry, newest first. */
    method AllEntries() returns (r: seq<Entry>)
      ensures r == SortBy(NewestFirst, entries)
    {
      r := GetIncomeEntries(None);
    }

    /** getIncomeEntryById: the first entry with the id in newest-first order, if any. */
    method GetIncomeEntryById(id: string) returns (r: Option<Entry>)
      ensures r.Some? ==> r.value in entries && r.value.id == id
      ensures r.None? <==> forall e :: e in entries ==> e.id != id
      ensures r.Some? ==> forall e :: e in entries && e.id == id ==> e.timestamp <= r.value.timestamp
    {
      var list := AllEntries();
      QueryMeaning(entries, None);
      FindNewest(list, id);
      r := Find(list, id);
      if r.Some? {
        assert r.value in multiset(list);
        forall e | e in entries && e.id == id
          ensures e.timestamp <= r.value.timestamp
        {
          assert e in multiset(list);
        }
      } else {
        forall e | e in entries
          ensures e.id != id
        {
          assert e in multiset(list);
        }
      }
    }

    /**
     * Recomputes the running balances over `list` from the initial balance of
     * `b` and stores the result with the new totals.
     */
    method Store(b: Balance, list: seq<Entry>, now: int, lastEntryId: Option<string>)
      modifies this
      ensures entries == RunningBalanceOf(b.initialBalance, list)
      ensures balance == Some(b.(currentBalance := b.initialBalance + Sum(entries), totalIncome := Sum(entries),
                                 lastUpdated := now, lastEntryId := lastEntryId))
      ensures lastEntryId == b.lastEntryId ==>
                balance == Some(b.(currentBalance := b.initialBalance + Sum(entries), totalIncome := Sum(entries),
                                   lastUpdated := now))
      ensures Consistent()
    {
      var updated, currentBalance, totalIncome := CalculateRunningBalance(b.initialBalance, list);
      assert Sum(updated) == totalIncome by {
        RunningBalanceCorrect(b.initialBalance, list);
      }
      entries := updated;
      balance := Some(b.(currentBalance := currentBalance, totalIncome := totalIncome,
                         lastUpdated := now, lastEntryId := lastEntryId));
    }

    /**
     * Appends `x` to the newest-first entries and recomputes; the balance
     * records `x` as the last entry. Returns the stored entry with x's id.
     */
    method Append(b: Balance, x: Entry, now: int) returns (e: Entry)
      requires balance == Some(b) && x.balanceAfter == None
      modifies this
      ensures Saved(old(entries), b, x, now, entries, balance, e)
      ensures Consistent()
      ensures old(WellFormed()) && ValidEntry(x) ==> WellFormed()
    {
      var current := AllEntries();
      QueryMeaning(entries, None);
      SavedEntries(b.initialBalance, current, entries, x);
      SavedEntryFound(b.initialBalance, current, entries, x);
      Store(b, current + [x], now, Some(x.id));
      var found := Find(entries, x.id);
      e := found.value;
    }

    /**
     * saveIncomeEntry: validates the draft, requires a balance, appends the new
     * entry to the newest-first list and recomputes the running balances; the
     * balance records the new entry's id. Returns the stored entry with the id.
     */
    method SaveIncomeEntry(draft: EntryDraft, id: string, timestamp: int, now: int) returns (r: Result<Entry>)
      modifies this
      ensures NewEntry(draft, id, timestamp).Failure? ==>
                r == Failure(NewEntry(draft, id, timestamp).error) && unchanged(this)
      ensures NewEntry(draft, id, timestamp).Success? && old(balance).None? ==>
                r == Failure(BalanceNotInitializedError) && unchanged(this)
      ensures NewEntry(draft, id, timestamp).Success? && old(balance).Some? ==>
                r.Success? && Saved(old(entries), old(balance).value, NewEntry(draft, id, timestamp).value,
                                    now, entries, balance, r.value)
      ensures r.Success? ==> Consistent()
      ensures old(WellFormed()) ==> WellFormed()
    {
      var made := NewEntry(draft, id, timestamp);
      if made.Failure? {
        return Failure(made.error);
      }
      var b := GetBalance();
      if b.Failure? {
        return Failure(b.error);
      }
      var e := Append(b.value, made.value, now);
      return Success(e);
    }

    /**
     * Patches the entry with the id that comes first newest first and
     * recomputes; the balance keeps its last entry id. Returns the stored entry
     * with the id.
     */
    method Replace(b: Balance, id: string, u: EntryUpdate, date: Option<Date>, category: Option<Category>, now: int)
      returns (e: Entry)
      requires balance == Some(b) && FindIndex(SortBy(NewestFirst, entries), id) >= 0
      requires ValidateUpdate(u) == Success((date, category))
      modifies this
      ensures FindIndex(SortBy(NewestFirst, old(entries)), id) >= 0
      ensures Updated(old(entries), b, id, u, date, category, now, entries, balance, e)
      ensures Consistent()
      ensures old(WellFormed()) ==> WellFormed()
    {
      var current := AllEntries();
      var index := FindIndex(current, id);
      var patched := Patch(current[index], u, date, category);
      assert current[index] in multiset(entries);
      if WellFormed() {
        PatchValid(current[index], u);
      }
      UpdatedEntries(b.initialBalance, current, entries, index, patched,
                     RunningBalanceOf(b.initialBalance, current[index := patched]));
      if UniqueId(entries, id) {
        UpdatedEntryFound(b.initialBalance, current, entries, index, patched);
      }
      current := current[index := patched];
      Store(b, current, now, b.lastEntryId);
      var found := Find(entries, id);
      e := found.value;
    }

    /**
     * updateIncomeEntry: validates the supplied fields, finds the entry with
     * the id newest first (NotFoundError if none), patches it in place in the
     * newest-first list, requires a balance and recomputes; the balance keeps
     * its last entry id. Returns the stored entry with the id.
     */
    method UpdateIncomeEntry(id: string, u: EntryUpdate, now: int) returns (r: Result<Entry>)
      modifies this
      ensures ValidateUpdate(u).Failure? ==> r == Failure(ValidateUpdate(u).error) && unchanged(this)
      ensures ValidateUpdate(u).Success? && (forall e :: e in old(entries) ==> e.id != id) ==>
                r == Failure(NotFoundError(id)) && unchanged(this)
      ensures ValidateUpdate(u).Success? && (exists e :: e in old(entries) && e.id == id) && old(balance).None? ==>
                r == Failure(BalanceNotInitializedError) && unchanged(this)
      ensures ValidateUpdate(u).Success? && (exists e :: e in old(entries) && e.id == id) && old(balance).Some? ==>
                && FindIndex(SortBy(NewestFirst, old(entries)), id) >= 0
                && r.Success?
                && Updated(old(entries), old(balance).value, id, u, ValidateUpdate(u).value.0,
                           ValidateUpdate(u).value.1, now, entries, balance, r.value)
      ensures r.Success? ==> Consistent()
      ensures old(WellFormed()) ==> WellFormed()
    {
      var check := ValidateUpdate(u);
      if check.Failure? {
        return Failure(check.error);
      }
      var current := AllEntries();
      FoundNewestFirst(entries, id);
      var index := FindIndex(current, id);
      if index == -1 {
        return Failure(NotFoundError(id));
      }
      var b := GetBalance();
      if b.Failure? {
        return Failure(b.error);
      }
      var e := Replace(b.value, id, u, check.value.0, check.value.1, now);
      return Success(e);
    }

    /**
     * Drops every entry with the id from the newest-first entries and
     * recomputes; the balance keeps its last entry id.
     */
    method Remove(b: Balance, id: string, now: int)
      requires balance == Some(b) && FindIndex(SortBy(NewestFirst, entries), id) >= 0
      modifies this
      ensures Deleted(old(entries), b, id, now, entries, balance)
      ensures Consistent()
      ensures old(WellFormed()) ==> WellFormed()
    {
      var current := AllEntries();
      DeletedEntries(b.initialBalance, current, entries, id, FindIndex(current, id),
                     RunningBalanceOf(b.initialBalance, WithoutId(current, id)));
      Store(b, WithoutId(current, id), now, b.lastEntryId);
    }

    /**
     * deleteIncomeEntry: NotFoundError when no entry has the id; otherwise
     * requires a balance, drops every entry with the id and recomputes.
     */
    method DeleteIncomeEntry(id: string, now: int) returns (r: Outcome)
      modifies this
      ensures (forall e :: e in old(entries) ==> e.id != id) ==> r == Fail(NotFoundError(id)) && unchanged(this)
      ensures (exists e :: e in old(entries) && e.id == id) && old(balance).None? ==>
                r == Fail(BalanceNotInitializedError) && unchanged(this)
      ensures (exists e :: e in old(entries) && e.id == id) && old(balance).Some? ==>
                r == Pass && Deleted(old(entries), old(balance).value, id, now, entries, balance)
      ensures r == Pass ==> Consistent()
      ensures old(WellFormed()) ==> WellFormed()
    {
      var current := AllEntries();
      FoundNewestFirst(entries, id);
      var index := FindIndex(current, id);
      if index == -1 {
        return Fail(NotFoundError(id));
      }
      var b := GetBalance();
      if b.Failure? {
        return Fail(b.error);
      }
      Remove(b.value, id, now);
      return Pass;
    }

    /**
     * updateBalance: adds `amount` to the current balance and nothing else but
     * the update time; the entries and totals are not touched, so the ledger
     * invariant survives exactly when the amount is 0.
     */
    method UpdateBalance(amount: real, now: int) returns (r: Result<Balance>)
      modifies this
      ensures old(balance).None? ==> r == Failure(BalanceNotInitializedError) && unchanged(this)
      ensures old(balance).Some? ==>
                && r == Success(old(balance).value.(currentBalance := old(balance).value.currentBalance + amount,
                                                    lastUpdated := now))
                && balance == Some(r.value) && entries == old(entries)
      ensures old(Consistent()) && old(balance).Some? ==> (Consistent() <==> amount == 0.0)
      ensures old(WellFormed()) ==> WellFormed()
    {
      var b := GetBalance();
      if b.Failure? {
        return Failure(b.error);
      }
      var updated := b.value.(currentBalance := b.value.currentBalance + amount, lastUpdated := now);
      balance := Some(updated);
      return Success(updated);
    }

    /**
     * recalculateBalance: recomputes the running balances and totals from the
     * initial balance over the stored entries (newest first); afterwards the
     * ledger invariant holds. RecalculateKeepsEntries and RecalculateKeepsTotals state that on a store
     * where it already held, with distinct creation times, only the update
     * time changes.
     */
    method RecalculateBalance(now: int) returns (r: Result<Balance>)
      modifies this
      ensures old(balance).None? ==> r == Failure(BalanceNotInitializedError) && unchanged(this)
      ensures old(balance).Some? ==>
                && Recalculated(old(entries), old(balance).value, now, entries, balance)
                && r == Success(balance.value)
      ensures r.Success? ==> Consistent()
      ensures old(WellFormed()) ==> WellFormed()
    {
      var b := GetBalance();
      if b.Failure? {
        return Failure(b.error);
      }
      Recompute(b.value, now);
      return Success(balance.value);
    }

    /** Recomputes the stored entries, newest first, from the initial balance of `b`. */
    method Recompute(b: Balance, now: int)
      requires balance == Some(b)
      modifies this
      ensures Recalculated(old(entries), b, now, entries, balance)
      ensures Consistent()
      ensures old(WellFormed()) ==> WellFormed()
    {
      var current := AllEntries();
      Recomputed(b.initialBalance, current, entries);
      if WellFormed() {
        AllValidTransfer(RunningBalanceOf(b.initialBalance, current), entries);
      }
      Store(b, current, now, b.lastEntryId);
    }

    /**
     * getMonthlySummary: the month's entries and the previous month's, queried
     * by date range, summarised as MonthlySummaryOf describes.
     */
    method GetMonthlySummary(year: int, month: int) returns (r: Result<MonthlySummary>)
      ensures r == MonthlySummaryOf(balance, entries, year, month)
    {
      var monthEntries := GetIncomeEntries(Some(RangeFilter(MonthRange(year, month))));
      var b := GetBalance();
      if b.Failure? {
        return Failure(b.error);
      }
      var previous := PreviousMonth(year, month);
      var previousEntries := GetIncomeEntries(Some(RangeFilter(MonthRange(previous.0, previous.1))));
      var summary := SummarizeMonth(year, month, monthEntries, Sum(previousEntries), b.value.currentBalance);
      return Success(summary);
    }
  }
}
