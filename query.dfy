/**
 * Querying the stored entries: the inclusive date-range filter, the optional
 * criteria of an income filter applied one after the other, and the final
 * newest-first ordering.
 */
module Query {
  import opened CashFlowTypes
  import opened RunningBalance

  /** An inclusive range of calendar days. */
  datatype DateRange = DateRange(startDate: Date, endDate: Date)

  /** The optional criteria of a query; an empty category list imposes no restriction. */
  datatype IncomeFilter = IncomeFilter(
    dateRange: Option<DateRange>,
    categories: seq<Category>,
    minAmount: Option<real>,
    maxAmount: Option<real>,
    searchText: Option<string>)

  predicate InDateRange(d: Date, range: DateRange) {
    !DateBefore(d, range.startDate) && !DateBefore(range.endDate, d)
  }

  // ------------------------------------------------------------ text search

  /** String.prototype.toLowerCase on the ASCII letters. */
  function LowerChar(c: char): char {
    if 'A' <= c <= 'Z' then (c as int + 32) as char else c
  }

  function Lower(s: string): (r: string)
    ensures |r| == |s|
  {
    seq(|s|, i requires 0 <= i < |s| => LowerChar(s[i]))
  }

  /** `needle` occurs in `hay` starting at position `i`. */
  predicate OccursAt(hay: string, needle: string, i: int) {
    0 <= i && i + |needle| <= |hay| && hay[i..i + |needle|] == needle
  }

  /** `needle` is a substring of `hay`. */
  ghost predicate IsSubstring(needle: string, hay: string) {
    exists i :: OccursAt(hay, needle, i)
  }

  /** String.prototype.includes: try every start position from the left. */
  function Contains(hay: string, needle: string): bool
    decreases |hay|
  {
    if |needle| <= |hay| && hay[..|needle|] == needle then true
    else if hay == [] then false
    else Contains(hay[1..], needle)
  }

  /** The search finds the needle exactly when it occurs somewhere in the text. */
  lemma {:induction false} ContainsMeaning(hay: string, needle: string)
    ensures Contains(hay, needle) <==> IsSubstring(needle, hay)
    decreases |hay|
  {
    if |needle| <= |hay| && hay[..|needle|] == needle {
      assert OccursAt(hay, needle, 0);
    } else if hay == [] {
    } else {
      ContainsMeaning(hay[1..], needle);
      if exists i :: OccursAt(hay[1..], needle, i) {
        var i :| OccursAt(hay[1..], needle, i);
        assert hay[1..][i..i + |needle|] == hay[i + 1..i + 1 + |needle|];
        assert OccursAt(hay, needle, i + 1);
      }
      if exists i :: OccursAt(hay, needle, i) {
        var i :| OccursAt(hay, needle, i);
        assert i != 0;
        assert hay[1..][i - 1..i - 1 + |needle|] == hay[i..i + |needle|];
        assert OccursAt(hay[1..], needle, i - 1);
      }
    }
  }

  // --------------------------------------------------------------- criteria

  /** One of the filters getIncomeEntries applies. */
  datatype Criterion =
    | WithinRange(range: DateRange)
    | InCategories(categories: seq<Category>)
    | AtLeast(minAmount: real)
    | AtMost(maxAmount: real)
    | DescriptionContains(searchText: string)

  predicate Satisfies(c: Criterion, e: Entry) {
    match c
    case WithinRange(range) => InDateRange(e.date, range)
    case InCategories(categories) => e.category in categories
    case AtLeast(minAmount) => e.amount >= minAmount
    case AtMost(maxAmount) => e.amount <= maxAmount
    case DescriptionContains(searchText) => Contains(Lower(e.description), Lower(searchText))
  }

  /** Array.prototype.filter: the entries satisfying `c`, each as often as in `s`, in their order. */
  function Keep(c: Criterion, s: seq<Entry>): (r: seq<Entry>)
    ensures forall e :: multiset(r)[e] == if Satisfies(c, e) then multiset(s)[e] else 0
    ensures forall i :: 0 <= i < |r| ==> Satisfies(c, r[i])
  {
    if s == [] then []
    else
      assert s == [s[0]] + s[1..];
      if Satisfies(c, s[0]) then [s[0]] + Keep(c, s[1..]) else Keep(c, s[1..])
  }

  /** A filter every entry passes keeps them all. */
  lemma {:induction false} KeepAllSatisfying(c: Criterion, s: seq<Entry>)
    requires forall i :: 0 <= i < |s| ==> Satisfies(c, s[i])
    ensures Keep(c, s) == s
  {
    if s != [] {
      KeepAllSatisfying(c, s[1..]);
    }
  }

  /** filterEntriesByDateRange: the entries dated within the range, both ends included. */
  function FilterEntriesByDateRange(entries: seq<Entry>, range: DateRange): (r: seq<Entry>)
    ensures forall e :: multiset(r)[e] == if InDateRange(e.date, range) then multiset(entries)[e] else 0
  {
    Keep(WithinRange(range), entries)
  }

  /** An entry passes every criterion the filter supplies. */
  ghost predicate Matches(f: IncomeFilter, e: Entry) {
    && (f.dateRange.Some? ==> InDateRange(e.date, f.dateRange.value))
    && (|f.categories| > 0 ==> e.category in f.categories)
    && (f.minAmount.Some? ==> e.amount >= f.minAmount.value)
    && (f.maxAmount.Some? ==> e.amount <= f.maxAmount.value)
    && (f.searchText.Some? && f.searchText.value != [] ==>
          IsSubstring(Lower(f.searchText.value), Lower(e.description)))
  }

  /** The criteria a filter supplies, in the order getIncomeEntries applies them. */
  function Criteria(f: IncomeFilter): seq<Criterion> {
    (if f.dateRange.Some? then [WithinRange(f.dateRange.value)] else [])
    + (if |f.categories| > 0 then [InCategories(f.categories)] else [])
    + (if f.minAmount.Some? then [AtLeast(f.minAmount.value)] else [])
    + (if f.maxAmount.Some? then [AtMost(f.maxAmount.value)] else [])
    + (if f.searchText.Some? && f.searchText.value != [] then [DescriptionContains(f.searchText.value)] else [])
  }

  predicate SatisfiesAll(cs: seq<Criterion>, e: Entry) {
    forall i :: 0 <= i < |cs| ==> Satisfies(cs[i], e)
  }

  /** One filtering pass per criterion, each applied to the result of the previous one. */
  function KeepAll(cs: seq<Criterion>, s: seq<Entry>): (r: seq<Entry>)
    ensures forall e :: multiset(r)[e] == if SatisfiesAll(cs, e) then multiset(s)[e] else 0
  {
    if cs == [] then s
    else
      var r := KeepAll(cs[1..], Keep(cs[0], s));
      assert forall e :: SatisfiesAll(cs, e) <==> Satisfies(cs[0], e) && SatisfiesAll(cs[1..], e) by {
        forall e
          ensures SatisfiesAll(cs, e) <==> Satisfies(cs[0], e) && SatisfiesAll(cs[1..], e)
        {
          if Satisfies(cs[0], e) && SatisfiesAll(cs[1..], e) {
            forall i | 0 <= i < |cs|
              ensures Satisfies(cs[i], e)
            {
              if i > 0 {
                assert cs[i] == cs[1..][i - 1];
              }
            }
          }
        }
      }
      r
  }

  /** One more filter after the others narrows their result. */
  lemma {:induction false} KeepAllSnoc(cs: seq<Criterion>, c: Criterion, s: seq<Entry>)
    ensures KeepAll(cs + [c], s) == Keep(c, KeepAll(cs, s))
    decreases |cs|
  {
    if cs == [] {
      assert cs + [c] == [c];
      assert [c][1..] == [];
    } else {
      assert (cs + [c])[0] == cs[0];
      assert (cs + [c])[1..] == cs[1..] + [c];
      KeepAllSnoc(cs[1..], c, Keep(cs[0], s));
    }
  }

  /** A criterion applied only when `supplied`: the filter narrows the result or leaves it as it is. */
  lemma KeepAllSnocIf(cs: seq<Criterion>, supplied: bool, c: Criterion, s: seq<Entry>)
    ensures KeepAll(cs + (if supplied then [c] else []), s)
         == if supplied then Keep(c, KeepAll(cs, s)) else KeepAll(cs, s)
  {
    if supplied {
      KeepAllSnoc(cs, c, s);
    } else {
      assert cs + [] == cs;
    }
  }

  /** getIncomeEntries: the stored entries, filtered when a filter is given, newest first. */
  function QueryEntries(s: seq<Entry>, filter: Option<IncomeFilter>): seq<Entry> {
    SortBy(NewestFirst, if filter.None? then s else KeepAll(Criteria(filter.value), s))
  }

  /** Passing every criterion the filter supplies is passing every criterion of its list. */
  lemma CriteriaMeaning(f: IncomeFilter, e: Entry)
    ensures SatisfiesAll(Criteria(f), e) <==> Matches(f, e)
  {
    var text := if f.searchText.Some? then f.searchText.value else [];
    assert Contains(Lower(e.description), Lower(text)) <==> IsSubstring(Lower(text), Lower(e.description)) by {
      ContainsMeaning(Lower(e.description), Lower(text));
    }
    if Matches(f, e) {
      MatchingSatisfiesAll(f, e);
    } else {
      FailingCriterion(f, e);
    }
  }

  lemma MatchingSatisfiesAll(f: IncomeFilter, e: Entry)
    requires Matches(f, e)
    requires f.searchText.Some? && f.searchText.value != [] ==>
               Contains(Lower(e.description), Lower(f.searchText.value))
    ensures SatisfiesAll(Criteria(f), e)
  {
    var cs := Criteria(f);
    forall i | 0 <= i < |cs|
      ensures Satisfies(cs[i], e)
    {
      assert cs[i] in cs;
    }
  }

  lemma FailingCriterion(f: IncomeFilter, e: Entry)
    requires !Matches(f, e)
    requires f.searchText.Some? && f.searchText.value != [] ==>
               (Contains(Lower(e.description), Lower(f.searchText.value)) ==>
                IsSubstring(Lower(f.searchText.value), Lower(e.description)))
    ensures !SatisfiesAll(Criteria(f), e)
  {
    var cs := Criteria(f);
    if f.dateRange.Some? && !InDateRange(e.date, f.dateRange.value) {
      assert cs[0] == WithinRange(f.dateRange.value);
    } else if |f.categories| > 0 && e.category !in f.categories {
      assert InCategories(f.categories) in cs;
    } else if f.minAmount.Some? && e.amount < f.minAmount.value {
      assert AtLeast(f.minAmount.value) in cs;
    } else if f.maxAmount.Some? && e.amount > f.maxAmount.value {
      assert AtMost(f.maxAmount.value) in cs;
    } else {
      assert DescriptionContains(f.searchText.value) in cs;
    }
  }

  /**
   * getIncomeEntries returns each stored entry that passes every supplied
   * criterion, as often as it is stored, and nothing else, newest first;
   * without a filter it returns all entries.
   */
  lemma QueryMeaning(s: seq<Entry>, filter: Option<IncomeFilter>)
    ensures forall e :: multiset(QueryEntries(s, filter))[e] ==
                        if filter.None? || Matches(filter.value, e) then multiset(s)[e] else 0
    ensures SortedBy(NewestFirst, QueryEntries(s, filter))
    ensures filter.None? ==> multiset(QueryEntries(s, filter)) == multiset(s)
  {
    SortBySorted(NewestFirst, if filter.None? then s else KeepAll(Criteria(filter.value), s));
    if filter.Some? {
      forall e
        ensures multiset(QueryEntries(s, filter))[e] == if Matches(filter.value, e) then multiset(s)[e] else 0
      {
        CriteriaMeaning(filter.value, e);
      }
    }
  }

  // ----------------------------------------------------------------- lookup

  /** Array.prototype.findIndex on the id: the first position holding `id`, or -1. */
  function FindIndex(s: seq<Entry>, id: string): (r: int)
    ensures -1 <= r < |s|
    ensures r >= 0 ==> s[r].id == id && forall k :: 0 <= k < r ==> s[k].id != id
    ensures r == -1 <==> forall k :: 0 <= k < |s| ==> s[k].id != id
  {
    if s == [] then -1
    else if s[0].id == id then 0
    else
      var i := FindIndex(s[1..], id);
      if i == -1 then -1 else i + 1
  }

  /** Array.prototype.find on the id. */
  function Find(s: seq<Entry>, id: string): (r: Option<Entry>)
    ensures r.Some? ==> r.value in s && r.value.id == id
    ensures r.None? <==> forall e :: e in s ==> e.id != id
    ensures r.Some? ==> r.value == s[FindIndex(s, id)]
  {
    var i := FindIndex(s, id);
    if i == -1 then None else Some(s[i])
  }

  /** In a newest-first list, the first entry with the id is the most recently created one with it. */
  lemma FindNewest(s: seq<Entry>, id: string)
    requires SortedBy(NewestFirst, s)
    ensures Find(s, id).Some? ==>
      forall e :: e in s && e.id == id ==> e.timestamp <= Find(s, id).value.timestamp
  {
    var i := FindIndex(s, id);
    if i >= 0 {
      forall e | e in s && e.id == id
        ensures e.timestamp <= s[i].timestamp
      {
        var k :| 0 <= k < |s| && s[k] == e;
        assert i <= k;
        if i < k {
          assert Precedes(NewestFirst, s[i], s[k]);
        }
      }
    }
  }
}
