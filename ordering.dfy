/**
 * The sort and the date filter that both importers apply to the raw
 * transactions before anything else.
 */
module Ordering {
  import opened Wrappers
  import opened Domain

  predicate SortedByDate(s: seq<RawTransaction>) {
    forall i, j :: 0 <= i < j < |s| ==> s[i].date <= s[j].date
  }

  /** Places `t` before the first element of `s` whose date is not earlier than its own. */
  function Insert(t: RawTransaction, s: seq<RawTransaction>): (r: seq<RawTransaction>)
    ensures multiset(r) == multiset(s) + multiset{t}
  {
    if s == [] || t.date <= s[0].date then [t] + s
    else
      assert s == [s[0]] + s[1..];
      [s[0]] + Insert(t, s[1..])
  }

  /** Inserting into a date-ordered list keeps it date-ordered. */
  lemma {:induction false} InsertSorted(t: RawTransaction, s: seq<RawTransaction>)
    requires SortedByDate(s)
    ensures SortedByDate(Insert(t, s))
    decreases |s|
  {
    if s != [] && t.date > s[0].date {
      var rest := Insert(t, s[1..]);
      InsertSorted(t, s[1..]);
      assert s == [s[0]] + s[1..];
      // the head of `rest` is `t` or `s[1]`, both no earlier than `s[0]`
      assert s[0].date <= rest[0].date by {
        if s[1..] != [] && t.date > s[1..][0].date {
          assert rest[0] == s[1];
        }
      }
      var r := [s[0]] + rest;
      forall i, j | 0 <= i < j < |r| ensures r[i].date <= r[j].date {
        assert r[j] == rest[j - 1];
        if i > 0 { assert r[i] == rest[i - 1]; } else { assert rest[0].date <= rest[j - 1].date; }
      }
    }
  }

  /**
   * `transactions.sort((t1, t2) => t1.date.diff(t2.date))`: ascending by date,
   * a permutation of the input.
   */
  function SortByDate(s: seq<RawTransaction>): (r: seq<RawTransaction>)
    ensures SortedByDate(r)
    ensures multiset(r) == multiset(s)
    ensures |r| == |s|
  {
    if s == [] then []
    else
      assert s == [s[0]] + s[1..];
      var rest := SortByDate(s[1..]);
      InsertSorted(s[0], rest);
      Insert(s[0], rest)
  }

  /** The transactions dated exactly `d`. */
  function AtDate(d: int): RawTransaction -> bool {
    (u: RawTransaction) => u.date == d
  }

  /**
   * Inserting `t` places it before every element of its own date: among the
   * elements dated `d`, `t` comes first when it is dated `d`, and the others
   * keep their order.
   */
  lemma {:induction false} InsertFirstOfDate(t: RawTransaction, s: seq<RawTransaction>, d: int)
    ensures Filter(Insert(t, s), AtDate(d)) ==
      if t.date == d then [t] + Filter(s, AtDate(d)) else Filter(s, AtDate(d))
    decreases |s|
  {
    if s == [] || t.date <= s[0].date {
      assert ([t] + s)[1..] == s;
    } else {
      var r := [s[0]] + Insert(t, s[1..]);
      assert r[1..] == Insert(t, s[1..]);
      InsertFirstOfDate(t, s[1..], d);
      assert s == [s[0]] + s[1..];
    }
  }

  /**
   * The sort is stable: transactions of the same date come out in the order
   * they went in, as with the stable `Array.prototype.sort`.
   */
  lemma {:induction false} SortByDateStable(s: seq<RawTransaction>, d: int)
    ensures Filter(SortByDate(s), AtDate(d)) == Filter(s, AtDate(d))
    decreases |s|
  {
    if s != [] {
      assert s == [s[0]] + s[1..];
      SortByDateStable(s[1..], d);
      InsertFirstOfDate(s[0], SortByDate(s[1..]), d);
    }
  }

  /** `filter(keep)`: the elements satisfying `keep`, in their original order. */
  function Filter(s: seq<RawTransaction>, keep: RawTransaction -> bool): (r: seq<RawTransaction>)
    ensures forall t :: t in r <==> t in s && keep(t)
    ensures |r| <= |s|
  {
    if s == [] then []
    else
      assert s == [s[0]] + s[1..];
      if keep(s[0]) then [s[0]] + Filter(s[1..], keep) else Filter(s[1..], keep)
  }

  /** Filtering keeps every copy of a kept element and no copy of a dropped one. */
  lemma {:induction false} FilterCounts(s: seq<RawTransaction>, keep: RawTransaction -> bool)
    ensures forall t :: multiset(Filter(s, keep))[t] == if keep(t) then multiset(s)[t] else 0
    decreases |s|
  {
    if s != [] {
      assert s == [s[0]] + s[1..];
      FilterCounts(s[1..], keep);
    }
  }

  /** Filtering distributes over concatenation: the kept elements stay in their order. */
  lemma {:induction false} FilterConcat(a: seq<RawTransaction>, b: seq<RawTransaction>, keep: RawTransaction -> bool)
    ensures Filter(a + b, keep) == Filter(a, keep) + Filter(b, keep)
    decreases |a|
  {
    if a == [] {
      assert a + b == b;
    } else {
      assert (a + b)[0] == a[0] && (a + b)[1..] == a[1..] + b;
      FilterConcat(a[1..], b, keep);
    }
  }

  /** Filtering a date-ordered list keeps it date-ordered. */
  lemma {:induction false} FilterSorted(s: seq<RawTransaction>, keep: RawTransaction -> bool)
    requires SortedByDate(s)
    ensures SortedByDate(Filter(s, keep))
    decreases |s|
  {
    if s != [] {
      var rest := Filter(s[1..], keep);
      FilterSorted(s[1..], keep);
      if keep(s[0]) {
        var r := [s[0]] + rest;
        forall i, j | 0 <= i < j < |r| ensures r[i].date <= r[j].date {
          assert r[j] == rest[j - 1] && rest[j - 1] in s[1..];
          if i > 0 { assert r[i] == rest[i - 1]; }
        }
      }
    }
  }

  /**
   * The filter of the current importer: on or before the end of `maxDate`'s
   * day, or on a credit-card account whatever its date.
   */
  predicate KeptForImport(t: RawTransaction, maxDate: int) {
    t.date <= EndOfDay(maxDate) || t.account.accType == Some("credit_card")
  }

  /** Sorting then filtering, the preprocessing of the current importer. */
  function SortAndFilter(s: seq<RawTransaction>, maxDate: int): (r: seq<RawTransaction>)
    ensures SortedByDate(r)
    ensures forall t :: t in r <==> t in s && KeptForImport(t, maxDate)
  {
    var sorted := SortByDate(s);
    assert forall t :: t in sorted <==> t in multiset(sorted);
    FilterSorted(sorted, (t: RawTransaction) => KeptForImport(t, maxDate));
    Filter(sorted, (t: RawTransaction) => KeptForImport(t, maxDate))
  }

  /** The filter of the legacy importer: no exemption for credit-card accounts. */
  function LegacySortAndFilter(s: seq<RawTransaction>, maxDate: int): (r: seq<RawTransaction>)
    ensures SortedByDate(r)
    ensures forall t :: t in r <==> t in s && t.date <= EndOfDay(maxDate)
  {
    var sorted := SortByDate(s);
    assert forall t :: t in sorted <==> t in multiset(sorted);
    FilterSorted(sorted, (t: RawTransaction) => t.date <= EndOfDay(maxDate));
    Filter(sorted, (t: RawTransaction) => t.date <= EndOfDay(maxDate))
  }

  /** The current importer keeps every copy of a kept transaction and none of a dropped one. */
  lemma SortAndFilterCounts(s: seq<RawTransaction>, maxDate: int)
    ensures forall t :: multiset(SortAndFilter(s, maxDate))[t] == if KeptForImport(t, maxDate) then multiset(s)[t] else 0
  {
    FilterCounts(SortByDate(s), (t: RawTransaction) => KeptForImport(t, maxDate));
  }

  /** The legacy importer keeps every copy of a transaction dated no later than the end of the day, and no other. */
  lemma LegacySortAndFilterCounts(s: seq<RawTransaction>, maxDate: int)
    ensures forall t :: multiset(LegacySortAndFilter(s, maxDate))[t] == if t.date <= EndOfDay(maxDate) then multiset(s)[t] else 0
  {
    FilterCounts(SortByDate(s), (t: RawTransaction) => t.date <= EndOfDay(maxDate));
  }
}
