/** The stable sort behind every ranked list, for comparators that compare three integers lexicographically. */
module StableSort {
  datatype SortKey = SortKey(first: int, second: int, third: int)

  // The comparator is negative: an item with key a sorts strictly before one with key b.
  predicate Before(a: SortKey, b: SortKey) {
    || a.first < b.first
    || (a.first == b.first && a.second < b.second)
    || (a.first == b.first && a.second == b.second && a.third < b.third)
  }

  ghost predicate Sorted<T>(s: seq<T>, key: T -> SortKey) {
    forall i, j :: 0 <= i < j < |s| ==> !Before(key(s[j]), key(s[i]))
  }

  // Insert x, which preceded all of s in the unsorted list, so that it still precedes its equals.
  function Insert<T>(x: T, s: seq<T>, key: T -> SortKey): seq<T> {
    if s != [] && Before(key(s[0]), key(x)) then [s[0]] + Insert(x, s[1..], key) else [x] + s
  }

  function Sort<T>(s: seq<T>, key: T -> SortKey): seq<T> {
    if s == [] then [] else Insert(s[0], Sort(s[1..], key), key)
  }

  function Filter<T>(s: seq<T>, keep: T -> bool): seq<T> {
    if s == [] then [] else if keep(s[0]) then [s[0]] + Filter(s[1..], keep) else Filter(s[1..], keep)
  }

  lemma {:induction false} InsertPermutes<T>(x: T, s: seq<T>, key: T -> SortKey)
    ensures multiset(Insert(x, s, key)) == multiset(s) + multiset{x}
  {
    if s != [] && Before(key(s[0]), key(x)) {
      InsertPermutes(x, s[1..], key);
      assert s == [s[0]] + s[1..];
    }
  }

  lemma {:induction false} SortPermutes<T>(s: seq<T>, key: T -> SortKey)
    ensures multiset(Sort(s, key)) == multiset(s)
  {
    if s != [] {
      SortPermutes(s[1..], key);
      InsertPermutes(s[0], Sort(s[1..], key), key);
      assert s == [s[0]] + s[1..];
    }
  }

  lemma {:induction false} FilterMembers<T>(s: seq<T>, keep: T -> bool)
    ensures forall i :: 0 <= i < |Filter(s, keep)| ==> Filter(s, keep)[i] in s && keep(Filter(s, keep)[i])
    ensures forall i :: 0 <= i < |s| && keep(s[i]) ==> s[i] in Filter(s, keep)
  {
    if s != [] {
      FilterMembers(s[1..], keep);
    }
  }

  lemma {:induction false} InsertKeepsSorted<T>(x: T, s: seq<T>, key: T -> SortKey)
    requires Sorted(s, key)
    ensures Sorted(Insert(x, s, key), key)
  {
    if s != [] && Before(key(s[0]), key(x)) {
      var rest := Insert(x, s[1..], key);
      InsertKeepsSorted(x, s[1..], key);
      InsertPermutes(x, s[1..], key);
      forall y | y in rest
        ensures !Before(key(y), key(s[0]))
      {
        assert y in multiset(rest);
      }
    }
  }

  lemma {:induction false} SortSorts<T>(s: seq<T>, key: T -> SortKey)
    ensures Sorted(Sort(s, key), key)
  {
    if s != [] {
      SortSorts(s[1..], key);
      InsertKeepsSorted(s[0], Sort(s[1..], key), key);
    }
  }

  lemma {:induction false} FilterInsert<T>(x: T, s: seq<T>, key: T -> SortKey, keep: T -> bool)
    requires Sorted(s, key)
    ensures Filter(Insert(x, s, key), keep)
         == if keep(x) then Insert(x, Filter(s, keep), key) else Filter(s, keep)
  {
    if s != [] && Before(key(s[0]), key(x)) {
      FilterInsert(x, s[1..], key, keep);
      assert Insert(x, s, key)[1..] == Insert(x, s[1..], key);
    } else {
      assert ([x] + s)[1..] == s;
      FilterMembers(s, keep);
      assert Filter(s, keep) != [] ==> !Before(key(Filter(s, keep)[0]), key(x));
    }
  }

  // Filtering a sorted list is sorting the filtered list; in particular the sort is stable.
  lemma {:induction false} FilterSort<T>(s: seq<T>, key: T -> SortKey, keep: T -> bool)
    ensures Filter(Sort(s, key), keep) == Sort(Filter(s, keep), key)
  {
    if s != [] {
      FilterSort(s[1..], key, keep);
      SortSorts(s[1..], key);
      FilterInsert(s[0], Sort(s[1..], key), key, keep);
      if keep(s[0]) {
        assert Filter(s, keep)[1..] == Filter(s[1..], keep);
      }
    }
  }

  // Equal keys keep their original order: among the items of one key the sort changes nothing.
  lemma {:induction false} SortOfEqualKeys<T>(s: seq<T>, key: T -> SortKey)
    requires forall i, j :: 0 <= i < j < |s| ==> key(s[i]) == key(s[j])
    ensures Sort(s, key) == s
  {
    if s != [] {
      SortOfEqualKeys(s[1..], key);
    }
  }

  lemma {:induction false} Stability<T>(s: seq<T>, key: T -> SortKey, k: SortKey, tied: T -> bool)
    requires forall x :: x in s ==> (tied(x) <==> key(x) == k)
    ensures Filter(Sort(s, key), tied) == Filter(s, tied)
  {
    FilterSort(s, key, tied);
    FilterMembers(s, tied);
    SortOfEqualKeys(Filter(s, tied), key);
  }

  // A sorted list is left as it is, so sorting twice is sorting once.
  lemma {:induction false} SortOfSorted<T>(s: seq<T>, key: T -> SortKey)
    requires Sorted(s, key)
    ensures Sort(s, key) == s
  {
    if s != [] {
      SortOfSorted(s[1..], key);
    }
  }

  // ----- Lists without repetition ---------------------------------------------------------

  ghost predicate DistinctBy<T>(s: seq<T>, id: T -> nat) {
    forall i, j :: 0 <= i < j < |s| ==> id(s[i]) != id(s[j])
  }

  lemma {:induction false} InsertKeepsDistinct<T>(x: T, s: seq<T>, key: T -> SortKey, id: T -> nat)
    requires DistinctBy(s, id) && forall y :: y in s ==> id(y) != id(x)
    ensures DistinctBy(Insert(x, s, key), id)
  {
    if s != [] && Before(key(s[0]), key(x)) {
      var rest := Insert(x, s[1..], key);
      InsertKeepsDistinct(x, s[1..], key, id);
      InsertPermutes(x, s[1..], key);
      forall y | y in rest
        ensures id(y) != id(s[0])
      {
        assert y in multiset(rest);
        assert y == x || y in s[1..];
      }
    }
  }

  lemma {:induction false} SortKeepsDistinct<T>(s: seq<T>, key: T -> SortKey, id: T -> nat)
    requires DistinctBy(s, id)
    ensures DistinctBy(Sort(s, key), id)
  {
    if s != [] {
      var rest := Sort(s[1..], key);
      SortKeepsDistinct(s[1..], key, id);
      SortPermutes(s[1..], key);
      forall y | y in rest
        ensures id(s[0]) != id(y)
      {
        assert y in multiset(rest);
        assert y in s[1..];
      }
      assert forall y :: y in rest ==> id(s[0]) != id(y);
      InsertKeepsDistinct(s[0], rest, key, id);
    }
  }

  lemma {:induction false} FilterKeepsDistinct<T>(s: seq<T>, keep: T -> bool, id: T -> nat)
    requires DistinctBy(s, id)
    ensures DistinctBy(Filter(s, keep), id)
  {
    if s != [] {
      FilterKeepsDistinct(s[1..], keep, id);
      FilterMembers(s[1..], keep);
    }
  }

  // Where a kept item ends up: after the kept items that preceded it.
  lemma {:induction false} FilterPosition<T>(s: seq<T>, keep: T -> bool, p: nat)
    requires p < |s| && keep(s[p])
    ensures |Filter(s[..p], keep)| < |Filter(s, keep)|
    ensures Filter(s, keep)[|Filter(s[..p], keep)|] == s[p]
  {
    if p > 0 {
      FilterPosition(s[1..], keep, p - 1);
      assert s[..p][1..] == s[1..][..p - 1];
    }
  }
}
