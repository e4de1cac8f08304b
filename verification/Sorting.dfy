/** Stable insertion sort, for the places where the harnesses call `sort_by`. */
module Sorting {
  /** Insertion after entries that are not greater. */
  function Insert<T>(list: seq<T>, x: T, before: (T, T) -> bool): seq<T> {
    if list == [] then [x]
    else if before(x, list[|list| - 1]) then Insert(list[..|list| - 1], x, before) + [list[|list| - 1]]
    else list + [x]
  }

  function Sort<T>(list: seq<T>, before: (T, T) -> bool): seq<T> {
    if list == [] then [] else Insert(Sort(list[..|list| - 1], before), list[|list| - 1], before)
  }

  /** A strict weak order. */
  ghost predicate IsOrder<T(!new)>(before: (T, T) -> bool) {
    && (forall x, y :: before(x, y) ==> !before(y, x))
    && (forall x, y, z :: !before(y, x) && !before(z, y) ==> !before(z, x))
  }

  /** No entry belongs before an earlier one. */
  ghost predicate Sorted<T>(list: seq<T>, before: (T, T) -> bool) {
    forall i, j :: 0 <= i < j < |list| ==> !before(list[j], list[i])
  }

  lemma {:induction false} InsertContents<T>(list: seq<T>, x: T, before: (T, T) -> bool)
    ensures multiset(Insert(list, x, before)) == multiset(list) + multiset{x}
  {
    if list != [] {
      assert list == list[..|list| - 1] + [list[|list| - 1]];
      InsertContents(list[..|list| - 1], x, before);
    }
  }

  /** Sorting permutes. */
  lemma {:induction false} SortContents<T>(list: seq<T>, before: (T, T) -> bool)
    ensures multiset(Sort(list, before)) == multiset(list)
  {
    if list != [] {
      assert list == list[..|list| - 1] + [list[|list| - 1]];
      SortContents(list[..|list| - 1], before);
      InsertContents(Sort(list[..|list| - 1], before), list[|list| - 1], before);
    }
  }

  lemma {:induction false} SortMembers<T>(list: seq<T>, before: (T, T) -> bool)
    ensures |Sort(list, before)| == |list|
    ensures forall x :: x in Sort(list, before) <==> x in list
  {
    var sorted := Sort(list, before);
    SortContents(list, before);
    assert |sorted| == |multiset(sorted)| && |list| == |multiset(list)|;
    assert forall x :: x in sorted <==> x in multiset(sorted);
  }

  lemma {:induction false} InsertKeepsSorted<T(!new)>(list: seq<T>, x: T, before: (T, T) -> bool)
    requires IsOrder(before) && Sorted(list, before)
    ensures Sorted(Insert(list, x, before), before)
    ensures forall y :: y in Insert(list, x, before) ==> y == x || y in list
  {
    if list != [] {
      var front, last := list[..|list| - 1], list[|list| - 1];
      if before(x, last) {
        InsertKeepsSorted(front, x, before);
        var inserted := Insert(front, x, before);
        forall i | 0 <= i < |inserted| ensures !before(last, inserted[i]) {
          assert inserted[i] in inserted;
        }
      } else {
        forall i | 0 <= i < |list| ensures !before(x, list[i]) {
          assert i < |front| ==> !before(last, list[i]);
        }
      }
    }
  }

  /** Sorting sorts. */
  lemma {:induction false} SortSorts<T(!new)>(list: seq<T>, before: (T, T) -> bool)
    requires IsOrder(before)
    ensures Sorted(Sort(list, before), before)
  {
    if list != [] {
      SortSorts(list[..|list| - 1], before);
      InsertKeepsSorted(Sort(list[..|list| - 1], before), list[|list| - 1], before);
    }
  }

  /** Sorting changes nothing in a sorted list. */
  lemma {:induction false} SortKeeps<T>(list: seq<T>, before: (T, T) -> bool)
    requires Sorted(list, before)
    ensures Sort(list, before) == list
  {
    if list != [] {
      var front := list[..|list| - 1];
      SortKeeps(front, before);
      assert list == front + [list[|list| - 1]];
      assert front != [] ==> !before(list[|list| - 1], list[|list| - 2]);
    }
  }
}
