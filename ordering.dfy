/**
 * Python's `sorted` on a list of durations, as the percentile code of the
 * health and performance monitors uses it, and the order statistic it
 * yields.
 */
module Ordering {

  /** Each element at least the one before it. */
  predicate Sorted(s: seq<real>)
  {
    forall i :: 0 < i < |s| ==> s[i - 1] <= s[i]
  }

  /** `x` placed in a sorted list before the first element that is larger. */
  function Insert(x: real, s: seq<real>): (r: seq<real>)
    requires Sorted(s)
    ensures Sorted(r)
    ensures multiset(r) == multiset(s) + multiset{x}
    ensures |r| == |s| + 1
    ensures r[0] == (if s == [] || x <= s[0] then x else s[0])
  {
    if s == [] then [x]
    else if x <= s[0] then [x] + s
    else
      var rest := Insert(x, s[1..]);
      assert s == [s[0]] + s[1..];
      var r := [s[0]] + rest;
      assert forall k :: 0 < k < |r| ==> r[k] == rest[k - 1];
      r
  }

  /** `sorted(s)`: the same elements, in non-decreasing order. */
  function Sort(s: seq<real>): (r: seq<real>)
    ensures Sorted(r)
    ensures multiset(r) == multiset(s)
    ensures |r| == |s|
  {
    if s == [] then []
    else
      assert s == [s[0]] + s[1..];
      Insert(s[0], Sort(s[1..]))
  }

  /** An element of the sorted list is an element of the original one. */
  lemma SortKeepsElements(s: seq<real>, i: int)
    requires 0 <= i < |s|
    ensures Sort(s)[i] in s
  {
    var r := Sort(s);
    assert r[i] in multiset(r);
  }

  /** Further along a sorted list, never smaller. */
  lemma {:induction false} SortedMonotone(s: seq<real>, i: int, j: int)
    requires Sorted(s) && 0 <= i <= j < |s|
    ensures s[i] <= s[j]
    decreases j - i
  {
    if i < j {
      SortedMonotone(s, i, j - 1);
    }
  }

  /** Every element of the original list is in the sorted one. */
  lemma SortHasElement(s: seq<real>, x: real)
    requires x in s
    ensures x in Sort(s)
  {
    assert x in multiset(s);
  }

  /** In a sorted list, the first element is a minimum and the last a maximum. */
  lemma SortedBounds(r: seq<real>, x: real)
    requires Sorted(r) && x in r
    ensures r[0] <= x <= r[|r| - 1]
  {
    var k :| 0 <= k < |r| && r[k] == x;
    SortedMonotone(r, 0, k);
    SortedMonotone(r, k, |r| - 1);
  }

  /** The first element of the sorted list is a minimum of the original, the last a maximum. */
  lemma SortBounds(s: seq<real>, x: real)
    requires x in s
    ensures Sort(s)[0] <= x <= Sort(s)[|s| - 1]
  {
    SortHasElement(s, x);
    SortedBounds(Sort(s), x);
  }
}
