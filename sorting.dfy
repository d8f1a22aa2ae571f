/**
 * `List.sort(comparator)`: Java sorts lists with a stable merge sort, so for a comparator that is a
 * strict order the result is the unique stable sorted permutation, which is what the insertion sort
 * below computes. `less(a, b)` stands for `compare(a, b) < 0`.
 */
module Sorting {

  /** `less` is irreflexive and transitive. */
  ghost predicate StrictOrder<T(!new)>(less: (T, T) -> bool) {
    && (forall a :: !less(a, a))
    && (forall a, b, c :: less(a, b) && less(b, c) ==> less(a, c))
  }

  /** No element is less than one placed before it. */
  predicate Sorted<T>(s: seq<T>, less: (T, T) -> bool) {
    forall i, j | 0 <= i < j < |s| :: !less(s[j], s[i])
  }

  /** `x` placed just before the first element it is less than. */
  function Insert<T(==)>(x: T, s: seq<T>, less: (T, T) -> bool): (r: seq<T>)
    ensures multiset(r) == multiset(s) + multiset{x}
    ensures |r| == |s| + 1
  {
    if s == [] then [x]
    else if less(x, s[0]) then [x] + s
    else
      assert s == [s[0]] + s[1..];
      [s[0]] + Insert(x, s[1..], less)
  }

  /** Stable insertion sort: each element goes after the earlier elements it is not less than. */
  function SortBy<T(==)>(s: seq<T>, less: (T, T) -> bool): (r: seq<T>)
    ensures multiset(r) == multiset(s)
    ensures |r| == |s|
  {
    if s == [] then []
    else
      assert s == s[..|s| - 1] + [s[|s| - 1]];
      Insert(s[|s| - 1], SortBy(s[..|s| - 1], less), less)
  }

  lemma {:induction false} InsertSorted<T(!new)>(x: T, s: seq<T>, less: (T, T) -> bool)
    requires StrictOrder(less)
    requires Sorted(s, less)
    ensures Sorted(Insert(x, s, less), less)
  {
    if s != [] && !less(x, s[0]) {
      assert Sorted(s[1..], less);
      InsertSorted(x, s[1..], less);
      var rest := Insert(x, s[1..], less);
      forall j | 0 <= j < |rest| ensures !less(rest[j], s[0]) {
        var y := rest[j];
        assert y in multiset(rest);
        if y != x {
          var k :| 0 <= k < |s[1..]| && s[1..][k] == y;
          assert s[k + 1] == y;
        }
      }
      SortedCons(s[0], rest, less);
    }
  }

  /** A sorted list with a head no later element is less than is sorted. */
  lemma SortedCons<T>(h: T, t: seq<T>, less: (T, T) -> bool)
    requires Sorted(t, less)
    requires forall j | 0 <= j < |t| :: !less(t[j], h)
    ensures Sorted([h] + t, less)
  {
    var s := [h] + t;
    forall i, j | 0 <= i < j < |s| ensures !less(s[j], s[i]) {
      assert s[j] == t[j - 1];
      if i > 0 {
        assert s[i] == t[i - 1];
      }
    }
  }

  /** The sorted list is in order: nothing is less than an element before it. */
  lemma {:induction false} SortBySorted<T(!new)>(s: seq<T>, less: (T, T) -> bool)
    requires StrictOrder(less)
    ensures Sorted(SortBy(s, less), less)
  {
    if s != [] {
      SortBySorted(s[..|s| - 1], less);
      InsertSorted(s[|s| - 1], SortBy(s[..|s| - 1], less), less);
    }
  }
}
