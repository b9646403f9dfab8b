/**
 * `Array.prototype.sort(comparator)` as ECMAScript 2019 specifies it: a stable sort in
 * which a comparator result of NaN counts as +0 ("equal"). Modelled as a stable insertion
 * sort; only "greater than zero" moves an element.
 */
module JsSort {

  /** A comparator's result: a number, or NaN. */
  datatype Comparison = Num(n: int) | NaN

  /** SortCompare: only a positive number puts `a` after `b`; NaN is +0. */
  predicate Greater(c: Comparison) {
    c.Num? && c.n > 0
  }

  /** Inserts `x` after every element of the sorted prefix it is not smaller than. */
  function Insert<T>(sorted: seq<T>, x: T, cmp: (T, T) -> Comparison): seq<T>
    decreases |sorted|
  {
    if sorted == [] then [x]
    else if Greater(cmp(sorted[|sorted| - 1], x)) then Insert(sorted[..|sorted| - 1], x, cmp) + [sorted[|sorted| - 1]]
    else sorted + [x]
  }

  function Sort<T>(s: seq<T>, cmp: (T, T) -> Comparison): seq<T>
    decreases |s|
  {
    if s == [] then [] else Insert(Sort(s[..|s| - 1], cmp), s[|s| - 1], cmp)
  }

  lemma {:induction false} InsertPermutes<T>(sorted: seq<T>, x: T, cmp: (T, T) -> Comparison)
    ensures multiset(Insert(sorted, x, cmp)) == multiset(sorted) + multiset{x}
    decreases |sorted|
  {
    if sorted != [] && Greater(cmp(sorted[|sorted| - 1], x)) {
      InsertPermutes(sorted[..|sorted| - 1], x, cmp);
      assert sorted == sorted[..|sorted| - 1] + [sorted[|sorted| - 1]];
    }
  }

  /** The sorted array is a permutation of the input, whatever the comparator. */
  lemma {:induction false} SortPermutes<T>(s: seq<T>, cmp: (T, T) -> Comparison)
    ensures multiset(Sort(s, cmp)) == multiset(s)
    decreases |s|
  {
    if s != [] {
      SortPermutes(s[..|s| - 1], cmp);
      InsertPermutes(Sort(s[..|s| - 1], cmp), s[|s| - 1], cmp);
      assert s == s[..|s| - 1] + [s[|s| - 1]];
    }
  }

  /** A comparator that never answers "greater" (for instance one that always yields NaN) leaves the order as it is. */
  lemma {:induction false} SortIdentity<T>(s: seq<T>, cmp: (T, T) -> Comparison)
    requires forall a, b :: !Greater(cmp(a, b))
    ensures Sort(s, cmp) == s
    decreases |s|
  {
    if s != [] {
      SortIdentity(s[..|s| - 1], cmp);
      assert s == s[..|s| - 1] + [s[|s| - 1]];
    }
  }

  predicate SortedBy<T>(s: seq<T>, key: T -> int) {
    forall i, j :: 0 <= i < j < |s| ==> key(s[i]) <= key(s[j])
  }

  lemma {:induction false} InsertSorted<T>(sorted: seq<T>, x: T, cmp: (T, T) -> Comparison, key: T -> int)
    requires forall a, b :: cmp(a, b) == Num(key(a) - key(b))
    requires SortedBy(sorted, key)
    ensures SortedBy(Insert(sorted, x, cmp), key)
    ensures multiset(Insert(sorted, x, cmp)) == multiset(sorted) + multiset{x}
    decreases |sorted|
  {
    InsertPermutes(sorted, x, cmp);
    if sorted != [] && Greater(cmp(sorted[|sorted| - 1], x)) {
      var init := sorted[..|sorted| - 1];
      var last := sorted[|sorted| - 1];
      InsertSorted(init, x, cmp, key);
      var r := Insert(init, x, cmp);
      InsertPermutes(init, x, cmp);
      forall y | y in r ensures key(y) <= key(last) {
        assert y in multiset(r);
        assert y in multiset(init) + multiset{x};
        if y != x {
          assert y in init;
        }
      }
      forall i, j | 0 <= i < j < |r + [last]| ensures key((r + [last])[i]) <= key((r + [last])[j]) {
        if j == |r| {
          assert (r + [last])[i] in r;
        }
      }
    }
  }

  /** With a comparator `(a, b) => key(a) - key(b)` the result is in ascending key order. */
  lemma {:induction false} SortSortsByKey<T>(s: seq<T>, cmp: (T, T) -> Comparison, key: T -> int)
    requires forall a, b :: cmp(a, b) == Num(key(a) - key(b))
    ensures SortedBy(Sort(s, cmp), key)
    decreases |s|
  {
    if s != [] {
      SortSortsByKey(s[..|s| - 1], cmp, key);
      InsertSorted(Sort(s[..|s| - 1], cmp), s[|s| - 1], cmp, key);
    }
  }
}
