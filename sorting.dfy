/** Ordering a query result by a numeric column (SQL `ORDER BY ... ASC`).
    The model sorts stably; no contract below depends on how ties are ordered. */
module Sorting {

  ghost predicate SortedBy<T>(xs: seq<T>, key: T -> real)
  {
    forall i, j :: 0 <= i < j < |xs| ==> key(xs[i]) <= key(xs[j])
  }

  /** No value occurs twice. */
  ghost predicate DistinctValues<T>(xs: seq<T>)
  {
    forall i, j :: 0 <= i < j < |xs| ==> xs[i] != xs[j]
  }

  /** Inserts `x` in front of the first element whose key is not smaller. */
  function Insert<T>(x: T, xs: seq<T>, key: T -> real): (r: seq<T>)
    requires SortedBy(xs, key)
    ensures |r| == |xs| + 1
    ensures multiset(r) == multiset(xs) + multiset{x}
    ensures SortedBy(r, key)
  {
    if xs == [] || key(x) <= key(xs[0]) then
      [x] + xs
    else
      var tail := Insert(x, xs[1..], key);
      assert xs == [xs[0]] + xs[1..];
      BoundedBelow(xs[0], xs[1..], x, tail, key);
      [xs[0]] + tail
  }

  lemma BoundedBelow<T>(y: T, ys: seq<T>, x: T, t: seq<T>, key: T -> real)
    requires SortedBy([y] + ys, key) && key(y) <= key(x)
    requires multiset(t) == multiset(ys) + multiset{x}
    ensures forall k :: 0 <= k < |t| ==> key(y) <= key(t[k])
  {
    forall k | 0 <= k < |t| ensures key(y) <= key(t[k]) {
      assert t[k] in multiset(t);
      if t[k] != x {
        assert t[k] in multiset(ys);
        var m :| 0 <= m < |ys| && ys[m] == t[k];
        assert ([y] + ys)[0] == y && ([y] + ys)[m + 1] == t[k];
        assert key(([y] + ys)[0]) <= key(([y] + ys)[m + 1]);
      }
    }
  }

  /** Insertion sort: a sorted permutation of `xs`. */
  function SortBy<T>(xs: seq<T>, key: T -> real): (r: seq<T>)
    ensures |r| == |xs|
    ensures multiset(r) == multiset(xs)
    ensures SortedBy(r, key)
  {
    if xs == [] then []
    else
      assert xs == [xs[0]] + xs[1..];
      Insert(xs[0], SortBy(xs[1..], key), key)
  }

  /** A permutation has the same elements. */
  lemma SameElements<T>(xs: seq<T>, ys: seq<T>, x: T)
    requires multiset(xs) == multiset(ys)
    ensures x in xs <==> x in ys
  {
    assert x in xs <==> x in multiset(xs);
    assert x in ys <==> x in multiset(ys);
  }

  lemma {:induction false} InsertDistinct<T>(x: T, xs: seq<T>, key: T -> real)
    requires SortedBy(xs, key) && DistinctValues(xs) && x !in xs
    ensures DistinctValues(Insert(x, xs, key))
  {
    if xs == [] || key(x) <= key(xs[0]) {
    } else {
      assert xs == [xs[0]] + xs[1..];
      InsertDistinct(x, xs[1..], key);
      var tail := Insert(x, xs[1..], key);
      assert xs[0] !in tail by {
        assert xs[0] != x;
        assert xs[0] !in xs[1..];
        SameElements(tail, xs[1..] + [x], xs[0]);
      }
    }
  }

  /** Sorting keeps a duplicate-free sequence duplicate-free. */
  lemma {:induction false} SortDistinct<T>(xs: seq<T>, key: T -> real)
    requires DistinctValues(xs)
    ensures DistinctValues(SortBy(xs, key))
  {
    if xs != [] {
      assert xs == [xs[0]] + xs[1..];
      SortDistinct(xs[1..], key);
      var rest := SortBy(xs[1..], key);
      assert xs[0] !in xs[1..];
      SameElements(rest, xs[1..], xs[0]);
      InsertDistinct(xs[0], rest, key);
    }
  }
}
