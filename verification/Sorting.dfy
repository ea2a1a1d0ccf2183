/** Python's stable sort by a pair of integers, ascending. */
module Sorting {
  type Key = (int, int)

  predicate Leq(a: Key, b: Key)
  {
    a.0 < b.0 || (a.0 == b.0 && a.1 <= b.1)
  }

  predicate Sorted<T>(xs: seq<T>, key: T -> Key)
  {
    forall i, j | 0 <= i < j < |xs| :: Leq(key(xs[i]), key(xs[j]))
  }

  function Insert<T>(x: T, xs: seq<T>, key: T -> Key): (r: seq<T>)
    ensures multiset(r) == multiset(xs) + multiset{x}
  {
    if xs == [] || Leq(key(x), key(xs[0])) then [x] + xs else
    assert xs == [xs[0]] + xs[1..];
    [xs[0]] + Insert(x, xs[1..], key)
  }

  lemma {:induction false} InsertSorts<T>(x: T, xs: seq<T>, key: T -> Key)
    requires Sorted(xs, key)
    ensures Sorted(Insert(x, xs, key), key)
    decreases |xs|
  {
    if xs != [] && !Leq(key(x), key(xs[0])) {
      var rest := Insert(x, xs[1..], key);
      InsertSorts(x, xs[1..], key);
      forall i | 0 <= i < |rest|
        ensures Leq(key(xs[0]), key(rest[i]))
      {
        assert rest[i] in multiset(rest);
        assert rest[i] == x || rest[i] in xs[1..];
      }
    }
  }

  // An element that came first goes before its equals, so equal elements keep their order.
  function Sort<T>(xs: seq<T>, key: T -> Key): (r: seq<T>)
    ensures Sorted(r, key) && multiset(r) == multiset(xs)
  {
    if xs == [] then [] else
    assert xs == [xs[0]] + xs[1..];
    InsertSorts(xs[0], Sort(xs[1..], key), key);
    Insert(xs[0], Sort(xs[1..], key), key)
  }

  function With<T>(xs: seq<T>, key: T -> Key, k: Key): seq<T>
  {
    if xs == [] then [] else (if key(xs[0]) == k then [xs[0]] else []) + With(xs[1..], key, k)
  }

  lemma {:induction false} InsertIsStable<T>(x: T, xs: seq<T>, key: T -> Key, k: Key)
    ensures With(Insert(x, xs, key), key, k) == (if key(x) == k then [x] else []) + With(xs, key, k)
    decreases |xs|
  {
    var r := Insert(x, xs, key);
    if xs == [] || Leq(key(x), key(xs[0])) {
      assert r[1..] == xs;
    } else {
      assert r[1..] == Insert(x, xs[1..], key);
      InsertIsStable(x, xs[1..], key, k);
    }
  }

  lemma {:induction false} SortIsStable<T>(xs: seq<T>, key: T -> Key, k: Key)
    ensures With(Sort(xs, key), key, k) == With(xs, key, k)
    decreases |xs|
  {
    if xs != [] {
      SortIsStable(xs[1..], key, k);
      InsertIsStable(xs[0], Sort(xs[1..], key), key, k);
    }
  }

  function SumBy<T>(xs: seq<T>, f: T -> int): int
  {
    if xs == [] then 0 else f(xs[0]) + SumBy(xs[1..], f)
  }

  lemma {:induction false} SumBySnoc<T>(xs: seq<T>, x: T, f: T -> int)
    ensures SumBy(xs + [x], f) == SumBy(xs, f) + f(x)
    decreases |xs|
  {
    if xs != [] {
      assert (xs + [x])[1..] == xs[1..] + [x];
      SumBySnoc(xs[1..], x, f);
    }
  }

  lemma {:induction false} SumOfUpdate<T>(xs: seq<T>, c: nat, x: T, f: T -> int)
    requires c < |xs|
    ensures SumBy(xs[c := x], f) == SumBy(xs, f) - f(xs[c]) + f(x)
    decreases |xs|
  {
    if c == 0 {
      assert xs[0 := x][1..] == xs[1..];
    } else {
      assert xs[c := x][1..] == xs[1..][c - 1 := x];
      SumOfUpdate(xs[1..], c - 1, x, f);
    }
  }

  lemma {:induction false} InsertKeepsSum<T>(x: T, xs: seq<T>, key: T -> Key, f: T -> int)
    ensures SumBy(Insert(x, xs, key), f) == f(x) + SumBy(xs, f)
    decreases |xs|
  {
    var r := Insert(x, xs, key);
    if xs == [] || Leq(key(x), key(xs[0])) {
      assert r[1..] == xs;
    } else {
      assert r[1..] == Insert(x, xs[1..], key);
      InsertKeepsSum(x, xs[1..], key, f);
    }
  }

  lemma {:induction false} SortKeepsSum<T>(xs: seq<T>, key: T -> Key, f: T -> int)
    ensures SumBy(Sort(xs, key), f) == SumBy(xs, f)
    decreases |xs|
  {
    if xs != [] {
      SortKeepsSum(xs[1..], key, f);
      InsertKeepsSum(xs[0], Sort(xs[1..], key), key, f);
    }
  }
}
