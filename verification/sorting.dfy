/** `Array.prototype.map`, `Array.prototype.filter` and the stable `Array.prototype.sort` with a
    numeric comparator `(a, b) => key(a) - key(b)`, which the screens use to
    order sessions by start time and plans by their monthly limit. */
module Sorting {

  /** Ascending by `key`. */
  predicate SortedBy<T>(xs: seq<T>, key: T -> int) {
    forall i, j | 0 <= i < j < |xs| :: key(xs[i]) <= key(xs[j])
  }

  /** The elements whose key is `k`, in their order. */
  function WithKey<T>(xs: seq<T>, key: T -> int, k: int): (r: seq<T>)
    ensures |r| <= |xs|
    ensures forall i | 0 <= i < |r| :: key(r[i]) == k
  {
    if xs == [] then []
    else (if key(xs[0]) == k then [xs[0]] else []) + WithKey(xs[1..], key, k)
  }

  /** Inserting `x` in front of the first element whose key is at least
      its own. */
  function InsertBy<T>(x: T, xs: seq<T>, key: T -> int): (r: seq<T>)
    ensures |r| == |xs| + 1
    ensures multiset(r) == multiset(xs) + multiset{x}
    ensures r[0] == x || (|xs| > 0 && r[0] == xs[0])
  {
    if xs == [] || key(x) <= key(xs[0]) then [x] + xs
    else
      assert xs == [xs[0]] + xs[1..];
      [xs[0]] + InsertBy(x, xs[1..], key)
  }

  /** Inserting into a sorted list keeps it sorted. */
  lemma {:induction false} InsertBySorted<T>(x: T, xs: seq<T>, key: T -> int)
    requires SortedBy(xs, key)
    ensures SortedBy(InsertBy(x, xs, key), key)
  {
    if xs != [] && key(x) > key(xs[0]) {
      var t := InsertBy(x, xs[1..], key);
      InsertBySorted(x, xs[1..], key);
      assert key(xs[0]) <= key(t[0]);
      var r := [xs[0]] + t;
      forall i, j | 0 <= i < j < |r| ensures key(r[i]) <= key(r[j]) {
        if i == 0 && j > 1 {
          assert r[j] == t[j - 1];
        }
      }
    }
  }

  /** `[...xs].sort((a, b) => key(a) - key(b))`: the comparator's order,
      with elements of equal key kept in their original order. */
  function SortBy<T>(xs: seq<T>, key: T -> int): (r: seq<T>)
    ensures |r| == |xs|
    ensures multiset(r) == multiset(xs)
    ensures SortedBy(r, key)
  {
    if xs == [] then []
    else
      assert xs == [xs[0]] + xs[1..];
      InsertBySorted(xs[0], SortBy(xs[1..], key), key);
      InsertBy(xs[0], SortBy(xs[1..], key), key)
  }

  /** Inserting into a sorted list adds `x` at the front of its key class
      and leaves the other key classes alone. */
  lemma {:induction false} WithKeyInsert<T>(x: T, xs: seq<T>, key: T -> int, k: int)
    requires SortedBy(xs, key)
    ensures key(x) == k ==> WithKey(InsertBy(x, xs, key), key, k) == [x] + WithKey(xs, key, k)
    ensures key(x) != k ==> WithKey(InsertBy(x, xs, key), key, k) == WithKey(xs, key, k)
  {
    if xs == [] || key(x) <= key(xs[0]) {
      WithKeyCons(x, xs, key, k);
    } else {
      var t := InsertBy(x, xs[1..], key);
      WithKeyInsert(x, xs[1..], key, k);
      WithKeyCons(xs[0], t, key, k);
      WithKeyCons(xs[0], xs[1..], key, k);
      assert [xs[0]] + xs[1..] == xs;
    }
  }

  /** `WithKey` of a list with a known head. */
  lemma WithKeyCons<T>(y: T, t: seq<T>, key: T -> int, k: int)
    ensures WithKey([y] + t, key, k) == (if key(y) == k then [y] else []) + WithKey(t, key, k)
  {
    assert ([y] + t)[1..] == t;
  }

  /** Stability: within every key class the sorted list keeps the original
      order. */
  lemma {:induction false} SortByStable<T>(xs: seq<T>, key: T -> int, k: int)
    ensures WithKey(SortBy(xs, key), key, k) == WithKey(xs, key, k)
  {
    if xs != [] {
      SortByStable(xs[1..], key, k);
      WithKeyInsert(xs[0], SortBy(xs[1..], key), key, k);
    }
  }

  /** `xs.filter(p)`. */
  function Filter<T>(xs: seq<T>, p: T -> bool): (r: seq<T>)
    ensures |r| <= |xs|
    ensures forall i | 0 <= i < |r| :: p(r[i])
    ensures forall i | 0 <= i < |r| :: r[i] in xs
    ensures forall i | 0 <= i < |xs| && p(xs[i]) :: xs[i] in r
    ensures multiset(r) <= multiset(xs)
  {
    if xs == [] then []
    else
      assert xs == [xs[0]] + xs[1..];
      (if p(xs[0]) then [xs[0]] else []) + Filter(xs[1..], p)
  }

  /** Filtering keeps exactly the copies that pass. */
  lemma {:induction false} FilterCount<T>(xs: seq<T>, p: T -> bool, x: T)
    ensures multiset(Filter(xs, p))[x] == (if p(x) then multiset(xs)[x] else 0)
  {
    if xs != [] {
      assert xs == [xs[0]] + xs[1..];
      FilterCount(xs[1..], p, x);
    }
  }

  /** `xs.map(f)`. */
  function Map<A, B>(f: A -> B, xs: seq<A>): (r: seq<B>)
    ensures |r| == |xs|
    ensures forall i | 0 <= i < |xs| :: r[i] == f(xs[i])
  {
    seq(|xs|, i requires 0 <= i < |xs| => f(xs[i]))
  }

  /** Mapping two parts one after the other gives the map of the whole. */
  lemma MapConcat<A, B>(f: A -> B, a: seq<A>, b: seq<A>)
    ensures Map(f, a + b) == Map(f, a) + Map(f, b)
  {
    var whole, parts := Map(f, a + b), Map(f, a) + Map(f, b);
    forall i | 0 <= i < |whole| ensures whole[i] == parts[i] {
      if i < |a| {
        assert (a + b)[i] == a[i];
      } else {
        assert (a + b)[i] == b[i - |a|];
      }
    }
  }
}
