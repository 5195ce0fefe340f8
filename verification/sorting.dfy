/** Python's `list.sort(key=..., reverse=True)`: a stable sort into
    non-increasing key order. Stability is stated directly: for every key
    value, the subsequence of elements carrying that key is the same before
    and after sorting. */
module Sorting {
  import opened Seqs

  /** Non-increasing by `key`. */
  ghost predicate SortedDesc<T>(xs: seq<T>, key: T -> real) {
    forall i, j :: 0 <= i < j < |xs| ==> key(xs[i]) >= key(xs[j])
  }

  /** The elements whose key is exactly `v`, in their original order. */
  function WithKey<T>(xs: seq<T>, key: T -> real, v: real): seq<T> {
    if |xs| == 0 then [] else (if key(xs[0]) == v then [xs[0]] else []) + WithKey(xs[1..], key, v)
  }

  /** Places `x` in front of the first element whose key does not exceed `key(x)`. */
  function Insert<T>(x: T, ys: seq<T>, key: T -> real): (r: seq<T>)
    ensures |r| == |ys| + 1
    ensures multiset(r) == multiset(ys) + multiset{x}
  {
    if |ys| == 0 then [x]
    else if key(ys[0]) <= key(x) then [x] + ys
    else
      assert ys == [ys[0]] + ys[1..];
      [ys[0]] + Insert(x, ys[1..], key)
  }

  lemma InsertSorted<T>(x: T, ys: seq<T>, key: T -> real)
    requires SortedDesc(ys, key)
    ensures SortedDesc(Insert(x, ys, key), key)
    ensures |ys| > 0 && key(ys[0]) > key(x) ==> Insert(x, ys, key)[0] == ys[0]
    ensures |ys| == 0 || key(ys[0]) <= key(x) ==> Insert(x, ys, key)[0] == x
  {
    if |ys| > 0 && key(ys[0]) > key(x) {
      InsertSorted(x, ys[1..], key);
      InsertBounded(x, ys[1..], key, key(ys[0]));
      var rest := Insert(x, ys[1..], key);
      var r := Insert(x, ys, key);
      assert r == [ys[0]] + rest;
      forall i, j | 0 <= i < j < |r| ensures key(r[i]) >= key(r[j]) {
        assert r[j] == rest[j - 1];
        if i > 0 {
          assert r[i] == rest[i - 1];
        }
      }
    }
  }

  /** Inserting below a bound keeps every key below it. */
  lemma {:induction false} InsertBounded<T>(x: T, ys: seq<T>, key: T -> real, b: real)
    requires key(x) <= b && forall j :: 0 <= j < |ys| ==> key(ys[j]) <= b
    ensures forall j :: 0 <= j < |Insert(x, ys, key)| ==> key(Insert(x, ys, key)[j]) <= b
  {
    if |ys| > 0 && key(ys[0]) > key(x) {
      InsertBounded(x, ys[1..], key, b);
      var rest := Insert(x, ys[1..], key);
      assert Insert(x, ys, key) == [ys[0]] + rest;
    }
  }

  lemma {:induction false} InsertWithKey<T>(x: T, ys: seq<T>, key: T -> real, v: real)
    ensures WithKey(Insert(x, ys, key), key, v) == (if key(x) == v then [x] else []) + WithKey(ys, key, v)
  {
    if |ys| == 0 {
    } else if key(ys[0]) <= key(x) {
      WithKeyCons(x, ys, key, v);
    } else {
      var fx := if key(x) == v then [x] else [];
      var f0 := if key(ys[0]) == v then [ys[0]] else [];
      var rest := Insert(x, ys[1..], key);
      var tail := WithKey(ys[1..], key, v);
      assert WithKey(Insert(x, ys, key), key, v) == f0 + WithKey(rest, key, v) by {
        WithKeyCons(ys[0], rest, key, v);
      }
      assert WithKey(rest, key, v) == fx + tail by {
        InsertWithKey(x, ys[1..], key, v);
      }
      assert WithKey(ys, key, v) == f0 + tail by {
        assert ys == [ys[0]] + ys[1..];
        WithKeyCons(ys[0], ys[1..], key, v);
      }
      SwapEmpty(f0, fx, tail);
    }
  }

  lemma SwapEmpty<T>(a: seq<T>, b: seq<T>, c: seq<T>)
    requires a == [] || b == []
    ensures a + (b + c) == b + (a + c)
  {
  }

  lemma WithKeyCons<T>(y: T, ys: seq<T>, key: T -> real, v: real)
    ensures WithKey([y] + ys, key, v) == (if key(y) == v then [y] else []) + WithKey(ys, key, v)
  {
    assert ([y] + ys)[1..] == ys;
  }

  /** Stable sort by non-increasing key (insertion sort from the back). */
  function SortDesc<T>(xs: seq<T>, key: T -> real): (r: seq<T>)
    ensures |r| == |xs|
    ensures multiset(r) == multiset(xs)
    ensures SortedDesc(r, key)
    ensures forall v :: WithKey(r, key, v) == WithKey(xs, key, v)
  {
    if |xs| == 0 then []
    else
      assert xs == [xs[0]] + xs[1..];
      var rest := SortDesc(xs[1..], key);
      InsertSorted(xs[0], rest, key);
      assert forall v :: WithKey(Insert(xs[0], rest, key), key, v) == WithKey(xs, key, v) by {
        forall v ensures WithKey(Insert(xs[0], rest, key), key, v) == WithKey(xs, key, v) {
          InsertWithKey(xs[0], rest, key, v);
        }
      }
      Insert(xs[0], rest, key)
  }

  /** A prefix of a sorted sequence is sorted. */
  lemma PrefixSorted<T>(xs: seq<T>, n: nat, key: T -> real)
    requires SortedDesc(xs, key) && n <= |xs|
    ensures SortedDesc(xs[..n], key)
  {
  }

  /** A prefix of a sorted, duplicate-free sequence is both, element for element. */
  lemma TakeSortedDistinct<T, K>(xs: seq<T>, n: nat, key: T -> real, f: T -> K)
    requires SortedDesc(xs, key) && DistinctBy(xs, f)
    ensures SortedDesc(Take(xs, n), key) && DistinctBy(Take(xs, n), f)
    ensures forall k :: 0 <= k < |Take(xs, n)| ==> Take(xs, n)[k] == xs[k]
  {
  }

  /** Elements mapped by `f` to pairwise-distinct values. */
  ghost predicate DistinctBy<T, K>(xs: seq<T>, f: T -> K) {
    forall i, j :: 0 <= i < j < |xs| ==> f(xs[i]) != f(xs[j])
  }

  lemma InsertDistinctBy<T, K>(x: T, ys: seq<T>, key: T -> real, f: T -> K)
    requires DistinctBy(ys, f)
    requires forall j :: 0 <= j < |ys| ==> f(ys[j]) != f(x)
    ensures DistinctBy(Insert(x, ys, key), f)
  {
    if |ys| > 0 && key(ys[0]) > key(x) {
      var rest := Insert(x, ys[1..], key);
      InsertDistinctBy(x, ys[1..], key, f);
      forall j | 0 <= j < |rest| ensures f(rest[j]) != f(ys[0]) {
        assert rest[j] in multiset(rest);
        if rest[j] != x {
          assert rest[j] in multiset(ys[1..]);
          var k :| 0 <= k < |ys[1..]| && ys[1..][k] == rest[j];
          assert ys[k + 1] == rest[j];
        }
      }
      assert Insert(x, ys, key) == [ys[0]] + rest;
    }
  }

  /** Sorting keeps any "distinct by f" property (ids stay unique). */
  lemma {:induction false} SortKeepsDistinctBy<T, K>(xs: seq<T>, key: T -> real, f: T -> K)
    requires DistinctBy(xs, f)
    ensures DistinctBy(SortDesc(xs, key), f)
  {
    if |xs| > 0 {
      var rest := SortDesc(xs[1..], key);
      SortKeepsDistinctBy(xs[1..], key, f);
      forall j | 0 <= j < |rest| ensures f(rest[j]) != f(xs[0]) {
        assert rest[j] in multiset(xs[1..]);
        var k :| 0 <= k < |xs[1..]| && xs[1..][k] == rest[j];
        assert xs[k + 1] == rest[j];
      }
      InsertDistinctBy(xs[0], rest, key, f);
    }
  }

  /** Taking a prefix keeps, for each key value, a prefix of that key's elements. */
  lemma {:induction false} WithKeyOfPrefix<T>(xs: seq<T>, n: nat, key: T -> real, v: real)
    requires n <= |xs|
    ensures WithKey(xs[..n], key, v) <= WithKey(xs, key, v)
  {
    if n > 0 {
      assert xs[..n][1..] == xs[1..][..n - 1];
      WithKeyOfPrefix(xs[1..], n - 1, key, v);
    }
  }
}
