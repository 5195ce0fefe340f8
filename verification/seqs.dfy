/** Generic facts about sequences used across the model: Python slicing,
    duplicate freedom, flattening and sums. */
module Seqs {

  /** Python's `xs[:n]` for a non-negative `n`. */
  function Take<T>(xs: seq<T>, n: nat): (r: seq<T>)
    ensures |r| == if n < |xs| then n else |xs|
    ensures r <= xs
  {
    if n < |xs| then xs[..n] else xs
  }

  /** Python's `xs[a:b]` for non-negative bounds: out-of-range bounds are clamped. */
  function Slice<T>(xs: seq<T>, a: nat, b: nat): (r: seq<T>)
    ensures |r| <= |xs|
    ensures a <= b <= |xs| ==> r == xs[a..b]
  {
    var hi := if b < |xs| then b else |xs|;
    if a >= hi then [] else xs[a..hi]
  }

  /** No element occurs twice. */
  predicate Distinct<T(==)>(xs: seq<T>) {
    forall i, j :: 0 <= i < j < |xs| ==> xs[i] != xs[j]
  }

  /** The elements of a sequence, as a set. */
  function Elems<T(==)>(xs: seq<T>): set<T> {
    set x | x in xs
  }

  /** Concatenation of a sequence of sequences. */
  function Flatten<T>(xss: seq<seq<T>>): seq<T> {
    if |xss| == 0 then [] else xss[0] + Flatten(xss[1..])
  }

  /** Sum of a sequence of naturals. */
  function Sum(xs: seq<nat>): nat {
    if |xs| == 0 then 0 else xs[0] + Sum(xs[1..])
  }

  /** The elements satisfying `p`, in order. */
  function Filter<T(==)>(xs: seq<T>, p: T -> bool): (r: seq<T>)
    ensures |r| <= |xs|
    ensures forall i :: 0 <= i < |r| ==> r[i] in xs && p(r[i])
    ensures forall i :: 0 <= i < |xs| && p(xs[i]) ==> xs[i] in r
  {
    if |xs| == 0 then []
    else (if p(xs[0]) then [xs[0]] else []) + Filter(xs[1..], p)
  }

  /** The last `n` elements (all of them when there are fewer). */
  function Last<T>(xs: seq<T>, n: nat): (r: seq<T>)
    ensures |r| == if n < |xs| then n else |xs|
  {
    if n < |xs| then xs[|xs| - n..] else xs
  }

  /** `[f(x) for x in xs]`. */
  function Map<T, U>(f: T -> U, xs: seq<T>): (r: seq<U>)
    ensures |r| == |xs|
    ensures forall i :: 0 <= i < |xs| ==> r[i] == f(xs[i])
  {
    if |xs| == 0 then [] else [f(xs[0])] + Map(f, xs[1..])
  }

  /** Concatenation of `f(x)` over `xs`, left to right (a loop of `extend`s). */
  function FlatMap<T, U>(f: T -> seq<U>, xs: seq<T>): seq<U> {
    if |xs| == 0 then [] else FlatMap(f, xs[..|xs| - 1]) + f(xs[|xs| - 1])
  }

  lemma {:induction false} FlatMapMember<T, U>(f: T -> seq<U>, xs: seq<T>, y: U)
    ensures y in FlatMap(f, xs) <==> exists i :: 0 <= i < |xs| && y in f(xs[i])
  {
    if |xs| > 0 {
      var n := |xs| - 1;
      FlatMapMember(f, xs[..n], y);
      if exists i :: 0 <= i < |xs| && y in f(xs[i]) {
        var i :| 0 <= i < |xs| && y in f(xs[i]);
        if i < n {
          assert xs[..n][i] == xs[i];
        }
      }
      if exists i :: 0 <= i < n && y in f(xs[..n][i]) {
        var i :| 0 <= i < n && y in f(xs[..n][i]);
        assert xs[i] == xs[..n][i];
      }
    }
  }

  lemma FilterAppend<T>(a: seq<T>, b: seq<T>, p: T -> bool)
    ensures Filter(a + b, p) == Filter(a, p) + Filter(b, p)
  {
    if |a| == 0 {
      assert a + b == b;
    } else {
      assert (a + b)[1..] == a[1..] + b;
      FilterAppend(a[1..], b, p);
    }
  }

  lemma FlattenAppend<T>(a: seq<seq<T>>, b: seq<seq<T>>)
    ensures Flatten(a + b) == Flatten(a) + Flatten(b)
  {
    if |a| == 0 {
      assert a + b == b;
    } else {
      assert (a + b)[1..] == a[1..] + b;
      FlattenAppend(a[1..], b);
    }
  }

  lemma SumAppend(a: seq<nat>, b: seq<nat>)
    ensures Sum(a + b) == Sum(a) + Sum(b)
  {
    if |a| == 0 {
      assert a + b == b;
    } else {
      assert (a + b)[1..] == a[1..] + b;
      SumAppend(a[1..], b);
    }
  }

  /** A filter that keeps everything is the identity. */
  lemma {:induction false} FilterAll<T>(xs: seq<T>, p: T -> bool)
    requires forall i :: 0 <= i < |xs| ==> p(xs[i])
    ensures Filter(xs, p) == xs
  {
    if |xs| > 0 {
      FilterAll(xs[1..], p);
      assert xs == [xs[0]] + xs[1..];
    }
  }

  /** Filtering keeps duplicate freedom. */
  lemma {:induction false} FilterDistinct<T>(xs: seq<T>, p: T -> bool)
    requires Distinct(xs)
    ensures Distinct(Filter(xs, p))
  {
    if |xs| > 0 {
      var rest := Filter(xs[1..], p);
      FilterDistinct(xs[1..], p);
      forall i | 0 <= i < |rest| ensures rest[i] != xs[0] {
        var j :| 0 <= j < |xs[1..]| && xs[1..][j] == rest[i];
        assert xs[j + 1] == rest[i];
      }
    }
  }

  /** A filter and its complement split the sequence's length. */
  lemma {:induction false} FilterComplement<T>(xs: seq<T>, p: T -> bool, q: T -> bool)
    requires forall x :: q(x) == !p(x)
    ensures |Filter(xs, p)| + |Filter(xs, q)| == |xs|
  {
    if |xs| > 0 {
      FilterComplement(xs[1..], p, q);
    }
  }

  /** The elements of a duplicate-free sequence are as many as its length. */
  lemma {:induction false} DistinctElems<T>(xs: seq<T>)
    requires Distinct(xs)
    ensures |Elems(xs)| == |xs|
  {
    if |xs| > 0 {
      DistinctElems(xs[1..]);
      assert Elems(xs) == {xs[0]} + Elems(xs[1..]);
      assert xs[0] !in Elems(xs[1..]);
    }
  }

  /** A sequence has at most as many distinct elements as its length. */
  lemma {:induction false} ElemsBound<T>(xs: seq<T>)
    ensures |Elems(xs)| <= |xs|
  {
    if |xs| > 0 {
      ElemsBound(xs[1..]);
      assert Elems(xs) == {xs[0]} + Elems(xs[1..]);
    }
  }

  /** A duplicate-free sequence drawn from `ys` is no longer than `ys`. */
  lemma DistinctWithin<T>(xs: seq<T>, ys: seq<T>)
    requires Distinct(xs) && forall i :: 0 <= i < |xs| ==> xs[i] in ys
    ensures |xs| <= |ys|
  {
    DistinctElems(xs);
    ElemsBound(ys);
    assert Elems(xs) <= Elems(ys);
    assert Elems(ys) == Elems(xs) + (Elems(ys) - Elems(xs));
  }

  /** Membership ignores a last element that differs. */
  lemma InDropLast<T>(xs: seq<T>, x: T)
    requires |xs| > 0 && xs[|xs| - 1] != x
    ensures x in xs <==> x in xs[..|xs| - 1]
  {
    assert xs == xs[..|xs| - 1] + [xs[|xs| - 1]];
  }

  /** Dropping the last element of a duplicate-free sequence removes it entirely. */
  lemma DistinctDropLast<T>(xs: seq<T>)
    requires Distinct(xs) && |xs| > 0
    ensures Distinct(xs[..|xs| - 1]) && xs[|xs| - 1] !in xs[..|xs| - 1]
  {
  }
}
