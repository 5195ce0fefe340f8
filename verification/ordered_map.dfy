/** Python's insertion-ordered `dict`, as a sequence of key/value pairs.
    Assigning to a present key replaces its value in place; assigning to an
    absent key appends it. Iteration (`items()`, `keys()`, `values()`) follows
    the sequence. */
module OrderedMap {
  import opened Seqs
  import opened Wrappers

  function Keys<K, V>(m: seq<(K, V)>): (r: seq<K>)
    ensures |r| == |m|
    ensures forall i :: 0 <= i < |m| ==> r[i] == m[i].0
  {
    if |m| == 0 then [] else [m[0].0] + Keys(m[1..])
  }

  function Values<K, V>(m: seq<(K, V)>): (r: seq<V>)
    ensures |r| == |m|
    ensures forall i :: 0 <= i < |m| ==> r[i] == m[i].1
  {
    if |m| == 0 then [] else [m[0].1] + Values(m[1..])
  }

  /** Keys are pairwise distinct, as in any dict. */
  predicate Valid<K(==), V>(m: seq<(K, V)>) {
    Distinct(Keys(m))
  }

  /** `d.get(k)`. */
  function Get<K(==), V>(m: seq<(K, V)>, k: K): (r: Option<V>)
    ensures r.None? <==> k !in Keys(m)
  {
    if |m| == 0 then None
    else if m[0].0 == k then Some(m[0].1)
    else Get(m[1..], k)
  }

  /** `d[k] = v`. */
  function Put<K(==,!new), V>(m: seq<(K, V)>, k: K, v: V): (r: seq<(K, V)>)
    ensures k in Keys(m) ==> Keys(r) == Keys(m)
    ensures k !in Keys(m) ==> Keys(r) == Keys(m) + [k]
    ensures Get(r, k) == Some(v)
    ensures forall k' :: k' != k ==> Get(r, k') == Get(m, k')
  {
    if |m| == 0 then [(k, v)]
    else if m[0].0 == k then [(k, v)] + m[1..]
    else
      var rest := Put(m[1..], k, v);
      assert Keys([m[0]] + rest) == [m[0].0] + Keys(rest);
      [m[0]] + rest
  }

  /** What `Get` finds is a pair of the map. */
  lemma GetIsMember<K, V>(m: seq<(K, V)>, k: K)
    ensures Get(m, k).Some? ==> (k, Get(m, k).value) in m
  {
    if |m| > 0 && m[0].0 != k {
      GetIsMember(m[1..], k);
    }
  }

  /** Looking up a key other than the last entry's ignores that entry. */
  lemma {:induction false} GetSkipsLast<K, V>(m: seq<(K, V)>, k: K)
    requires |m| > 0 && m[|m| - 1].0 != k
    ensures Get(m, k) == Get(m[..|m| - 1], k)
  {
    if |m| > 1 {
      assert m[1..][..|m| - 2] == m[..|m| - 1][1..];
      GetSkipsLast(m[1..], k);
    }
  }

  /** Dropping the newest entry of a dict leaves a dict without its key. */
  lemma ValidDropLast<K, V>(m: seq<(K, V)>)
    requires Valid(m) && |m| > 0
    ensures Valid(m[..|m| - 1]) && m[|m| - 1].0 !in Keys(m[..|m| - 1])
  {
    assert Keys(m[..|m| - 1]) == Keys(m)[..|m| - 1];
  }

  lemma PutValid<K(!new), V>(m: seq<(K, V)>, k: K, v: V)
    requires Valid(m)
    ensures Valid(Put(m, k, v))
  {
  }

  /** In a valid map, a pair present in the sequence is what `Get` returns. */
  lemma GetOfMember<K, V>(m: seq<(K, V)>, i: nat)
    requires Valid(m) && i < |m|
    ensures Get(m, m[i].0) == Some(m[i].1)
  {
    if i > 0 {
      assert Keys(m)[0] == m[0].0 && Keys(m)[i] == m[i].0;
      assert Keys(m[1..]) == Keys(m)[1..];
      GetOfMember(m[1..], i - 1);
    }
  }

  /** `del d[next(iter(d))]`: remove the oldest entry of a non-empty map. */
  function PopOldest<K(==,!new), V>(m: seq<(K, V)>): (r: seq<(K, V)>)
    requires Valid(m) && |m| > 0
    ensures Valid(r) && |r| == |m| - 1
    ensures Keys(r) == Keys(m)[1..]
    ensures Get(r, m[0].0) == None
    ensures forall k :: k != m[0].0 ==> Get(r, k) == Get(m, k)
  {
    assert Keys(m[1..]) == Keys(m)[1..];
    m[1..]
  }

  /** The key order after assigning `k`: unchanged if present, appended otherwise. */
  function AddKey<K(==)>(ks: seq<K>, k: K): seq<K> {
    if k in ks then ks else ks + [k]
  }

  /** The key order after assigning each of `newKeys` in turn. */
  function AddKeys<K(==)>(ks: seq<K>, newKeys: seq<K>): seq<K> {
    if |newKeys| == 0 then ks
    else AddKey(AddKeys(ks, newKeys[..|newKeys| - 1]), newKeys[|newKeys| - 1])
  }
}
