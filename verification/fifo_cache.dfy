/** The two bounded caches of the search engine (performance_fix_hybrid_search.py):
    the query-embedding cache (capacity 100) and the full-result cache (capacity 50).
    Both are plain dicts; before a store, a cache holding `capacity` or more entries
    drops its oldest key (the first in insertion order), whatever is being stored. */
module FifoCache {
  import opened Seqs
  import opened Wrappers
  import opened OrderedMap

  const EmbeddingCapacity: nat := 100
  const ResultCapacity: nat := 50

  datatype Cache<K, V> = Cache(entries: seq<(K, V)>, capacity: nat)

  /** A dict that never grew past its bound. */
  predicate Valid<K(==), V>(c: Cache<K, V>) {
    OrderedMap.Valid(c.entries) && 0 < c.capacity && |c.entries| <= c.capacity
  }

  function Empty<K, V>(capacity: nat): (c: Cache<K, V>)
    requires capacity > 0
    ensures |c.entries| == 0 && c.capacity == capacity
  {
    Cache([], capacity)
  }

  /** `cache.get(key)`; a hit returns exactly what was stored. */
  function Lookup<K(==), V>(c: Cache<K, V>, k: K): (r: Option<V>)
    ensures r.None? <==> k !in Keys(c.entries)
    ensures r.Some? ==> (k, r.value) in c.entries
  {
    GetIsMember(c.entries, k);
    Get(c.entries, k)
  }

  /** Evict the oldest entry when full, then `cache[k] = v`. */
  function Store<K(==,!new), V>(c: Cache<K, V>, k: K, v: V): (r: Cache<K, V>)
    requires Valid(c)
    ensures Valid(r) && r.capacity == c.capacity
    ensures Lookup(r, k) == Some(v)
    ensures forall k' :: k' != k && Lookup(r, k').Some? ==> Lookup(r, k') == Lookup(c, k')
  {
    var kept := if |c.entries| >= c.capacity then PopOldest(c.entries) else c.entries;
    PutValid(kept, k, v);
    Cache(Put(kept, k, v), c.capacity)
  }

  /** Below capacity nothing is evicted: a new key is appended and every other key
      keeps its value. */
  lemma StoreBelowCapacity<K(!new), V>(c: Cache<K, V>, k: K, v: V)
    requires Valid(c) && |c.entries| < c.capacity && k !in Keys(c.entries)
    ensures Keys(Store(c, k, v).entries) == Keys(c.entries) + [k]
    ensures forall k' :: k' != k ==> Lookup(Store(c, k, v), k') == Lookup(c, k')
  {
  }

  /** At capacity, storing a new key evicts exactly the oldest key: the key order
      shifts left by one and gains `k` at the end, and the oldest key is gone. */
  lemma StoreAtCapacity<K(!new), V>(c: Cache<K, V>, k: K, v: V)
    requires Valid(c) && |c.entries| == c.capacity && k !in Keys(c.entries)
    ensures Keys(Store(c, k, v).entries) == Keys(c.entries)[1..] + [k]
    ensures |Store(c, k, v).entries| == c.capacity
    ensures Lookup(Store(c, k, v), c.entries[0].0) == None
    ensures forall k' :: k' != k && k' != c.entries[0].0 ==>
              Lookup(Store(c, k, v), k') == Lookup(c, k')
  {
    assert Keys(c.entries)[0] == c.entries[0].0;
  }

  /** Storing a present key in a full cache evicts the oldest key even when it is a
      different one, so the cache shrinks by one. */
  lemma StoreKnownKeyWhenFull<K(!new), V>(c: Cache<K, V>, k: K, v: V)
    requires Valid(c) && |c.entries| == c.capacity && k in Keys(c.entries) && k != c.entries[0].0
    ensures |Store(c, k, v).entries| == c.capacity - 1
    ensures Lookup(Store(c, k, v), c.entries[0].0) == None
  {
    assert Keys(c.entries)[0] == c.entries[0].0;
    var kept := PopOldest(c.entries);
    assert k in Keys(kept) by {
      var i :| 0 <= i < |Keys(c.entries)| && Keys(c.entries)[i] == k;
      assert i != 0;
      assert Keys(kept)[i - 1] == k;
    }
  }

  /** Storing the oldest key itself in a full cache evicts it and puts it back at
      the end: the cache stays at capacity, the key order rotates by one, and the
      key now holds the new value. */
  lemma StoreOldestKeyWhenFull<K(!new), V>(c: Cache<K, V>, v: V)
    requires Valid(c) && |c.entries| == c.capacity
    ensures var k := c.entries[0].0;
      Keys(Store(c, k, v).entries) == Keys(c.entries)[1..] + [k] &&
      |Store(c, k, v).entries| == c.capacity &&
      Lookup(Store(c, k, v), k) == Some(v)
  {
    var k := c.entries[0].0;
    assert Keys(c.entries)[0] == k;
    assert k !in Keys(PopOldest(c.entries));
  }
}
