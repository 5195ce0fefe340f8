/** Grouping chunks by namespace and uploading each group in batches, as both
    embedding pipelines do (`upload_chunks_to_pinecone` in
    enhanced_intelligent_embedding.py with batches of 50, `upload_to_pinecone` in
    intelligent_data_embedding.py with batches of 100). Groups live in an
    insertion-ordered dict; the upload call itself is an oracle that reports
    whether a batch went through. */
module Grouping {
  import opened Seqs
  import opened Wrappers
  import opened OrderedMap
  import opened Text

  /** The elements of `xs` whose key is `k`, in order. */
  function Select<T>(xs: seq<T>, key: T -> String, k: String): (r: seq<T>)
    ensures |r| <= |xs|
    ensures forall i :: 0 <= i < |r| ==> key(r[i]) == k
  {
    if |xs| == 0 then []
    else
      var n := |xs| - 1;
      Select(xs[..n], key, k) + (if key(xs[n]) == k then [xs[n]] else [])
  }

  /** Nothing is selected when no element has the key. */
  lemma {:induction false} SelectNone<T>(xs: seq<T>, key: T -> String, k: String)
    requires forall i :: 0 <= i < |xs| ==> key(xs[i]) != k
    ensures Select(xs, key, k) == []
  {
    if |xs| > 0 {
      SelectNone(xs[..|xs| - 1], key, k);
    }
  }

  /** `groups.setdefault(k, []).append(x)`. */
  function AddToGroup<T>(g: seq<(String, seq<T>)>, k: String, x: T): seq<(String, seq<T>)> {
    Put(g, k, Get(g, k).GetOr([]) + [x])
  }

  /** The grouping loop: every element is appended to the group of its key; a
      key seen for the first time opens a new group at the end. */
  function GroupBy<T>(xs: seq<T>, key: T -> String): (g: seq<(String, seq<T>)>)
    ensures OrderedMap.Valid(g)
    ensures forall k :: Get(g, k).Some? <==> Select(xs, key, k) != []
    ensures forall k :: Get(g, k).Some? ==> Get(g, k).value == Select(xs, key, k)
  {
    if |xs| == 0 then []
    else
      var n := |xs| - 1;
      var g := GroupBy(xs[..n], key);
      PutValid(g, key(xs[n]), Get(g, key(xs[n])).GetOr([]) + [xs[n]]);
      AddToGroup(g, key(xs[n]), xs[n])
  }

  /** The number of elements over all groups. */
  function Total<T>(g: seq<(String, seq<T>)>): nat {
    if |g| == 0 then 0 else |g[0].1| + Total(g[1..])
  }

  /** Assigning a key replaces the size of its old list by the size of the new. */
  lemma {:induction false} PutTotal<T>(g: seq<(String, seq<T>)>, k: String, v: seq<T>)
    ensures Total(Put(g, k, v)) + |Get(g, k).GetOr([])| == Total(g) + |v|
  {
    if |g| > 0 && g[0].0 != k {
      PutTotal(g[1..], k, v);
    }
  }

  /** Every element lands in exactly one group, so the group sizes add up to
      the number of elements. */
  lemma {:induction false} GroupSizesSum<T>(xs: seq<T>, key: T -> String)
    ensures Total(GroupBy(xs, key)) == |xs|
  {
    if |xs| > 0 {
      var n := |xs| - 1;
      var g := GroupBy(xs[..n], key);
      GroupSizesSum(xs[..n], key);
      PutTotal(g, key(xs[n]), Get(g, key(xs[n])).GetOr([]) + [xs[n]]);
    }
  }

  /** An element belongs to the group of its own key and to no other. */
  lemma ElementInItsGroup<T>(xs: seq<T>, key: T -> String, i: nat, k: String)
    requires i < |xs|
    ensures Get(GroupBy(xs, key), k).Some? && xs[i] in Get(GroupBy(xs, key), k).value <==>
            xs[i] in Select(xs, key, k)
    ensures key(xs[i]) == k ==> xs[i] in Select(xs, key, k)
  {
    if key(xs[i]) == k {
      SelectKeeps(xs, key, i);
    }
  }

  lemma {:induction false} SelectKeeps<T>(xs: seq<T>, key: T -> String, i: nat)
    requires i < |xs|
    ensures xs[i] in Select(xs, key, key(xs[i]))
  {
    var n := |xs| - 1;
    if i < n {
      SelectKeeps(xs[..n], key, i);
      assert xs[..n][i] == xs[i];
    }
  }

  // ---------------------------------------------------------------------------
  // Batches

  /** `[xs[i:i + size] for i in range(0, len(xs), size)]`. */
  function Batches<T>(xs: seq<T>, size: nat): (r: seq<seq<T>>)
    requires size > 0
    ensures forall k :: 0 <= k < |r| ==> 0 < |r[k]| <= size
    ensures forall k :: 0 <= k < |r| - 1 ==> |r[k]| == size
    ensures Flatten(r) == xs
    decreases |xs|
  {
    if |xs| == 0 then []
    else
      var m := if size < |xs| then size else |xs|;
      var rest := Batches(xs[m..], size);
      assert ([xs[..m]] + rest)[1..] == rest;
      assert xs == xs[..m] + xs[m..];
      [xs[..m]] + rest
  }

  // ---------------------------------------------------------------------------
  // Upload

  /** What an upload reports: `namespace_counts` and the batches whose upload
      raised, as (namespace, 1-based batch number). */
  datatype Report = Report(counts: seq<(String, nat)>, failed: seq<(String, nat)>)

  /** The count recorded for each group: its size, whatever its batches did. */
  function Counts<T>(g: seq<(String, seq<T>)>): (r: seq<(String, nat)>)
    ensures Keys(r) == Keys(g)
    ensures Total(g) == SumCounts(r)
  {
    if |g| == 0 then [] else [(g[0].0, |g[0].1|)] + Counts(g[1..])
  }

  function SumCounts(c: seq<(String, nat)>): nat {
    if |c| == 0 then 0 else c[0].1 + SumCounts(c[1..])
  }

  /** The batches of one group whose upload failed, numbered from `from`. */
  function FailedBatches<T>(ns: String, batches: seq<seq<T>>, from: nat, upsert: (String, seq<T>) -> bool)
    : (r: seq<(String, nat)>)
    ensures |r| <= |batches|
    ensures forall i :: 0 <= i < |r| ==> r[i].0 == ns && from <= r[i].1 < from + |batches|
  {
    if |batches| == 0 then []
    else (if upsert(ns, batches[0]) then [] else [(ns, from)]) + FailedBatches(ns, batches[1..], from + 1, upsert)
  }

  function Failures<T>(g: seq<(String, seq<T>)>, size: nat, upsert: (String, seq<T>) -> bool)
    : (r: seq<(String, nat)>)
    requires size > 0
    ensures forall i :: 0 <= i < |r| ==> r[i].0 in Keys(g) && r[i].1 >= 1
  {
    if |g| == 0 then []
    else FailedBatches(g[0].0, Batches(g[0].1, size), 1, upsert) + Failures(g[1..], size, upsert)
  }

  /** Group `chunks` by `namespace`, upload each group in batches of `size`, and
      record each group's size. */
  function Upload<T>(chunks: seq<T>, namespace: T -> String, size: nat, upsert: (String, seq<T>) -> bool)
    : (r: Report)
    requires size > 0
    ensures forall ns :: Get(r.counts, ns).Some? <==> Select(chunks, namespace, ns) != []
    ensures forall ns :: Get(r.counts, ns).Some? ==> Get(r.counts, ns).value == |Select(chunks, namespace, ns)|
    ensures SumCounts(r.counts) == |chunks|
    ensures forall i :: 0 <= i < |r.failed| ==> Select(chunks, namespace, r.failed[i].0) != []
  {
    var g := GroupBy(chunks, namespace);
    GroupSizesSum(chunks, namespace);
    CountsGet(g);
    Report(Counts(g), Failures(g, size, upsert))
  }

  lemma {:induction false} CountsGet<T>(g: seq<(String, seq<T>)>)
    ensures forall ns :: Get(Counts(g), ns).Some? <==> Get(g, ns).Some?
    ensures forall ns :: Get(Counts(g), ns).Some? ==> Get(Counts(g), ns).value == |Get(g, ns).value|
  {
    if |g| > 0 {
      CountsGet(g[1..]);
    }
  }

  /** Failed uploads do not change the counts: two runs that differ only in
      which batches went through report the same counts. */
  lemma CountsIgnoreFailures<T>(chunks: seq<T>, namespace: T -> String, size: nat,
                                upsert: (String, seq<T>) -> bool, upsert': (String, seq<T>) -> bool)
    requires size > 0
    ensures Upload(chunks, namespace, size, upsert).counts == Upload(chunks, namespace, size, upsert').counts
  {
  }
}
