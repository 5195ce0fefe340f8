/** Score fusion of the vector and BM25 ranked lists
    (`_fast_fusion` in performance_fix_hybrid_search.py).

    Each list is walked in rank order. The i-th vector hit contributes
    `score * 0.7 * (1 - 0.05 * i)` and the j-th BM25 hit `score * 0.3 * (1 - 0.05 * j)`.
    Contributions are gathered in an insertion-ordered dict keyed by id: a vector hit
    overwrites (in place) any earlier vector hit with the same id, and a BM25 hit whose
    id is present adds its contribution and appends the "bm25" source label. The dict's
    values are then stably sorted by non-increasing score and cut to `top_k`.
    The engine's `alpha` and `fusion_method` settings play no part. */
module Fusion {
  import opened Seqs
  import opened Wrappers
  import opened OrderedMap
  import opened Sorting
  import opened Results

  const VectorWeight: real := 0.7
  const Bm25Weight: real := 0.3
  const RankPenalty: real := 0.05

  /** The position multiplier `1 - i * 0.05` for rank `i`. */
  function RankFactor(i: nat): real {
    1.0 - (i as real) * RankPenalty
  }

  /** One hit's weighted, rank-decayed contribution. */
  function Contribution(score: real, weight: real, i: nat): real {
    score * weight * RankFactor(i)
  }

  /** The dict entry written for the i-th vector hit. */
  function VectorEntry(h: Hit, i: nat): Fused {
    Fused(h.id, Contribution(h.score, VectorWeight, i), h.metadata, h.namespace, h.source, [Vector])
  }

  /** The dict entry written for the j-th BM25 hit when its id is new. */
  function Bm25Entry(h: Hit, j: nat): Fused {
    Fused(h.id, Contribution(h.score, Bm25Weight, j), h.metadata, h.namespace, h.source, [Bm25])
  }

  /** Every entry is stored under its own id. */
  ghost predicate WellKeyed(t: seq<(string, Fused)>) {
    Valid(t) && forall i :: 0 <= i < |t| ==> t[i].1.id == t[i].0
  }

  /** The dict after the vector loop over `hits` (the whole list, ranks 0, 1, ...). */
  function VectorPhase(hits: seq<Hit>): (t: seq<(string, Fused)>)
    ensures WellKeyed(t)
  {
    if |hits| == 0 then []
    else
      var n := |hits| - 1;
      var t := VectorPhase(hits[..n]);
      var r := Put(t, hits[n].id, VectorEntry(hits[n], n));
      PutWellKeyed(t, hits[n].id, VectorEntry(hits[n], n));
      r
  }

  /** A BM25 hit merged into an entry already present under its id. */
  function Merge(e: Fused, h: Hit, j: nat): Fused {
    e.(score := e.score + Contribution(h.score, Bm25Weight, j), sources := e.sources + [Bm25])
  }

  /** One iteration of the BM25 loop: merge into an existing entry, or add a new one. */
  function Bm25Step(t: seq<(string, Fused)>, h: Hit, j: nat): seq<(string, Fused)> {
    var g := Get(t, h.id);
    Put(t, h.id, if g.Some? then Merge(g.value, h, j) else Bm25Entry(h, j))
  }

  /** The dict after the BM25 loop over `hits`, starting from `t`. */
  function Bm25Phase(t: seq<(string, Fused)>, hits: seq<Hit>): (r: seq<(string, Fused)>)
    requires WellKeyed(t)
    ensures WellKeyed(r)
  {
    if |hits| == 0 then t
    else
      var n := |hits| - 1;
      var t' := Bm25Phase(t, hits[..n]);
      Bm25StepWellKeyed(t', hits[n], n);
      Bm25Step(t', hits[n], n)
  }

  /** The complete dict built from both lists. */
  function FusionTable(vectorHits: seq<Hit>, bm25Hits: seq<Hit>): (t: seq<(string, Fused)>)
    ensures WellKeyed(t)
  {
    Bm25Phase(VectorPhase(vectorHits), bm25Hits)
  }

  /** `_fast_fusion(vector_results, bm25_results, top_k)`. */
  function FastFusion(vectorHits: seq<Hit>, bm25Hits: seq<Hit>, topK: nat): (r: seq<Fused>)
    ensures |r| <= topK
    ensures |r| == if topK < |Keys(FusionTable(vectorHits, bm25Hits))| then topK else |Keys(FusionTable(vectorHits, bm25Hits))|
    ensures SortedDesc(r, FusedScore)
    ensures DistinctBy(r, FusedId)
    ensures forall k :: 0 <= k < |r| ==> r[k].id in HitIds(vectorHits) || r[k].id in HitIds(bm25Hits)
  {
    FusionRanked(vectorHits, bm25Hits, topK);
    Take(RankedEntries(vectorHits, bm25Hits), topK)
  }

  /** The dict's values, stably sorted by non-increasing fused score. */
  function RankedEntries(vectorHits: seq<Hit>, bm25Hits: seq<Hit>): seq<Fused> {
    SortDesc(Values(FusionTable(vectorHits, bm25Hits)), FusedScore)
  }

  lemma FusionRanked(vectorHits: seq<Hit>, bm25Hits: seq<Hit>, topK: nat)
    ensures var r := Take(RankedEntries(vectorHits, bm25Hits), topK);
      && SortedDesc(r, FusedScore)
      && DistinctBy(r, FusedId)
      && forall k :: 0 <= k < |r| ==> r[k].id in HitIds(vectorHits) || r[k].id in HitIds(bm25Hits)
  {
    var t := FusionTable(vectorHits, bm25Hits);
    var sorted := RankedEntries(vectorHits, bm25Hits);
    ValuesDistinctIds(t);
    SortKeepsDistinctBy(Values(t), FusedScore, FusedId);
    SortedIdsFromHits(vectorHits, bm25Hits);
    TakeSortedDistinct(sorted, topK, FusedScore, FusedId);
  }

  /** The dict has one entry per distinct id of the two lists, so the fused list
      holds `min(top_k, number of distinct ids)` results. */
  lemma FusionCount(vectorHits: seq<Hit>, bm25Hits: seq<Hit>)
    ensures |Keys(FusionTable(vectorHits, bm25Hits))| == |Elems(HitIds(vectorHits)) + Elems(HitIds(bm25Hits))|
  {
    var keys := Keys(FusionTable(vectorHits, bm25Hits));
    TableIds(vectorHits, bm25Hits);
    DistinctElems(keys);
    assert Elems(keys) == Elems(HitIds(vectorHits)) + Elems(HitIds(bm25Hits));
  }

  /** The fused list is the top `top_k` of the dict: an entry left out scores no
      higher than any returned result, and with at most `top_k` entries nothing
      is left out. */
  lemma FusionTopSelection(vectorHits: seq<Hit>, bm25Hits: seq<Hit>, topK: nat, e: Fused)
    requires e in Values(FusionTable(vectorHits, bm25Hits))
    ensures var r := FastFusion(vectorHits, bm25Hits, topK);
      (e !in r ==> forall k :: 0 <= k < |r| ==> e.score <= r[k].score) &&
      (|Keys(FusionTable(vectorHits, bm25Hits))| <= topK ==> e in r)
  {
    var sorted := RankedEntries(vectorHits, bm25Hits);
    assert e in multiset(sorted);
    var j :| 0 <= j < |sorted| && sorted[j] == e;
    var r := FastFusion(vectorHits, bm25Hits, topK);
    assert r == Take(sorted, topK);
    if e !in r {
      assert j >= |r|;
    }
  }

  /** Every sorted entry of the dict carries an id of one of the two lists. */
  lemma SortedIdsFromHits(vectorHits: seq<Hit>, bm25Hits: seq<Hit>)
    ensures forall k :: 0 <= k < |RankedEntries(vectorHits, bm25Hits)| ==>
      RankedEntries(vectorHits, bm25Hits)[k].id in HitIds(vectorHits)
      || RankedEntries(vectorHits, bm25Hits)[k].id in HitIds(bm25Hits)
  {
    var t := FusionTable(vectorHits, bm25Hits);
    var sorted := RankedEntries(vectorHits, bm25Hits);
    TableIds(vectorHits, bm25Hits);
    forall k | 0 <= k < |sorted|
      ensures sorted[k].id in HitIds(vectorHits) || sorted[k].id in HitIds(bm25Hits)
    {
      assert sorted[k] in multiset(Values(t));
      var i :| 0 <= i < |t| && Values(t)[i] == sorted[k];
      assert Keys(t)[i] == t[i].0;
    }
  }

  // ---------------------------------------------------------------------------
  // Well-keyedness and the id set of the dict

  lemma PutWellKeyed(t: seq<(string, Fused)>, k: string, e: Fused)
    requires WellKeyed(t) && e.id == k
    ensures WellKeyed(Put(t, k, e))
  {
    var r := Put(t, k, e);
    forall i | 0 <= i < |r| ensures r[i].1.id == r[i].0 {
      var k' := r[i].0;
      assert Keys(r)[i] == k';
      GetOfMember(r, i);
      if k' != k {
        assert Get(t, k') == Some(r[i].1);
        GetIsMember(t, k');
      }
    }
  }

  lemma Bm25StepWellKeyed(t: seq<(string, Fused)>, h: Hit, j: nat)
    requires WellKeyed(t)
    ensures WellKeyed(Bm25Step(t, h, j))
  {
    var g := Get(t, h.id);
    if g.Some? {
      GetIsMember(t, h.id);
    }
    PutWellKeyed(t, h.id, if g.Some? then Merge(g.value, h, j) else Bm25Entry(h, j));
  }

  lemma ValuesDistinctIds(t: seq<(string, Fused)>)
    requires WellKeyed(t)
    ensures DistinctBy(Values(t), FusedId)
  {
    assert forall i :: 0 <= i < |t| ==> Values(t)[i].id == Keys(t)[i];
  }

  /** The dict holds exactly the ids of the two lists. */
  lemma TableIds(vectorHits: seq<Hit>, bm25Hits: seq<Hit>)
    ensures forall k :: k in Keys(FusionTable(vectorHits, bm25Hits)) <==>
                        k in HitIds(vectorHits) || k in HitIds(bm25Hits)
  {
    VectorPhaseIds(vectorHits);
    Bm25PhaseIds(VectorPhase(vectorHits), bm25Hits);
  }

  lemma {:induction false} VectorPhaseIds(hits: seq<Hit>)
    ensures forall k :: k in Keys(VectorPhase(hits)) <==> k in HitIds(hits)
  {
    if |hits| > 0 {
      var n := |hits| - 1;
      VectorPhaseIds(hits[..n]);
      assert HitIds(hits) == HitIds(hits[..n]) + [hits[n].id];
    }
  }

  lemma {:induction false} Bm25PhaseIds(t: seq<(string, Fused)>, hits: seq<Hit>)
    requires WellKeyed(t)
    ensures forall k :: k in Keys(Bm25Phase(t, hits)) <==> k in Keys(t) || k in HitIds(hits)
  {
    if |hits| > 0 {
      var n := |hits| - 1;
      Bm25PhaseIds(t, hits[..n]);
      assert HitIds(hits) == HitIds(hits[..n]) + [hits[n].id];
    }
  }

  // ---------------------------------------------------------------------------
  // What each id's entry holds

  /** Rank `i` is the last occurrence of its id in `hits`. */
  predicate LastOccurrence(hits: seq<Hit>, i: nat) {
    i < |hits| && forall i' :: i < i' < |hits| ==> hits[i'].id != hits[i].id
  }

  /** Rank `j` is the first occurrence of its id in `hits`. */
  predicate FirstOccurrence(hits: seq<Hit>, j: nat) {
    j < |hits| && forall j' :: 0 <= j' < j ==> hits[j'].id != hits[j].id
  }

  /** Rank `j` is the only occurrence of its id in `hits`. */
  predicate OnlyOccurrence(hits: seq<Hit>, j: nat) {
    j < |hits| && forall j' :: 0 <= j' < |hits| && j' != j ==> hits[j'].id != hits[j].id
  }

  /** The BM25 contributions of every occurrence of id `d`, summed. */
  function Bm25Total(hits: seq<Hit>, d: string): real {
    if |hits| == 0 then 0.0
    else
      var n := |hits| - 1;
      Bm25Total(hits[..n], d) + (if hits[n].id == d then Contribution(hits[n].score, Bm25Weight, n) else 0.0)
  }

  /** One "bm25" label per occurrence of id `d`. */
  function Bm25Labels(hits: seq<Hit>, d: string): seq<Source> {
    if |hits| == 0 then []
    else
      var n := |hits| - 1;
      Bm25Labels(hits[..n], d) + (if hits[n].id == d then [Bm25] else [])
  }

  /** An id the BM25 list does not hold tallies nothing. */
  lemma {:induction false} TallyAbsent(hits: seq<Hit>, d: string)
    requires d !in HitIds(hits)
    ensures Bm25Total(hits, d) == 0.0 && Bm25Labels(hits, d) == []
  {
    if |hits| > 0 {
      var n := |hits| - 1;
      assert HitIds(hits)[n] == hits[n].id;
      assert HitIds(hits[..n]) == HitIds(hits)[..n];
      TallyAbsent(hits[..n], d);
    }
  }

  /** Entry `e` for id `d` after the BM25 loop merged every occurrence of `d` into it. */
  function Absorbed(e: Fused, hits: seq<Hit>, d: string): Fused {
    e.(score := e.score + Bm25Total(hits, d), sources := e.sources + Bm25Labels(hits, d))
  }

  /** The entry the BM25 loop builds for an id it meets first at rank `j`: the
      fields of that hit, the contributions of all occurrences and one label each. */
  function NewFromBm25(hits: seq<Hit>, j: nat): Fused
    requires j < |hits|
  {
    Bm25Entry(hits[j], j).(score := Bm25Total(hits, hits[j].id), sources := Bm25Labels(hits, hits[j].id))
  }

  /** One iteration of the vector loop, seen from id `d`. */
  lemma VectorPhaseStep(hits: seq<Hit>, d: string)
    requires |hits| > 0
    ensures var n := |hits| - 1;
      Get(VectorPhase(hits), d) == if hits[n].id == d then Some(VectorEntry(hits[n], n)) else Get(VectorPhase(hits[..n]), d)
  {
  }

  /** One iteration of the BM25 loop, seen from id `d`. */
  lemma Bm25PhaseStep(t: seq<(string, Fused)>, hits: seq<Hit>, d: string)
    requires WellKeyed(t) && |hits| > 0
    ensures var n := |hits| - 1;
      var g := Get(Bm25Phase(t, hits[..n]), d);
      Get(Bm25Phase(t, hits), d) ==
        if hits[n].id != d then g
        else Some(if g.Some? then Merge(g.value, hits[n], n) else Bm25Entry(hits[n], n))
  {
    var n := |hits| - 1;
    assert Bm25Phase(t, hits) == Bm25Step(Bm25Phase(t, hits[..n]), hits[n], n);
  }

  /** A last occurrence before the final rank stays one without that rank. */
  lemma LastOccurrencePrefix(hits: seq<Hit>, i: nat)
    requires LastOccurrence(hits, i) && i < |hits| - 1
    ensures var n := |hits| - 1;
      hits[..n][i] == hits[i] && LastOccurrence(hits[..n], i) && hits[n].id != hits[i].id
  {
  }

  /** An only occurrence is absent from the ranks around it: before it when it is
      the final rank, and at the final rank otherwise. */
  lemma OnlyOccurrencePrefix(hits: seq<Hit>, j: nat)
    requires OnlyOccurrence(hits, j)
    ensures var n := |hits| - 1;
      if j == n then hits[j].id !in HitIds(hits[..n])
      else hits[..n][j] == hits[j] && OnlyOccurrence(hits[..n], j) && hits[n].id != hits[j].id
  {
    var n := |hits| - 1;
    if j == n {
      forall k | 0 <= k < n
        ensures HitIds(hits[..n])[k] != hits[j].id
      {
        assert hits[..n][k] == hits[k];
      }
    }
  }

  /** Reference lookup: the entry written by the last vector occurrence of `d`. */
  function LastVectorEntry(hits: seq<Hit>, d: string): (r: Option<Fused>)
    ensures r.Some? ==> r.value.id == d && r.value.sources == [Vector]
  {
    if |hits| == 0 then None
    else if hits[|hits| - 1].id == d then Some(VectorEntry(hits[|hits| - 1], |hits| - 1))
    else LastVectorEntry(hits[..|hits| - 1], d)
  }

  /** The vector loop's dict agrees with the reference lookup on every id. */
  lemma {:induction false} VectorPhaseGet(hits: seq<Hit>, d: string)
    ensures Get(VectorPhase(hits), d) == LastVectorEntry(hits, d)
  {
    if |hits| > 0 {
      VectorPhaseStep(hits, d);
      VectorPhaseGet(hits[..|hits| - 1], d);
    }
  }

  lemma {:induction false} LastVectorEntryAt(hits: seq<Hit>, i: nat)
    requires LastOccurrence(hits, i)
    ensures LastVectorEntry(hits, hits[i].id) == Some(VectorEntry(hits[i], i))
  {
    var n := |hits| - 1;
    if i < n {
      LastOccurrencePrefix(hits, i);
      LastVectorEntryAt(hits[..n], i);
    }
  }

  lemma VectorPhaseLast(hits: seq<Hit>, i: nat)
    requires LastOccurrence(hits, i)
    ensures Get(VectorPhase(hits), hits[i].id) == Some(VectorEntry(hits[i], i))
  {
    VectorPhaseGet(hits, hits[i].id);
    LastVectorEntryAt(hits, i);
  }


  lemma VectorPhaseAbsent(hits: seq<Hit>, d: string)
    requires d !in HitIds(hits)
    ensures Get(VectorPhase(hits), d) == None
  {
    VectorPhaseIds(hits);
  }

  lemma {:induction false} Bm25PhaseKeeps(t: seq<(string, Fused)>, hits: seq<Hit>, d: string)
    requires WellKeyed(t) && d !in HitIds(hits)
    ensures Get(Bm25Phase(t, hits), d) == Get(t, d)
  {
    if |hits| > 0 {
      var n := |hits| - 1;
      assert hits[n].id != d by {
        assert HitIds(hits)[n] == hits[n].id;
      }
      assert d !in HitIds(hits[..n]) by {
        assert HitIds(hits[..n]) == HitIds(hits)[..n];
      }
      Bm25PhaseKeeps(t, hits[..n], d);
      Bm25PhaseStep(t, hits, d);
    }
  }

  lemma {:induction false} Bm25PhasePresent(t: seq<(string, Fused)>, hits: seq<Hit>, d: string)
    requires WellKeyed(t) && Get(t, d).Some?
    ensures Get(Bm25Phase(t, hits), d) == Some(Absorbed(Get(t, d).value, hits, d))
  {
    if |hits| > 0 {
      var n := |hits| - 1;
      Bm25PhasePresent(t, hits[..n], d);
      Bm25PhaseStep(t, hits, d);
      AbsorbStep(Get(t, d).value, hits, d);
    } else {
      AbsorbNothing(Get(t, d).value, hits, d);
    }
  }

  /** An id with no BM25 occurrence leaves its entry as it was. */
  lemma AbsorbNothing(e: Fused, hits: seq<Hit>, d: string)
    requires d !in HitIds(hits)
    ensures Absorbed(e, hits, d) == e
  {
    TallyAbsent(hits, d);
    assert e.sources + Bm25Labels(hits, d) == e.sources;
  }

  /** An id occurring once in the BM25 list is merged once. */
  lemma AbsorbSingle(e: Fused, hits: seq<Hit>, j: nat)
    requires OnlyOccurrence(hits, j)
    ensures Absorbed(e, hits, hits[j].id) == Merge(e, hits[j], j)
  {
    SingleOccurrence(hits, j);
  }

  /** Merging occurrence `n` into the entry absorbed over the first `n` hits. */
  lemma AbsorbStep(e: Fused, hits: seq<Hit>, d: string)
    requires |hits| > 0
    ensures var n := |hits| - 1;
      Absorbed(e, hits, d) ==
        if hits[n].id == d then Merge(Absorbed(e, hits[..n], d), hits[n], n) else Absorbed(e, hits[..n], d)
  {
    var n := |hits| - 1;
    assert Bm25Labels(hits, d) == Bm25Labels(hits[..n], d) + (if hits[n].id == d then [Bm25] else []);
  }

  lemma {:induction false} Bm25PhaseNew(t: seq<(string, Fused)>, hits: seq<Hit>, j: nat)
    requires WellKeyed(t) && FirstOccurrence(hits, j) && Get(t, hits[j].id).None?
    ensures Get(Bm25Phase(t, hits), hits[j].id) == Some(NewFromBm25(hits, j))
  {
    var n := |hits| - 1;
    var d := hits[j].id;
    Bm25PhaseStep(t, hits, d);
    if n == j {
      assert d !in HitIds(hits[..n]);
      Bm25PhaseKeeps(t, hits[..n], d);
      NewFirst(hits);
    } else {
      assert hits[..n][j] == hits[j];
      assert FirstOccurrence(hits[..n], j);
      Bm25PhaseNew(t, hits[..n], j);
      NewStep(hits, j);
    }
  }

  /** The BM25 tallies of id `d` over `hits`, one occurrence at a time. */
  lemma Bm25TallyStep(hits: seq<Hit>, d: string)
    requires |hits| > 0
    ensures var n := |hits| - 1;
      Bm25Total(hits, d) == Bm25Total(hits[..n], d) + (if hits[n].id == d then Contribution(hits[n].score, Bm25Weight, n) else 0.0) &&
      Bm25Labels(hits, d) == Bm25Labels(hits[..n], d) + (if hits[n].id == d then [Bm25] else [])
  {
  }

  /** The new entry of an id whose first occurrence is the last hit. */
  lemma NewFirst(hits: seq<Hit>)
    requires |hits| > 0 && hits[|hits| - 1].id !in HitIds(hits[..|hits| - 1])
    ensures NewFromBm25(hits, |hits| - 1) == Bm25Entry(hits[|hits| - 1], |hits| - 1)
  {
    var n := |hits| - 1;
    TallyAbsent(hits[..n], hits[n].id);
    assert Bm25Total(hits, hits[n].id) == 0.0 + Contribution(hits[n].score, Bm25Weight, n);
    assert Bm25Labels(hits, hits[n].id) == [] + [Bm25];
  }

  /** Merging occurrence `n > j` into the new entry built over the first `n` hits. */
  lemma NewStep(hits: seq<Hit>, j: nat)
    requires j < |hits| - 1
    ensures var n := |hits| - 1;
      NewFromBm25(hits, j) ==
        if hits[n].id == hits[j].id then Merge(NewFromBm25(hits[..n], j), hits[n], n) else NewFromBm25(hits[..n], j)
  {
    var n := |hits| - 1;
    assert hits[..n][j] == hits[j];
    Bm25TallyStep(hits, hits[j].id);
  }

  /** An id occurring once contributes once and is labelled once. */
  lemma SingleOccurrence(hits: seq<Hit>, j: nat)
    requires OnlyOccurrence(hits, j)
    ensures Bm25Total(hits, hits[j].id) == Contribution(hits[j].score, Bm25Weight, j)
    ensures Bm25Labels(hits, hits[j].id) == [Bm25]
  {
    SingleTotal(hits, j);
    SingleLabels(hits, j);
  }

  lemma {:induction false} SingleTotal(hits: seq<Hit>, j: nat)
    requires OnlyOccurrence(hits, j)
    ensures Bm25Total(hits, hits[j].id) == Contribution(hits[j].score, Bm25Weight, j)
  {
    var n := |hits| - 1;
    var d := hits[j].id;
    OnlyOccurrencePrefix(hits, j);
    assert Bm25Total(hits, d) == Bm25Total(hits[..n], d) + (if hits[n].id == d then Contribution(hits[n].score, Bm25Weight, n) else 0.0);
    if j < n {
      SingleTotal(hits[..n], j);
    } else {
      TallyAbsent(hits[..n], d);
    }
  }

  lemma {:induction false} SingleLabels(hits: seq<Hit>, j: nat)
    requires OnlyOccurrence(hits, j)
    ensures Bm25Labels(hits, hits[j].id) == [Bm25]
  {
    var n := |hits| - 1;
    var d := hits[j].id;
    OnlyOccurrencePrefix(hits, j);
    assert Bm25Labels(hits, d) == Bm25Labels(hits[..n], d) + (if hits[n].id == d then [Bm25] else []);
    if j < n {
      SingleLabels(hits[..n], j);
    } else {
      TallyAbsent(hits[..n], d);
    }
  }

  /** An id of the vector list is stored with the entry of its last vector
      occurrence (a later duplicate overwrites an earlier one); every BM25
      occurrence of the id then adds its contribution and a "bm25" label. */
  lemma FusionEntryVector(vectorHits: seq<Hit>, bm25Hits: seq<Hit>, i: nat)
    requires LastOccurrence(vectorHits, i)
    ensures Get(FusionTable(vectorHits, bm25Hits), vectorHits[i].id) ==
        Some(Absorbed(VectorEntry(vectorHits[i], i), bm25Hits, vectorHits[i].id))
  {
    VectorPhaseLast(vectorHits, i);
    Bm25PhasePresent(VectorPhase(vectorHits), bm25Hits, vectorHits[i].id);
  }

  /** An id only the BM25 list has is stored with the fields of its first
      occurrence, the contributions of all its occurrences summed, and one
      "bm25" label per occurrence. */
  lemma FusionEntryBm25Only(vectorHits: seq<Hit>, bm25Hits: seq<Hit>, j: nat)
    requires FirstOccurrence(bm25Hits, j) && bm25Hits[j].id !in HitIds(vectorHits)
    ensures Get(FusionTable(vectorHits, bm25Hits), bm25Hits[j].id) == Some(NewFromBm25(bm25Hits, j))
  {
    VectorPhaseAbsent(vectorHits, bm25Hits[j].id);
    Bm25PhaseNew(VectorPhase(vectorHits), bm25Hits, j);
  }

  /** An id in both lists, occurring once in the BM25 list, is fused into one
      entry holding its last vector hit's fields, the score
      v*0.7*(1-0.05i) + b*0.3*(1-0.05j) and the sources ["vector", "bm25"]. */
  lemma FusionEntryBoth(vectorHits: seq<Hit>, bm25Hits: seq<Hit>, i: nat, j: nat)
    requires LastOccurrence(vectorHits, i) && OnlyOccurrence(bm25Hits, j)
    requires vectorHits[i].id == bm25Hits[j].id
    ensures Get(FusionTable(vectorHits, bm25Hits), vectorHits[i].id) ==
        Some(Merge(VectorEntry(vectorHits[i], i), bm25Hits[j], j))
  {
    FusionEntryVector(vectorHits, bm25Hits, i);
    AbsorbSingle(VectorEntry(vectorHits[i], i), bm25Hits, j);
  }

  /** The merged entry of an id in both lists, written out field by field. */
  lemma MergedEntry(v: Hit, b: Hit, i: nat, j: nat)
    ensures Merge(VectorEntry(v, i), b, j) ==
      Fused(v.id, Contribution(v.score, VectorWeight, i) + Contribution(b.score, Bm25Weight, j),
            v.metadata, v.namespace, v.source, [Vector, Bm25])
  {
    assert [Vector] + [Bm25] == [Vector, Bm25];
  }

  /** An id only the vector list has keeps its last vector hit's fields and contribution. */
  lemma FusionEntryVectorOnly(vectorHits: seq<Hit>, bm25Hits: seq<Hit>, i: nat)
    requires LastOccurrence(vectorHits, i) && vectorHits[i].id !in HitIds(bm25Hits)
    ensures Get(FusionTable(vectorHits, bm25Hits), vectorHits[i].id) == Some(VectorEntry(vectorHits[i], i))
  {
    FusionEntryVector(vectorHits, bm25Hits, i);
    AbsorbNothing(VectorEntry(vectorHits[i], i), bm25Hits, vectorHits[i].id);
  }

  /** An id occurring once in the BM25 list only keeps that hit's fields and contribution. */
  lemma FusionEntryBm25Single(vectorHits: seq<Hit>, bm25Hits: seq<Hit>, j: nat)
    requires OnlyOccurrence(bm25Hits, j) && bm25Hits[j].id !in HitIds(vectorHits)
    ensures Get(FusionTable(vectorHits, bm25Hits), bm25Hits[j].id) == Some(Bm25Entry(bm25Hits[j], j))
  {
    FusionEntryBm25Only(vectorHits, bm25Hits, j);
    SingleOccurrence(bm25Hits, j);
  }

  /** Every fused result is the dict's entry for its id. */
  lemma FusedAreTableEntries(vectorHits: seq<Hit>, bm25Hits: seq<Hit>, topK: nat)
    ensures forall k :: 0 <= k < |FastFusion(vectorHits, bm25Hits, topK)| ==>
      var r := FastFusion(vectorHits, bm25Hits, topK);
      Get(FusionTable(vectorHits, bm25Hits), r[k].id) == Some(r[k])
  {
    var t := FusionTable(vectorHits, bm25Hits);
    var sorted := SortDesc(Values(t), FusedScore);
    var r := FastFusion(vectorHits, bm25Hits, topK);
    assert r == Take(sorted, topK);
    forall k | 0 <= k < |r| ensures Get(t, r[k].id) == Some(r[k]) {
      assert r[k] == sorted[k];
      assert sorted[k] in multiset(Values(t));
      var i :| 0 <= i < |t| && Values(t)[i] == sorted[k];
      GetOfMember(t, i);
    }
  }

  // ---------------------------------------------------------------------------
  // Order

  /** Dict order is first-insertion order: vector ids in rank order, then the
      ids seen only by BM25, in rank order. */
  lemma TableOrder(vectorHits: seq<Hit>, bm25Hits: seq<Hit>)
    ensures Keys(FusionTable(vectorHits, bm25Hits)) == AddKeys(AddKeys([], HitIds(vectorHits)), HitIds(bm25Hits))
  {
    VectorPhaseOrder(vectorHits);
    Bm25PhaseOrder(VectorPhase(vectorHits), bm25Hits);
  }

  lemma {:induction false} VectorPhaseOrder(hits: seq<Hit>)
    ensures Keys(VectorPhase(hits)) == AddKeys([], HitIds(hits))
  {
    if |hits| > 0 {
      var n := |hits| - 1;
      VectorPhaseOrder(hits[..n]);
      assert HitIds(hits)[..n] == HitIds(hits[..n]);
    }
  }

  lemma {:induction false} Bm25PhaseOrder(t: seq<(string, Fused)>, hits: seq<Hit>)
    requires WellKeyed(t)
    ensures Keys(Bm25Phase(t, hits)) == AddKeys(Keys(t), HitIds(hits))
  {
    if |hits| > 0 {
      var n := |hits| - 1;
      Bm25PhaseOrder(t, hits[..n]);
      assert HitIds(hits)[..n] == HitIds(hits[..n]);
    }
  }

  /** Ties keep dict order: for every score, the fused results carrying it are a
      prefix of the dict's entries carrying it, in dict order. */
  lemma FusionTieOrder(vectorHits: seq<Hit>, bm25Hits: seq<Hit>, topK: nat, v: real)
    ensures WithKey(FastFusion(vectorHits, bm25Hits, topK), FusedScore, v)
            <= WithKey(Values(FusionTable(vectorHits, bm25Hits)), FusedScore, v)
  {
    var sorted := SortDesc(Values(FusionTable(vectorHits, bm25Hits)), FusedScore);
    if topK < |sorted| {
      WithKeyOfPrefix(sorted, topK, FusedScore, v);
    }
  }

  /** The rank multiplier is positive exactly for the first twenty ranks. */
  lemma RankFactorPositive(i: nat)
    ensures RankFactor(i) > 0.0 <==> i < 20
  {
  }

  // ---------------------------------------------------------------------------
  // Worked examples

  /** [A:0.9] fused with [A:5.0], top_k 1: one result A with score
      0.9*0.7 + 5.0*0.3 = 2.13, sources ["vector", "bm25"], vector metadata kept. */
  lemma ExampleSameIdInBothLists(mv: Metadata, mb: Metadata)
    ensures FastFusion([Hit("A", 0.9, mv, "ns", Vector)], [Hit("A", 5.0, mb, "ns", Bm25)], 1)
            == [Fused("A", 2.13, mv, "ns", Vector, [Vector, Bm25])]
  {
    var vh, bh := Hit("A", 0.9, mv, "ns", Vector), Hit("A", 5.0, mb, "ns", Bm25);
    assert [vh][..0] == [] && [bh][..0] == [];
    var t0 := VectorPhase([vh]);
    assert VectorPhase([vh][..0]) == [];
    assert t0 == Put([], "A", VectorEntry(vh, 0));
    assert t0 == [("A", VectorEntry(vh, 0))];
    assert Get(t0, "A") == Some(VectorEntry(vh, 0));
    var e := Merge(VectorEntry(vh, 0), bh, 0);
    assert Bm25Phase(t0, [bh][..0]) == t0;
    assert Bm25Phase(t0, [bh]) == Bm25Step(t0, bh, 0) == Put(t0, "A", e);
    assert Put(t0, "A", e) == [("A", e)];
    assert e == Fused("A", 2.13, mv, "ns", Vector, [Vector, Bm25]);
    assert Values([("A", e)]) == [e];
  }

  /** A vector id met twice (the same id returned by two namespaces) keeps the
      later, lower-ranked hit: [A:1.0, A:0.5] gives A at 0.5*0.7*0.95 = 0.3325. */
  lemma ExampleDuplicateVectorOverwrites(m1: Metadata, m2: Metadata)
    ensures FastFusion([Hit("A", 1.0, m1, "ns1", Vector), Hit("A", 0.5, m2, "ns2", Vector)], [], 1)
            == [Fused("A", 0.3325, m2, "ns2", Vector, [Vector])]
  {
    var h1, h2 := Hit("A", 1.0, m1, "ns1", Vector), Hit("A", 0.5, m2, "ns2", Vector);
    var e := Fused("A", 0.3325, m2, "ns2", Vector, [Vector]);
    assert [h1, h2][..1] == [h1] && [h1][..0] == [];
    assert VectorPhase([h1]) == [("A", VectorEntry(h1, 0))];
    assert VectorEntry(h2, 1) == e;
    assert VectorPhase([h1, h2]) == Put([("A", VectorEntry(h1, 0))], "A", e) == [("A", e)];
    assert FusionTable([h1, h2], []) == [("A", e)];
    assert Values([("A", e)]) == [e];
    assert SortDesc([e], FusedScore) == [e];
  }

  /** A BM25 id met twice adds both contributions and two "bm25" labels:
      [A:1.0, A:1.0] gives A at 1.0*0.3 + 1.0*0.3*0.95 = 0.585. */
  lemma ExampleDuplicateBm25Adds(m1: Metadata, m2: Metadata)
    ensures FastFusion([], [Hit("A", 1.0, m1, "ns1", Bm25), Hit("A", 1.0, m2, "ns2", Bm25)], 1)
            == [Fused("A", 0.585, m1, "ns1", Bm25, [Bm25, Bm25])]
  {
    var h1, h2 := Hit("A", 1.0, m1, "ns1", Bm25), Hit("A", 1.0, m2, "ns2", Bm25);
    var e1 := Bm25Entry(h1, 0);
    var e := Fused("A", 0.585, m1, "ns1", Bm25, [Bm25, Bm25]);
    assert [h1, h2][..1] == [h1] && [h1][..0] == [];
    assert VectorPhase([]) == [];
    assert Bm25Phase([], [h1]) == Bm25Step([], h1, 0) == [("A", e1)];
    assert Merge(e1, h2, 1) == e;
    assert Bm25Phase([], [h1, h2]) == Bm25Step([("A", e1)], h2, 1) == [("A", e)];
    assert Values([("A", e)]) == [e];
    assert SortDesc([e], FusedScore) == [e];
  }

  /** Scores can tie (the output is non-increasing, not strictly decreasing), and a
      tie keeps the vector hit ahead of the BM25-only hit: 0.3*0.7 = 0.7*0.3. */
  lemma ExampleTie(m: Metadata)
    ensures FastFusion([Hit("A", 0.3, m, "ns", Vector)], [Hit("B", 0.7, m, "ns", Bm25)], 2)
            == [Fused("A", 0.21, m, "ns", Vector, [Vector]), Fused("B", 0.21, m, "ns", Bm25, [Bm25])]
  {
    var vh, bh := Hit("A", 0.3, m, "ns", Vector), Hit("B", 0.7, m, "ns", Bm25);
    assert [vh][..0] == [] && [bh][..0] == [];
    var t0 := VectorPhase([vh]);
    assert VectorPhase([vh][..0]) == [];
    assert t0 == Put([], "A", VectorEntry(vh, 0));
    assert t0 == [("A", VectorEntry(vh, 0))];
    assert Get(t0, "B") == None;
    var a, b := Fused("A", 0.21, m, "ns", Vector, [Vector]), Fused("B", 0.21, m, "ns", Bm25, [Bm25]);
    assert VectorEntry(vh, 0) == a && Bm25Entry(bh, 0) == b;
    assert Bm25Phase(t0, [bh][..0]) == t0;
    assert Bm25Phase(t0, [bh]) == Bm25Step(t0, bh, 0) == Put(t0, "B", b);
    assert Put(t0, "B", b) == [("A", a), ("B", b)];
    assert Values([("A", a), ("B", b)]) == [a, b];
    assert SortDesc([b], FusedScore) == [b];
    assert SortDesc([a, b], FusedScore) == Insert(a, [b], FusedScore);
  }
}
