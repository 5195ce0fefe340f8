/** `PerformanceOptimizedHybridSearch.fast_search` (performance_fix_hybrid_search.py):
    the result cache, the query-embedding cache, the counters, and the three
    retrieval steps (targeted vector search, BM25 search, fusion) in the order the
    engine runs them. The embedding model, the vector index, BM25 scoring, the
    listing order of a Python set and the clock are parameters. */
module Engine {
  import opened Seqs
  import opened Wrappers
  import opened Text
  import opened Results
  import opened Sorting
  import opened FifoCache
  import opened Stats
  import opened CacheKeys
  import opened NamespaceMapper
  import opened VectorSearch
  import opened Fusion
  import Lexical

  /** A normalised query embedding; its arithmetic is left to the embedding model. */
  type Embedding = seq<real>

  /** The engine's state after construction: the index's namespaces, the
      namespace mapper it routes with (the module-level instance), the BM25 corpus
      and index, the two caches and the counters. */
  datatype Engine = Engine(
    namespaces: seq<String>,
    mapper: Mapper,
    lexicon: Lexical.Lexicon,
    embeddings: Cache<String, Embedding>,
    results: Cache<String, seq<Fused>>,
    stats: Stats)

  /** The remote and foreign parts of one call:
      - `encode(q)`: the embedding model's encoding of `q`, normalised; `Failure` when
        it raised;
      - `query(v, k, ns)`: the vector index's `k` best matches for `v` in namespace
        `ns`; `None` when that query raised;
      - `scorer(tokenized, tokens)`: BM25Okapi's `get_scores`;
      - `listing(s)`: the order in which `list(s)` lists a set of names. */
  datatype Services = Services(
    encode: String -> Result<Embedding, String>,
    query: (Embedding, nat, String) -> Option<seq<Match>>,
    scorer: (seq<seq<String>>, seq<String>) -> seq<real>,
    listing: set<String> -> seq<String>)

  /** Both caches within their capacities, every cached result list ranked, a
      well-formed BM25 corpus and index, and no more cache hits than queries. */
  ghost predicate Valid(e: Engine) {
    FifoCache.Valid(e.embeddings) && e.embeddings.capacity == EmbeddingCapacity &&
    FifoCache.Valid(e.results) && e.results.capacity == ResultCapacity &&
    WellRanked(e.results) &&
    Lexical.Valid(e.lexicon) &&
    e.stats.cacheHits <= e.stats.queries
  }

  /** The constructor: the namespaces the index reports, the mapper (the
      module-level `SemanticMapper` in the program), the BM25 index built from a
      sample of each namespace with `_tokenize_documents_fast` under the stopword
      set `stop` (NLTK's English list, or the fallback list when NLTK cannot be
      loaded), empty caches and zero counters. */
  function NewEngine(namespaces: seq<String>, mapper: Mapper, sample: String -> Option<seq<Match>>, stop: set<String>)
    : (e: Engine)
    ensures Valid(e)
    ensures e.stats == Initial && e.mapper == mapper
    ensures |e.results.entries| == 0 && |e.embeddings.entries| == 0
    ensures e.lexicon.corpus == Lexical.CollectCorpus(namespaces, sample)
    ensures Lexical.TokenizedFrom(e.lexicon, Lexical.Tokenizer(stop))
  {
    Engine(namespaces, mapper, Lexical.Build(namespaces, sample, Lexical.Tokenizer(stop)), Empty(EmbeddingCapacity), Empty(ResultCapacity), Initial)
  }

  // ---------------------------------------------------------------------------
  // The query embedding

  /** `_get_cached_embedding(query)`: the cached embedding under the stripped,
      lower-cased query if there is one (a cache hit), else the model's encoding of
      the query as given, stored under that key. */
  function CachedEmbedding(e: Engine, query: String, encode: String -> Result<Embedding, String>)
    : (r: (Engine, Result<Embedding, String>))
    requires Valid(e) && e.stats.cacheHits < e.stats.queries
    ensures Valid(r.0)
    ensures r.0.namespaces == e.namespaces && r.0.mapper == e.mapper && r.0.lexicon == e.lexicon
    ensures r.0.results == e.results
    ensures r.0.stats.queries == e.stats.queries && r.0.stats.avgTime == e.stats.avgTime
    ensures Lookup(e.embeddings, EmbeddingKey(query)).Some? ==>
              r.1 == Success(Lookup(e.embeddings, EmbeddingKey(query)).value) &&
              r.0.embeddings == e.embeddings && r.0.stats == CountEmbeddingHit(e.stats)
    ensures Lookup(e.embeddings, EmbeddingKey(query)).None? ==>
              r.1 == encode(query) && r.0.stats == e.stats &&
              (r.1.Success? ==> Lookup(r.0.embeddings, EmbeddingKey(query)) == Some(r.1.value)) &&
              (r.1.Failure? ==> r.0 == e)
  {
    var key := EmbeddingKey(query);
    match Lookup(e.embeddings, key)
    case Some(v) => (e.(stats := CountEmbeddingHit(e.stats)), Success(v))
    case None =>
      match encode(query)
      case Failure(err) => (e, Failure(err))
      case Success(v) => (e.(embeddings := Store(e.embeddings, key, v)), Success(v))
  }

  // ---------------------------------------------------------------------------
  // One search

  /** The vector index's query for one embedding and `top_k`, as a function of the
      namespace. */
  function QueryWith(svc: Services, v: Embedding, topK: nat): String -> Option<seq<Match>> {
    ns => svc.query(v, topK, ns)
  }

  /** `_fast_semantic_search` in this engine. */
  function VectorHits(e: Engine, query: String, v: Embedding, topK: nat, svc: Services): (r: seq<Hit>)
    ensures |r| <= topK
    ensures SortedDesc(r, HitScore)
  {
    SemanticSearch(svc.listing(Routed(e.mapper, query)), e.namespaces, topK, QueryWith(svc, v, topK))
  }

  /** `fast_search(query, top_k)` taking `elapsed` seconds: the engine after the
      call and what the call returned or raised. */
  function FastSearch(e: Engine, query: String, topK: nat, svc: Services, elapsed: real)
    : (r: (Engine, Result<seq<Fused>, String>))
    requires Valid(e)
    ensures Valid(r.0)
    ensures r.0.namespaces == e.namespaces && r.0.mapper == e.mapper && r.0.lexicon == e.lexicon
    ensures r.0.stats.queries == e.stats.queries + 1
    ensures r.1.Success? ==> Ranked(r.1.value, topK)
    // A cached result is returned as stored; nothing but the two counters changes.
    ensures Lookup(e.results, ResultKey(query, topK)).Some? ==>
              r.1 == Success(Lookup(e.results, ResultKey(query, topK)).value) &&
              r.0.results == e.results && r.0.embeddings == e.embeddings &&
              r.0.stats.cacheHits == e.stats.cacheHits + 1 && r.0.stats.avgTime == e.stats.avgTime
    // A computed result is cached under its key.
    ensures Lookup(e.results, ResultKey(query, topK)).None? && r.1.Success? ==>
              Lookup(r.0.results, ResultKey(query, topK)) == Some(r.1.value)
    // Raising leaves the result cache alone.
    ensures r.1.Failure? ==> r.0.results == e.results
    ensures r.1.Failure? <==>
              Lookup(e.results, ResultKey(query, topK)).None? &&
              ((Lookup(e.embeddings, EmbeddingKey(query)).None? && svc.encode(query).Failure?) ||
               e.lexicon.index.Unassigned?)
  {
    match Lookup(e.results, ResultKey(query, topK))
    case Some(cached) => (e.(stats := CountCachedQuery(e.stats)), Success(cached))
    case None => Miss(e.(stats := CountQuery(e.stats)), query, topK, svc, elapsed)
  }

  /** The rest of `fast_search` after a result-cache miss has been counted. */
  function Miss(e: Engine, query: String, topK: nat, svc: Services, elapsed: real)
    : (r: (Engine, Result<seq<Fused>, String>))
    requires Valid(e) && e.stats.cacheHits < e.stats.queries
    requires Lookup(e.results, ResultKey(query, topK)).None?
    ensures Valid(r.0)
    ensures r.0.namespaces == e.namespaces && r.0.mapper == e.mapper && r.0.lexicon == e.lexicon
    // An embedding cache hit is counted, and a search that went through records its time.
    ensures var s1 := if Lookup(e.embeddings, EmbeddingKey(query)).Some? then CountEmbeddingHit(e.stats) else e.stats;
      r.0.stats == if r.1.Success? then RecordTime(s1, elapsed) else s1
    ensures r.1.Success? ==> Ranked(r.1.value, topK) && Lookup(r.0.results, ResultKey(query, topK)) == Some(r.1.value)
    ensures r.1.Failure? ==> r.0.results == e.results
    ensures r.1.Failure? <==>
              (Lookup(e.embeddings, EmbeddingKey(query)).None? && svc.encode(query).Failure?) ||
              e.lexicon.index.Unassigned?
  {
    var (e1, embedding) := CachedEmbedding(e, query, svc.encode);
    match embedding
    case Failure(err) => (e1, Failure(err))
    case Success(v) => Retrieve(e1, query, topK, svc, elapsed, v)
  }

  /** The retrieval steps of `fast_search` once the query embedding `v` is
      known: vector search, BM25 search, fusion, and caching the fused list. */
  function Retrieve(e: Engine, query: String, topK: nat, svc: Services, elapsed: real, v: Embedding)
    : (r: (Engine, Result<seq<Fused>, String>))
    requires Valid(e) && e.stats.queries > 0
    ensures Valid(r.0)
    ensures r.0.namespaces == e.namespaces && r.0.mapper == e.mapper && r.0.lexicon == e.lexicon
    ensures r.0.embeddings == e.embeddings
    ensures r.0.stats == if r.1.Success? then RecordTime(e.stats, elapsed) else e.stats
    ensures r.1.Success? ==> Ranked(r.1.value, topK) && Lookup(r.0.results, ResultKey(query, topK)) == Some(r.1.value)
    ensures r.1.Failure? ==> r.0 == e
    ensures r.1.Failure? <==> e.lexicon.index.Unassigned?
  {
    var vectorHits := VectorHits(e, query, v, topK, svc);
    match Lexical.Search(e.lexicon, query, topK, svc.scorer)
    case Failure(err) => (e, Failure(err))
    case Success(bm25Hits) =>
      var fused := FastFusion(vectorHits, bm25Hits, topK);
      StoreRanked(e.results, query, topK, fused);
      (e.(stats := RecordTime(e.stats, elapsed), results := Store(e.results, ResultKey(query, topK), fused)),
       Success(fused))
  }

  // ---------------------------------------------------------------------------
  // Cached results are ranked

  /** A fused result list as `_fast_fusion` returns it for `top_k`. */
  ghost predicate Ranked(v: seq<Fused>, topK: nat) {
    |v| <= topK && SortedDesc(v, FusedScore) && DistinctBy(v, FusedId)
  }

  /** Every cached result list is ranked for the `top_k` in its key. */
  ghost predicate WellRanked(c: Cache<String, seq<Fused>>) {
    forall q, k :: Lookup(c, ResultKey(q, k)).Some? ==> Ranked(Lookup(c, ResultKey(q, k)).value, k)
  }

  /** Storing a ranked list under its own key keeps the cache ranked: the key
      determines `top_k`, and the other entries stay or are evicted. */
  lemma StoreRanked(c: Cache<String, seq<Fused>>, query: String, topK: nat, v: seq<Fused>)
    requires FifoCache.Valid(c) && WellRanked(c) && Ranked(v, topK)
    ensures WellRanked(Store(c, ResultKey(query, topK), v))
  {
    var key := ResultKey(query, topK);
    var c' := Store(c, key, v);
    forall q, k | Lookup(c', ResultKey(q, k)).Some?
      ensures Ranked(Lookup(c', ResultKey(q, k)).value, k)
    {
      if ResultKey(q, k) == key {
        ResultKeyInjective(q, k, query, topK);
      }
    }
  }

  // ---------------------------------------------------------------------------
  // Repeated queries

  /** Once a query's result is computed, asking again with the same `top_k` and a
      query that differs only in case or surrounding whitespace returns the same
      list from the cache, whatever the services would now answer. */
  lemma RepeatServedFromCache(e: Engine, query: String, query': String, topK: nat,
                              svc: Services, svc': Services, t: real, t': real)
    requires Valid(e)
    requires NormalizeForResults(query') == NormalizeForResults(query)
    requires FastSearch(e, query, topK, svc, t).1.Success?
    ensures var (e1, r1) := FastSearch(e, query, topK, svc, t);
      var (e2, r2) := FastSearch(e1, query', topK, svc', t');
      r2 == r1 && e2.results == e1.results && e2.stats.cacheHits == e1.stats.cacheHits + 1
  {
    assert ResultKey(query', topK) == ResultKey(query, topK);
  }

  /** A cached embedding makes the embedding model irrelevant: the call's outcome
      and the engine after it are the same whatever `encode` would return. In
      particular a query reuses the embedding of the first query with the same
      stripped, lower-cased text, although that one was encoded as typed. */
  lemma CachedEmbeddingIgnoresModel(e: Engine, query: String, topK: nat, svc: Services,
                                    encode': String -> Result<Embedding, String>, t: real)
    requires Valid(e) && Lookup(e.embeddings, EmbeddingKey(query)).Some?
    ensures FastSearch(e, query, topK, svc.(encode := encode'), t) == FastSearch(e, query, topK, svc, t)
  {
    var svc' := svc.(encode := encode');
    if Lookup(e.results, ResultKey(query, topK)).None? {
      var e1 := e.(stats := CountQuery(e.stats));
      assert CachedEmbedding(e1, query, svc'.encode) == CachedEmbedding(e1, query, svc.encode);
      var v := CachedEmbedding(e1, query, svc.encode).1.value;
      assert QueryWith(svc', v, topK) == QueryWith(svc, v, topK);
    }
  }

  // ---------------------------------------------------------------------------
  // The counters over a run of calls

  /** One call of `fast_search`: its arguments, the services as they answer
      during the call, and its duration. */
  datatype Call = Call(query: String, topK: nat, svc: Services, elapsed: real)

  /** What a call does to the counters, read off the state it starts in. */
  function EventOf(e: Engine, c: Call): (ev: Event)
    ensures ev.Searched? ==> ev.t == c.elapsed
  {
    if Lookup(e.results, ResultKey(c.query, c.topK)).Some? then CachedResult
    else
      var cached := Lookup(e.embeddings, EmbeddingKey(c.query)).Some?;
      if (!cached && c.svc.encode(c.query).Failure?) || e.lexicon.index.Unassigned? then Failed(cached)
      else Searched(c.elapsed, cached)
  }

  /** `fast_search` moves the counters exactly as the counter model's step for
      its event. */
  lemma StatsFollowEvent(e: Engine, c: Call)
    requires Valid(e)
    ensures FastSearch(e, c.query, c.topK, c.svc, c.elapsed).0.stats == Step(e.stats, EventOf(e, c))
  {
    var ev := EventOf(e, c);
    StepHits(e.stats, ev);
    StepAverage(e.stats, ev);
  }

  /** The engine after a run of calls, with the event of each call. */
  function Run(e: Engine, calls: seq<Call>): (r: (Engine, seq<Event>))
    requires Valid(e)
    ensures Valid(r.0)
    ensures r.0.stats.queries == e.stats.queries + |calls|
    ensures |r.1| == |calls|
  {
    if |calls| == 0 then (e, [])
    else
      var n := |calls| - 1;
      var (s, events) := Run(e, calls[..n]);
      var c := calls[n];
      (Advance(s, c), events + [EventOf(s, c)])
  }

  /** The engine after one call. */
  function Advance(e: Engine, c: Call): (r: Engine)
    requires Valid(e)
    ensures Valid(r) && r.stats.queries == e.stats.queries + 1
  {
    FastSearch(e, c.query, c.topK, c.svc, c.elapsed).0
  }

  /** Every search event of a run records the time its call took. */
  lemma {:induction false} RunEventTimes(e: Engine, calls: seq<Call>)
    requires Valid(e)
    ensures forall i :: 0 <= i < |calls| && Run(e, calls).1[i].Searched? ==> Run(e, calls).1[i].t == calls[i].elapsed
  {
    if |calls| > 0 {
      var n := |calls| - 1;
      var (s, events) := Run(e, calls[..n]);
      RunEventTimes(e, calls[..n]);
      var all := Run(e, calls).1;
      assert all == events + [EventOf(s, calls[n])];
      forall i | 0 <= i < |calls| && all[i].Searched? ensures all[i].t == calls[i].elapsed {
        if i < n {
          assert all[i] == events[i] && calls[..n][i] == calls[i];
        }
      }
    }
  }

  /** From a fresh engine, the counters after a run are the counter model's replay
      of the run's events. */
  lemma {:induction false} RunReplays(e: Engine, calls: seq<Call>)
    requires Valid(e) && e.stats == Initial
    ensures Run(e, calls).0.stats == Replay(Run(e, calls).1)
  {
    if |calls| > 0 {
      var n := |calls| - 1;
      RunReplays(e, calls[..n]);
      var events := Run(e, calls).1;
      assert events[..n] == Run(e, calls[..n]).1;
      StatsFollowEvent(Run(e, calls[..n]).0, calls[n]);
    }
  }

  /** If every call takes under five seconds, a fresh engine stays production
      ready and its average response time is never negative. */
  lemma FastRunStaysReady(e: Engine, calls: seq<Call>)
    requires Valid(e) && e.stats == Initial
    requires forall i :: 0 <= i < |calls| ==> 0.0 <= calls[i].elapsed < ReadyThreshold
    ensures ProductionReady(Run(e, calls).0.stats) && 0.0 <= Run(e, calls).0.stats.avgTime
  {
    RunEventTimes(e, calls);
    FastSearchesStayReady(Run(e, calls).1);
    RunReplays(e, calls);
  }

  /** The reported hit rate of any engine state reached by calls stays within
      0-100%. */
  lemma HitRateBounded(e: Engine, calls: seq<Call>)
    requires Valid(e)
    ensures 0.0 <= HitRate(Run(e, calls).0.stats) <= 100.0
  {
  }
}
