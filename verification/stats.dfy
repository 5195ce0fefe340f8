/** The engine's `performance_stats` dict and `get_performance_stats`
    (performance_fix_hybrid_search.py). Response times are exact reals here; the
    clock readings that produce them are parameters of the model. */
module Stats {
  datatype Stats = Stats(queries: nat, cacheHits: nat, avgTime: real)

  /** All three counters start at zero. */
  const Initial: Stats := Stats(0, 0, 0.0)

  /** A response time is "production ready" below five seconds. */
  const ReadyThreshold: real := 5.0

  /** A query answered from the result cache: both counters move, the average
      does not. */
  function CountCachedQuery(s: Stats): (r: Stats)
    ensures r.queries == s.queries + 1 && r.cacheHits == s.cacheHits + 1
    ensures r.avgTime == s.avgTime
  {
    s.(queries := s.queries + 1, cacheHits := s.cacheHits + 1)
  }

  /** A query that misses the result cache is counted before any work is done. */
  function CountQuery(s: Stats): (r: Stats)
    ensures r.queries == s.queries + 1 && r.cacheHits == s.cacheHits && r.avgTime == s.avgTime
  {
    s.(queries := s.queries + 1)
  }

  /** A hit in the embedding cache counts as a cache hit too. */
  function CountEmbeddingHit(s: Stats): (r: Stats)
    ensures r.cacheHits == s.cacheHits + 1 && r.queries == s.queries && r.avgTime == s.avgTime
  {
    s.(cacheHits := s.cacheHits + 1)
  }

  /** The incremental mean `(avg * (n - 1) + t) / n`, `n` being the query count
      already including this query. */
  function RecordTime(s: Stats, t: real): (r: Stats)
    requires s.queries > 0
    ensures r.queries == s.queries && r.cacheHits == s.cacheHits
  {
    s.(avgTime := Fold(s.avgTime, t, (s.queries - 1) as real))
  }

  /** The mean of `k` values averaging `a` and one more value `t`. */
  function Fold(a: real, t: real, k: real): real
    requires k >= 0.0
  {
    (a * k + t) / (k + 1.0)
  }

  /** The new average times the new count is the old total plus the new time. */
  lemma RecordTimeKeepsTotal(s: Stats, t: real)
    requires s.queries > 0
    ensures RecordTime(s, t).avgTime * (s.queries as real) == s.avgTime * ((s.queries - 1) as real) + t
  {
    var k := (s.queries - 1) as real;
    assert k + 1.0 == s.queries as real;
  }

  /** `cache_hits / max(1, queries_processed) * 100`, before its rendering as a
      one-decimal percentage. */
  function HitRate(s: Stats): (r: real)
    ensures s.cacheHits <= s.queries ==> 0.0 <= r <= 100.0
    ensures s.queries > 0 && s.cacheHits == s.queries ==> r == 100.0
    ensures s.cacheHits == 0 ==> r == 0.0
  {
    var d := if s.queries > 1 then s.queries else 1;
    HitRateBounded(s.cacheHits, d);
    (s.cacheHits as real) / (d as real) * 100.0
  }

  lemma HitRateBounded(h: nat, d: nat)
    requires d >= 1
    ensures h <= d ==> (h as real) / (d as real) <= 1.0
  {
  }

  /** `production_ready`. */
  predicate ProductionReady(s: Stats) {
    s.avgTime < ReadyThreshold
  }

  // ---------------------------------------------------------------------------
  // The average over a whole run

  /** What one call of `fast_search` does to the counters: a result-cache hit, a
      full search taking time `t`, or a search that raised after it was counted
      (its query embedding could not be computed, or the BM25 index was never
      assigned). Whether the query embedding came from its cache is recorded
      because that counts as a cache hit as well. */
  datatype Event = CachedResult | Searched(t: real, embeddingCached: bool) | Failed(embeddingCached: bool)

  function Step(s: Stats, e: Event): (r: Stats)
    ensures r.queries == s.queries + 1
    ensures r.cacheHits <= s.cacheHits + 1
  {
    match e
    case CachedResult => CountCachedQuery(s)
    case Searched(t, cached) =>
      var s1 := CountQuery(s);
      RecordTime(if cached then CountEmbeddingHit(s1) else s1, t)
    case Failed(cached) =>
      var s1 := CountQuery(s);
      if cached then CountEmbeddingHit(s1) else s1
  }

  /** How one call moves the hit counter: a cached result and a cached embedding
      each count once. */
  lemma StepHits(s: Stats, e: Event)
    ensures Step(s, e).cacheHits == s.cacheHits + if e.CachedResult? || e.embeddingCached then 1 else 0
  {
  }

  /** The counters after a run of calls, from a fresh engine. */
  function Replay(events: seq<Event>): (r: Stats)
    ensures r.queries == |events|
    ensures r.cacheHits <= r.queries
  {
    if |events| == 0 then Initial
    else Step(Replay(events[..|events| - 1]), events[|events| - 1])
  }

  function SearchTimes(events: seq<Event>): seq<real> {
    if |events| == 0 then []
    else
      var rest := SearchTimes(events[..|events| - 1]);
      match events[|events| - 1]
      case Searched(t, _) => rest + [t]
      case _ => rest
  }

  function SumReal(xs: seq<real>): real {
    if |xs| == 0 then 0.0 else SumReal(xs[..|xs| - 1]) + xs[|xs| - 1]
  }

  predicate AllSearched(events: seq<Event>) {
    forall i :: 0 <= i < |events| ==> events[i].Searched?
  }

  /** With no cache hits and no failures the running average is the true mean of
      the response times. */
  lemma {:induction false} AverageIsMean(events: seq<Event>)
    requires AllSearched(events)
    ensures Replay(events).avgTime * (|events| as real) == SumReal(SearchTimes(events))
  {
    if |events| > 0 {
      var n := |events| - 1;
      var init := events[..n];
      assert AllSearched(init);
      AverageIsMean(init);
      assert events[n].Searched?;
    }
  }

  /** A cached result or a failure still advances the count, so the next search
      folds the average in as if that query had taken the current average time:
      one search of 2s, one cached result, one search of 5s give an average of 3s,
      neither the mean of the searches (3.5s) nor of all three calls (7/3 s). */
  lemma ExampleCachedQueryCountsAsAverage()
    ensures Replay([Searched(2.0, false), CachedResult, Searched(5.0, false)]).avgTime == 3.0
  {
    var e := [Searched(2.0, false), CachedResult, Searched(5.0, false)];
    assert e[..2][..1] == [Searched(2.0, false)];
    assert e[..2] == [Searched(2.0, false), CachedResult];
    assert [Searched(2.0, false)][..0] == [];
    assert Replay([Searched(2.0, false)]) == Stats(1, 0, 2.0);
    assert Replay(e[..2]) == Stats(2, 1, 2.0);
  }

  /** How one call moves the average: only a search folds in its time. */
  lemma StepAverage(s: Stats, e: Event)
    ensures Step(s, e).avgTime == if e.Searched? then Fold(s.avgTime, e.t, s.queries as real) else s.avgTime
  {
  }

  /** One averaging step never leaves [0, m] when both inputs are in it. */
  lemma AverageStepBounded(a: real, t: real, k: real, m: real)
    requires k >= 0.0 && 0.0 <= a <= m && 0.0 <= t <= m
    ensures 0.0 <= Fold(a, t, k) <= m
  {
    assert a * k <= m * k by {
      assert (m - a) * k >= 0.0;
    }
    assert a * k + t <= m * (k + 1.0);
  }

  /** The same step, with strict upper bounds. */
  lemma AverageStepBelow(a: real, t: real, k: real, m: real)
    requires k >= 0.0 && 0.0 <= a < m && 0.0 <= t < m
    ensures 0.0 <= Fold(a, t, k) < m
  {
    assert a * k <= m * k by {
      assert (m - a) * k >= 0.0;
    }
    assert a * k + t < m * (k + 1.0);
  }

  /** The last call of a run, seen from the counters before it. */
  lemma ReplayLast(events: seq<Event>)
    requires |events| > 0
    ensures var n := |events| - 1;
      var a := Replay(events[..n]).avgTime;
      Replay(events).avgTime == if events[n].Searched? then Fold(a, events[n].t, n as real) else a
  {
    var n := |events| - 1;
    var s := Replay(events[..n]);
    assert Replay(events) == Step(s, events[n]);
    StepAverage(s, events[n]);
  }

  /** The average never exceeds the slowest search. */
  lemma {:induction false} AverageBelowSlowest(events: seq<Event>, m: real)
    requires m >= 0.0
    requires forall i :: 0 <= i < |events| && events[i].Searched? ==> 0.0 <= events[i].t <= m
    ensures 0.0 <= Replay(events).avgTime <= m
  {
    if |events| > 0 {
      var n := |events| - 1;
      AverageBelowSlowest(events[..n], m);
      ReplayLast(events);
      if events[n].Searched? {
        AverageStepBounded(Replay(events[..n]).avgTime, events[n].t, n as real, m);
      }
    }
  }

  /** Searches all faster than five seconds keep the engine production ready. */
  lemma {:induction false} FastSearchesStayReady(events: seq<Event>)
    requires forall i :: 0 <= i < |events| && events[i].Searched? ==> 0.0 <= events[i].t < ReadyThreshold
    ensures 0.0 <= Replay(events).avgTime
    ensures ProductionReady(Replay(events))
  {
    if |events| > 0 {
      var n := |events| - 1;
      FastSearchesStayReady(events[..n]);
      ReplayLast(events);
      if events[n].Searched? {
        AverageStepBelow(Replay(events[..n]).avgTime, events[n].t, n as real, ReadyThreshold);
      }
    }
  }
}
