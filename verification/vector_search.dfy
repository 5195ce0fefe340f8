/** The targeted vector search `_fast_semantic_search`
    (performance_fix_hybrid_search.py). The router picks one or two semantic
    namespaces, the mapper translates them to actual ones, and only those the index
    knows are searched, or the first known namespace when none of them is. Each
    namespace's query is an oracle: `None` stands for a query that raised, and that
    namespace is skipped. The gathered hits are stably sorted by non-increasing
    score and cut to `top_k`. */
module VectorSearch {
  import opened Seqs
  import opened Wrappers
  import opened Text
  import opened Results
  import opened Sorting
  import opened NamespaceMapper
  import opened NamespaceRouter

  const MinNamespaces: nat := 1
  const MaxNamespaces: nat := 2

  /** The actual namespaces a query is routed to, before the set is listed. */
  function Routed(m: Mapper, query: String): (r: set<String>)
    ensures forall a :: a in r <==>
      exists i :: 0 <= i < |GetRelevantSemanticNamespaces(m, query, MinNamespaces, MaxNamespaces)| &&
        a in GetActualNamespace(m, GetRelevantSemanticNamespaces(m, query, MinNamespaces, MaxNamespaces)[i])
  {
    TranslateNamespaces(m, GetRelevantSemanticNamespaces(m, query, MinNamespaces, MaxNamespaces), true)
  }

  /** `list(s)` for a set: some duplicate-free listing of exactly its elements. */
  predicate Lists(xs: seq<String>, s: set<String>) {
    Distinct(xs) && Elems(xs) == s
  }

  function IsKnownIn(namespaces: seq<String>): String -> bool {
    ns => ns in namespaces
  }

  /** The namespaces searched: the listed targets the index knows, in listing order,
      or the first known namespace when there are none. */
  function Available(targets: seq<String>, namespaces: seq<String>): (r: seq<String>)
    ensures |r| <= if |targets| > |namespaces| then |targets| else |namespaces|
    ensures (exists i :: 0 <= i < |targets| && targets[i] in namespaces) ==>
              forall x :: x in r <==> x in targets && x in namespaces
    ensures (forall i :: 0 <= i < |targets| ==> targets[i] !in namespaces) ==>
              r == Take(namespaces, 1)
  {
    var known := Filter(targets, IsKnownIn(namespaces));
    KnownTargets(targets, namespaces);
    if |known| == 0 then Take(namespaces, 1) else known
  }

  lemma KnownTargets(targets: seq<String>, namespaces: seq<String>)
    ensures var known := Filter(targets, IsKnownIn(namespaces));
      (forall x :: x in known <==> x in targets && x in namespaces) &&
      (|known| == 0 <==> forall i :: 0 <= i < |targets| ==> targets[i] !in namespaces)
  {
    var known := Filter(targets, IsKnownIn(namespaces));
    forall x ensures x in known <==> x in targets && x in namespaces {
      if x in known {
        var k :| 0 <= k < |known| && known[k] == x;
        assert IsKnownIn(namespaces)(x);
      }
      if x in targets && x in namespaces {
        var i :| 0 <= i < |targets| && targets[i] == x;
        assert IsKnownIn(namespaces)(targets[i]);
      }
    }
    if |known| > 0 {
      assert known[0] in targets;
    }
  }

  /** A match labelled with its namespace and the "vector" source. */
  function AsHit(ns: String, m: Match): Hit {
    Hit(m.id, m.score, m.metadata, ns, Vector)
  }

  function Labeller(ns: String): Match -> Hit {
    m => AsHit(ns, m)
  }

  /** The hits one namespace contributes: none when its query raised. */
  function NamespaceHits(ns: String, outcome: Option<seq<Match>>): (r: seq<Hit>)
    ensures outcome.None? ==> r == []
    ensures outcome.Some? ==> |r| == |outcome.value|
    ensures outcome.Some? ==> forall k :: 0 <= k < |r| ==> r[k] == AsHit(ns, outcome.value[k])
  {
    match outcome
    case None => []
    case Some(ms) => Map(Labeller(ns), ms)
  }

  /** The `all_results` list after the loop over the searched namespaces. */
  function Gather(searched: seq<String>, query: String -> Option<seq<Match>>): seq<Hit> {
    if |searched| == 0 then []
    else
      var n := |searched| - 1;
      Gather(searched[..n], query) + NamespaceHits(searched[n], query(searched[n]))
  }

  /** A hit that is a match the index returned for the hit's own namespace. */
  ghost predicate FromIndex(query: String -> Option<seq<Match>>, h: Hit) {
    h.source == Vector && query(h.namespace).Some? &&
    Match(h.id, h.score, h.metadata) in query(h.namespace).value
  }

  /** `_fast_semantic_search(query, embedding, top_k)`, given the listing of the
      routed set and the per-namespace query of the index. */
  function SemanticSearch(targets: seq<String>, namespaces: seq<String>, topK: nat,
                          query: String -> Option<seq<Match>>): (r: seq<Hit>)
    ensures |r| <= topK
    ensures SortedDesc(r, HitScore)
    ensures forall k :: 0 <= k < |r| ==>
              FromIndex(query, r[k]) && r[k].namespace in Available(targets, namespaces)
  {
    var searched := Available(targets, namespaces);
    TopFromIndex(searched, query, topK);
    Take(SortDesc(Gather(searched, query), HitScore), topK)
  }

  // ---------------------------------------------------------------------------
  // Where the gathered hits come from

  /** A gathered hit is a labelled match of a searched namespace whose query
      succeeded. */
  lemma {:induction false} GatherFrom(searched: seq<String>, query: String -> Option<seq<Match>>, h: Hit)
    requires h in Gather(searched, query)
    ensures FromIndex(query, h) && h.namespace in searched
  {
    var n := |searched| - 1;
    var last := NamespaceHits(searched[n], query(searched[n]));
    if h in Gather(searched[..n], query) {
      GatherFrom(searched[..n], query, h);
    } else {
      assert h in last;
      var k :| 0 <= k < |last| && last[k] == h;
      assert query(searched[n]).value[k] == Match(h.id, h.score, h.metadata);
    }
  }

  /** The first `top_k` of the sorted hits are sorted and come from the index. */
  lemma TopFromIndex(searched: seq<String>, query: String -> Option<seq<Match>>, topK: nat)
    ensures var top := Take(SortDesc(Gather(searched, query), HitScore), topK);
      SortedDesc(top, HitScore) &&
      forall k :: 0 <= k < |top| ==> FromIndex(query, top[k]) && top[k].namespace in searched
  {
    var all := Gather(searched, query);
    var sorted := SortDesc(all, HitScore);
    var top := Take(sorted, topK);
    PrefixSorted(sorted, |top|, HitScore);
    assert top == sorted[..|top|];
    forall k | 0 <= k < |top|
      ensures FromIndex(query, top[k]) && top[k].namespace in searched
    {
      assert top[k] == sorted[k];
      assert sorted[k] in multiset(all);
      GatherFrom(searched, query, sorted[k]);
    }
  }

  /** Every match a searched namespace returned is gathered. */
  lemma {:induction false} GatherComplete(searched: seq<String>, query: String -> Option<seq<Match>>, i: nat, k: nat)
    requires i < |searched| && query(searched[i]).Some? && k < |query(searched[i]).value|
    ensures AsHit(searched[i], query(searched[i]).value[k]) in Gather(searched, query)
  {
    var n := |searched| - 1;
    if i < n {
      assert searched[..n][i] == searched[i];
      GatherComplete(searched[..n], query, i, k);
    } else {
      assert NamespaceHits(searched[n], query(searched[n]))[k] == AsHit(searched[i], query(searched[i]).value[k]);
    }
  }

  // ---------------------------------------------------------------------------
  // Properties of the search

  /** Only routed namespaces the index knows are searched, or the first known
      namespace when none of the routed ones is known. */
  lemma SearchedNamespaces(m: Mapper, query: String, targets: seq<String>, namespaces: seq<String>, ns: String)
    requires Lists(targets, Routed(m, query))
    ensures (exists a :: a in Routed(m, query) && a in namespaces) ==>
              (ns in Available(targets, namespaces) <==> ns in Routed(m, query) && ns in namespaces)
    ensures (forall a :: a in Routed(m, query) ==> a !in namespaces) ==>
              Available(targets, namespaces) == Take(namespaces, 1)
  {
    var routed := Routed(m, query);
    if exists a :: a in routed && a in namespaces {
      var a :| a in routed && a in namespaces;
      assert a in Elems(targets);
      var i :| 0 <= i < |targets| && targets[i] == a;
    }
    if forall a :: a in routed ==> a !in namespaces {
      forall i | 0 <= i < |targets| ensures targets[i] !in namespaces {
        assert targets[i] in Elems(targets);
      }
    }
  }

  /** `top_k` selection: a gathered hit left out scores no higher than any hit
      returned, and when there are at most `top_k` gathered hits, every one of
      them is returned. */
  lemma TopSelection(targets: seq<String>, namespaces: seq<String>, topK: nat,
                     query: String -> Option<seq<Match>>, h: Hit)
    requires h in Gather(Available(targets, namespaces), query)
    ensures var r := SemanticSearch(targets, namespaces, topK, query);
      (h !in r ==> forall k :: 0 <= k < |r| ==> HitScore(h) <= HitScore(r[k])) &&
      (|Gather(Available(targets, namespaces), query)| <= topK ==> h in r)
  {
    var all := Gather(Available(targets, namespaces), query);
    var sorted := SortDesc(all, HitScore);
    assert h in multiset(sorted);
    var j :| 0 <= j < |sorted| && sorted[j] == h;
    var r := SemanticSearch(targets, namespaces, topK, query);
    assert r == Take(sorted, topK);
    if h !in r {
      assert j >= |r|;
    }
  }

  /** Every match of every searched namespace that answered can be returned: with
      at most `top_k` gathered hits, each such match is in the result. */
  lemma SkipsOnlyFailedNamespaces(targets: seq<String>, namespaces: seq<String>, topK: nat,
                                  query: String -> Option<seq<Match>>, i: nat, k: nat)
    requires var searched := Available(targets, namespaces);
      i < |searched| && query(searched[i]).Some? && k < |query(searched[i]).value|
    requires |Gather(Available(targets, namespaces), query)| <= topK
    ensures var searched := Available(targets, namespaces);
      AsHit(searched[i], query(searched[i]).value[k]) in SemanticSearch(targets, namespaces, topK, query)
  {
    var searched := Available(targets, namespaces);
    GatherComplete(searched, query, i, k);
    TopSelection(targets, namespaces, topK, query, AsHit(searched[i], query(searched[i]).value[k]));
  }

  /** The sort is stable: for every score, the returned hits carrying it are a
      prefix of the gathered hits carrying it, in the order in which the
      namespaces were searched; when nothing is cut they are all of them. */
  lemma TiesKeepSearchOrder(targets: seq<String>, namespaces: seq<String>, topK: nat,
                            query: String -> Option<seq<Match>>, v: real)
    ensures WithKey(SemanticSearch(targets, namespaces, topK, query), HitScore, v) <=
            WithKey(Gather(Available(targets, namespaces), query), HitScore, v)
    ensures |Gather(Available(targets, namespaces), query)| <= topK ==>
            WithKey(SemanticSearch(targets, namespaces, topK, query), HitScore, v) ==
            WithKey(Gather(Available(targets, namespaces), query), HitScore, v)
  {
    var sorted := SortDesc(Gather(Available(targets, namespaces), query), HitScore);
    if topK < |sorted| {
      WithKeyOfPrefix(sorted, topK, HitScore, v);
    }
  }
}
