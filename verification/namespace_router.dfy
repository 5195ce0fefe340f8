/** `get_relevant_semantic_namespaces` (semantic_namespace_mapper.py): the keyword
    router that picks the semantic namespaces a query is searched in.

    The lower-cased query is cut into its `\w` runs of length two or more. Every
    (query word, keyword) pair of every keyword-table entry scores 3 for equality
    and 1 when either contains the other; the scores are accumulated in a
    `defaultdict(int)`, so a name enters the dict on its first positive pair. When
    the query contains "policy", "regulation", "guideline" or "procedure" anywhere,
    every forward-table name containing "policy" or "guideline" gains 2. The dict's
    entries are stably sorted by non-increasing score, cut to `max_namespaces`, and
    padded up to `min_namespaces` with forward-table names in table order. */
module NamespaceRouter {
  import opened Seqs
  import opened Wrappers
  import opened OrderedMap
  import opened Sorting
  import opened Text
  import opened NamespaceTables
  import opened NamespaceMapper

  /** The score dict, in insertion order. */
  type Scores = seq<(String, int)>

  const ExactMatchScore: nat := 3
  const PartialMatchScore: nat := 1
  const PolicyBoost: nat := 2
  const BoostWords: seq<String> := ["policy", "regulation", "guideline", "procedure"]

  predicate NotWordChar(c: char) {
    !IsWordChar(c)
  }

  /** `re.findall(r'\b\w{2,}\b', query)`: the maximal word-character runs of length
      at least two, left to right. */
  function QueryWords(query: String): (r: seq<String>)
    ensures forall k :: 0 <= k < |r| ==> |r[k]| >= 2
    ensures forall k, i :: 0 <= k < |r| && 0 <= i < |r[k]| ==> IsWordChar(r[k][i])
  {
    var pieces := SplitRuns(query, NotWordChar);
    SplitRunsPieces(query, NotWordChar);
    var r := Filter(pieces, (w: String) => |w| >= 2);
    forall k, i | 0 <= k < |r| && 0 <= i < |r[k]| ensures IsWordChar(r[k][i]) {
      var j :| 0 <= j < |pieces| && pieces[j] == r[k];
      assert !NotWordChar(pieces[j][i]);
    }
    r
  }

  /** The score of one (query word, keyword) pair. */
  function PairScore(word: String, keyword: String): (r: nat)
    ensures r == ExactMatchScore <==> word == Lower(keyword)
    ensures r > 0 <==> Contains(Lower(keyword), word) || Contains(word, Lower(keyword))
    ensures r <= ExactMatchScore
  {
    var k := Lower(keyword);
    if word == k then
      assert StartsWith(k, word);
      ExactMatchScore
    else if Contains(k, word) || Contains(word, k) then PartialMatchScore
    else 0
  }

  /** The pair scores of one table entry, in the loops' order: query words outer,
      keywords inner. */
  function PairScores(words: seq<String>, keywords: seq<String>): seq<nat> {
    FlatMap((w: String) => WordScores(w, keywords), words)
  }

  /** The inner loop's pair scores for one query word. */
  function WordScores(word: String, keywords: seq<String>): (r: seq<nat>)
    ensures |r| == |keywords|
    ensures forall j :: 0 <= j < |keywords| ==> r[j] == PairScore(word, keywords[j])
  {
    if |keywords| == 0 then []
    else WordScores(word, keywords[..|keywords| - 1]) + [PairScore(word, keywords[|keywords| - 1])]
  }

  /** `scores[k]` of a `defaultdict(int)`: zero when absent. */
  function ScoreOf(m: Scores, k: String): int {
    match Get(m, k)
    case Some(v) => v
    case None => 0
  }

  /** `scores[k] += d`. */
  function Bump(m: Scores, k: String, d: nat): (r: Scores)
    ensures Get(r, k) == Some(ScoreOf(m, k) + d)
    ensures forall k' :: k' != k ==> Get(r, k') == Get(m, k')
  {
    Put(m, k, ScoreOf(m, k) + d)
  }

  /** The pair loop of one entry: each positive pair score is added under `k`. */
  function AddScores(m: Scores, k: String, ds: seq<nat>): Scores
  {
    if |ds| == 0 then m
    else AddPositive(AddScores(m, k, ds[..|ds| - 1]), k, ds[|ds| - 1])
  }

  /** One iteration of the pair loop: `if score > 0: scores[k] += score`. */
  function AddPositive(m: Scores, k: String, d: int): (r: Scores)
    ensures Get(r, k) == if d > 0 then Some(ScoreOf(m, k) + d) else Get(m, k)
    ensures forall k' :: k' != k ==> Get(r, k') == Get(m, k')
  {
    if d > 0 then Bump(m, k, d) else m
  }

  /** The outer loop over the keyword table: for each entry, the inner pair loop
      `pairs(keywords)` is added under the entry's name. */
  function KeywordLoop(m: Scores, table: Table, pairs: seq<String> -> seq<nat>): Scores {
    if |table| == 0 then m
    else
      var e := table[|table| - 1];
      AddScores(KeywordLoop(m, table[..|table| - 1], pairs), e.0, pairs(e.1))
  }

  /** The keyword loop with the pair scores of the query's words. */
  function KeywordPhase(m: Scores, table: Table, words: seq<String>): Scores {
    KeywordLoop(m, table, (keywords: seq<String>) => PairScores(words, keywords))
  }

  /** Names the boost applies to. */
  predicate IsPolicyName(name: String) {
    Contains(name, "policy") || Contains(name, "guideline")
  }

  /** `any(word in query for word in [...])` on the lower-cased query. */
  predicate Boosted(lowered: String) {
    exists i :: 0 <= i < |BoostWords| && Contains(lowered, BoostWords[i])
  }

  /** One iteration of the boost loop: names satisfying `eligible` gain the boost. */
  function BoostName(m: Scores, name: String, eligible: String -> bool): (r: Scores)
    ensures Get(r, name) == if eligible(name) then Some(ScoreOf(m, name) + PolicyBoost) else Get(m, name)
    ensures forall k' :: k' != name ==> Get(r, k') == Get(m, k')
  {
    if eligible(name) then Bump(m, name, PolicyBoost) else m
  }

  /** The boost loop over `names`, for any eligibility test. */
  function BoostLoop(m: Scores, names: seq<String>, eligible: String -> bool): Scores {
    if |names| == 0 then m
    else BoostName(BoostLoop(m, names[..|names| - 1], eligible), names[|names| - 1], eligible)
  }

  /** The boost loop over the forward table's names. */
  function BoostPhase(m: Scores, names: seq<String>): Scores {
    BoostLoop(m, names, IsPolicyName)
  }

  /** `namespace_scores` once both loops are done. */
  function ScoreTable(m: Mapper, query: String): Scores {
    var lowered := Lower(query);
    var kw := KeywordPhase([], m.keywords, QueryWords(lowered));
    if Boosted(lowered) then BoostPhase(kw, Keys(m.semanticToActual)) else kw
  }

  function EntryScore(e: (String, int)): real {
    e.1 as real
  }

  predicate PositiveEntry(e: (String, int)) {
    e.1 > 0
  }

  /** The ranking step on any score dict: items stably sorted by non-increasing
      score, positive scores only, at most `maxNamespaces` names. */
  function Rank(t: Scores, maxNamespaces: nat): (r: seq<String>)
    ensures |r| <= maxNamespaces
  {
    var relevant := Keys(Filter(SortDesc(t, EntryScore), PositiveEntry));
    if |relevant| > maxNamespaces then relevant[..maxNamespaces] else relevant
  }

  /** The ranked names of a query. */
  function Ranked(m: Mapper, query: String, maxNamespaces: nat): (r: seq<String>)
    ensures |r| <= maxNamespaces
  {
    Rank(ScoreTable(m, query), maxNamespaces)
  }

  /** `get_relevant_semantic_namespaces(query, min_namespaces, max_namespaces)`. */
  function GetRelevantSemanticNamespaces(m: Mapper, query: String, minNamespaces: nat, maxNamespaces: nat)
    : (r: seq<String>)
    ensures Ranked(m, query, maxNamespaces) <= r
    ensures |r| <= if minNamespaces > maxNamespaces then minNamespaces else maxNamespaces
    ensures forall k :: |Ranked(m, query, maxNamespaces)| <= k < |r| ==>
              r[k] in Keys(m.semanticToActual) && r[k] !in Ranked(m, query, maxNamespaces)
  {
    var ranked := Ranked(m, query, maxNamespaces);
    if |ranked| < minNamespaces then
      var remaining := Filter(Keys(m.semanticToActual), ns => ns !in ranked);
      ranked + Take(remaining, minNamespaces - |ranked|)
    else ranked
  }

  // ---------------------------------------------------------------------------
  // Reference scores

  /** The keywords of a name, or none. */
  function KeywordsOf(m: Mapper, name: String): seq<String> {
    Get(m.keywords, name).GetOr([])
  }

  /** The sum of a name's keyword pair scores for a query. */
  function PairTotal(m: Mapper, query: String, name: String): nat {
    Sum(PairScores(QueryWords(Lower(query)), KeywordsOf(m, name)))
  }

  /** The boost a name receives for a query. */
  function BoostOf(m: Mapper, query: String, name: String): nat {
    if Boosted(Lower(query)) && name in Keys(m.semanticToActual) && IsPolicyName(name) then PolicyBoost else 0
  }

  /** Reference definition of a name's final score: the sum of its pair scores plus
      the boost when it applies. */
  function TotalScore(m: Mapper, query: String, name: String): nat {
    PairTotal(m, query, name) + BoostOf(m, query, name)
  }

  // ---------------------------------------------------------------------------
  // The loops compute the reference scores

  lemma SumSnoc(ds: seq<nat>)
    requires |ds| > 0
    ensures Sum(ds) == Sum(ds[..|ds| - 1]) + ds[|ds| - 1]
  {
    SumAppend(ds[..|ds| - 1], [ds[|ds| - 1]]);
    assert ds == ds[..|ds| - 1] + [ds[|ds| - 1]];
  }

  /** The pair loop of one entry leaves every other name alone. */
  lemma {:induction false} AddScoresOther(m: Scores, k: String, ds: seq<nat>, k': String)
    requires k' != k
    ensures Get(AddScores(m, k, ds), k') == Get(m, k')
  {
    if |ds| > 0 {
      AddScoresOther(m, k, ds[..|ds| - 1], k');
    }
  }

  /** The pair loop of one entry adds the sum of its pair scores, creating the
      entry only when that sum is positive. */
  lemma {:induction false} AddScoresSame(m: Scores, k: String, ds: seq<nat>)
    ensures Get(AddScores(m, k, ds), k) == Grown(m, k, Sum(ds))
  {
    if |ds| > 0 {
      var n := |ds| - 1;
      AddScoresSame(m, k, ds[..n]);
      SumSnoc(ds);
      GrownStep(AddScores(m, k, ds[..n]), m, k, Sum(ds[..n]), ds[n]);
    }
  }

  /** One more positive score grows the entry by that score. */
  lemma GrownStep(before: Scores, m: Scores, k: String, total: nat, d: nat)
    requires Get(before, k) == Grown(m, k, total)
    ensures Get(AddPositive(before, k, d), k) == Grown(m, k, total + d)
  {
    if d > 0 && total > 0 {
      assert ScoreOf(before, k) == ScoreOf(m, k) + total;
    }
  }

  /** A name's dict entry after `total` more points: created only when the
      points are positive. */
  function Grown(m: Scores, k: String, total: nat): Option<int> {
    if total == 0 then Get(m, k) else Some(ScoreOf(m, k) + total)
  }

  /** The sum of a name's pair scores under a keyword table. */
  function EntryTotal(table: Table, pairs: seq<String> -> seq<nat>, k: String): nat {
    Sum(pairs(Get(table, k).GetOr([])))
  }

  /** After the keyword loop, a name's dict entry has grown by exactly its pair
      scores' sum, and was created only if that sum is positive. */
  lemma {:induction false} KeywordLoopGet(m: Scores, table: Table, pairs: seq<String> -> seq<nat>, k: String)
    requires OrderedMap.Valid(table) && Sum(pairs([])) == 0
    ensures Get(KeywordLoop(m, table, pairs), k) ==
      Grown(m, k, EntryTotal(table, pairs, k))
    decreases |table|, 2
  {
    if |table| == 0 {
    } else if table[|table| - 1].0 == k {
      KeywordLoopGetLast(m, table, pairs);
    } else {
      KeywordLoopGetEarlier(m, table, pairs, k);
    }
  }

  /** `KeywordLoopGet` for the name of the table's last entry. */
  lemma {:induction false} KeywordLoopGetLast(m: Scores, table: Table, pairs: seq<String> -> seq<nat>)
    requires OrderedMap.Valid(table) && Sum(pairs([])) == 0 && |table| > 0
    ensures var k := table[|table| - 1].0;
      Get(KeywordLoop(m, table, pairs), k) ==
      Grown(m, k, EntryTotal(table, pairs, k))
    decreases |table|, 1
  {
    var n := |table| - 1;
    var init, k := table[..n], table[n].0;
    ValidDropLast(table);
    KeywordLoopGet(m, init, pairs, k);
    assert EntryTotal(init, pairs, k) == 0 by {
      assert Get(init, k) == None;
    }
    GetOfMember(table, n);
    assert EntryTotal(table, pairs, k) == Sum(pairs(table[n].1));
    FirstEntryStep(KeywordLoop(m, init, pairs), m, k, pairs(table[n].1));
  }

  /** The pair loop of a name the dict has not yet seen grows it from its
      initial entry. */
  lemma FirstEntryStep(before: Scores, m: Scores, k: String, ds: seq<nat>)
    requires Get(before, k) == Get(m, k)
    ensures Get(AddScores(before, k, ds), k) == Grown(m, k, Sum(ds))
  {
    AddScoresSame(before, k, ds);
    assert ScoreOf(before, k) == ScoreOf(m, k);
  }

  /** `KeywordLoopGet` for any other name. */
  lemma {:induction false} KeywordLoopGetEarlier(m: Scores, table: Table, pairs: seq<String> -> seq<nat>, k: String)
    requires OrderedMap.Valid(table) && Sum(pairs([])) == 0 && |table| > 0 && table[|table| - 1].0 != k
    ensures Get(KeywordLoop(m, table, pairs), k) ==
      Grown(m, k, EntryTotal(table, pairs, k))
    decreases |table|, 1
  {
    var n := |table| - 1;
    ValidDropLast(table);
    KeywordLoopGet(m, table[..n], pairs, k);
    KeywordStepOther(KeywordLoop(m, table[..n], pairs), m, table, pairs, k);
  }

  /** The pair loop of the last entry leaves every other name as it was. */
  lemma KeywordStepOther(before: Scores, m: Scores, table: Table, pairs: seq<String> -> seq<nat>, k: String)
    requires |table| > 0 && table[|table| - 1].0 != k
    requires Get(before, k) == Grown(m, k, EntryTotal(table[..|table| - 1], pairs, k))
    ensures Get(AddScores(before, table[|table| - 1].0, pairs(table[|table| - 1].1)), k) ==
            Grown(m, k, EntryTotal(table, pairs, k))
  {
    var n := |table| - 1;
    AddScoresOther(before, table[n].0, pairs(table[n].1), k);
    GetSkipsLast(table, k);
  }

  /** A name without keywords collects no pair scores. */
  lemma {:induction false} NoKeywordsNoScores(words: seq<String>)
    ensures PairScores(words, []) == []
  {
    if |words| > 0 {
      NoKeywordsNoScores(words[..|words| - 1]);
    }
  }

  /** After the boost loop over distinct names, exactly the policy names among
      them have gained the boost. */
  lemma {:induction false} BoostLoopGet(m: Scores, names: seq<String>, eligible: String -> bool, k: String)
    requires Distinct(names)
    ensures Get(BoostLoop(m, names, eligible), k) ==
      if k in names && eligible(k) then Some(ScoreOf(m, k) + PolicyBoost) else Get(m, k)
    decreases |names|, 1
  {
    if |names| > 0 {
      if names[|names| - 1] == k {
        BoostLoopGetLast(m, names, eligible);
      } else {
        BoostLoopGetEarlier(m, names, eligible, k);
      }
    }
  }

  lemma {:induction false} BoostLoopGetLast(m: Scores, names: seq<String>, eligible: String -> bool)
    requires Distinct(names) && |names| > 0
    ensures var k := names[|names| - 1];
      Get(BoostLoop(m, names, eligible), k) == if eligible(k) then Some(ScoreOf(m, k) + PolicyBoost) else Get(m, k)
    decreases |names|, 0
  {
    var n := |names| - 1;
    var k := names[n];
    var m0 := BoostLoop(m, names[..n], eligible);
    DistinctDropLast(names);
    assert Get(m0, k) == Get(m, k) by {
      BoostLoopGet(m, names[..n], eligible, k);
    }
    assert ScoreOf(m0, k) == ScoreOf(m, k);
    assert BoostLoop(m, names, eligible) == BoostName(m0, k, eligible);
  }

  lemma {:induction false} BoostLoopGetEarlier(m: Scores, names: seq<String>, eligible: String -> bool, k: String)
    requires Distinct(names) && |names| > 0 && names[|names| - 1] != k
    ensures Get(BoostLoop(m, names, eligible), k) ==
      if k in names && eligible(k) then Some(ScoreOf(m, k) + PolicyBoost) else Get(m, k)
    decreases |names|, 0
  {
    var n := |names| - 1;
    DistinctDropLast(names);
    BoostLoopGet(m, names[..n], eligible, k);
    InDropLast(names, k);
  }

  /** The two tables the router reads are dicts. */
  predicate Tables(m: Mapper) {
    OrderedMap.Valid(m.semanticToActual) && OrderedMap.Valid(m.keywords)
  }

  /** The keyword loop alone yields each name's pair total. */
  lemma KeywordPhaseMatchesPairTotals(m: Mapper, query: String, name: String)
    requires Tables(m)
    ensures Get(KeywordPhase([], m.keywords, QueryWords(Lower(query))), name) ==
      if PairTotal(m, query, name) > 0 then Some(PairTotal(m, query, name)) else None
  {
    var words := QueryWords(Lower(query));
    var pairs := (keywords: seq<String>) => PairScores(words, keywords);
    NoKeywordsNoScores(words);
    KeywordLoopGet([], m.keywords, pairs, name);
    assert EntryTotal(m.keywords, pairs, name) == PairTotal(m, query, name);
  }

  /** The boost step on top of a dict that holds a name's pair total `p`. */
  lemma BoostOnTotals(kw: Scores, names: seq<String>, boost: bool, name: String, p: nat)
    requires Distinct(names)
    requires Get(kw, name) == if p > 0 then Some(p) else None
    ensures var total := p + if boost && name in names && IsPolicyName(name) then PolicyBoost else 0;
      Get(if boost then BoostPhase(kw, names) else kw, name) == if total > 0 then Some(total) else None
  {
    if boost {
      BoostLoopGet(kw, names, IsPolicyName, name);
    }
  }

  /** The dict built by the loops holds exactly the names with a positive reference
      score, each with that score. */
  lemma ScoreTableMatchesTotals(m: Mapper, query: String, name: String)
    requires Tables(m)
    ensures Get(ScoreTable(m, query), name) ==
      if TotalScore(m, query, name) > 0 then Some(TotalScore(m, query, name)) else None
  {
    var lowered := Lower(query);
    var kw := KeywordPhase([], m.keywords, QueryWords(lowered));
    KeywordPhaseMatchesPairTotals(m, query, name);
    BoostOnTotals(kw, Keys(m.semanticToActual), Boosted(lowered), name, PairTotal(m, query, name));
  }

  lemma {:induction false} AddScoresValid(m: Scores, k: String, ds: seq<nat>)
    requires OrderedMap.Valid(m)
    ensures OrderedMap.Valid(AddScores(m, k, ds))
  {
    if |ds| > 0 {
      var m0 := AddScores(m, k, ds[..|ds| - 1]);
      AddScoresValid(m, k, ds[..|ds| - 1]);
      PutValid(m0, k, ScoreOf(m0, k) + ds[|ds| - 1]);
    }
  }

  lemma {:induction false} KeywordLoopValid(m: Scores, table: Table, pairs: seq<String> -> seq<nat>)
    requires OrderedMap.Valid(m)
    ensures OrderedMap.Valid(KeywordLoop(m, table, pairs))
  {
    if |table| > 0 {
      var e := table[|table| - 1];
      KeywordLoopValid(m, table[..|table| - 1], pairs);
      AddScoresValid(KeywordLoop(m, table[..|table| - 1], pairs), e.0, pairs(e.1));
    }
  }

  lemma {:induction false} BoostLoopValid(m: Scores, names: seq<String>, eligible: String -> bool)
    requires OrderedMap.Valid(m)
    ensures OrderedMap.Valid(BoostLoop(m, names, eligible))
  {
    if |names| > 0 {
      var m0 := BoostLoop(m, names[..|names| - 1], eligible);
      BoostLoopValid(m, names[..|names| - 1], eligible);
      PutValid(m0, names[|names| - 1], ScoreOf(m0, names[|names| - 1]) + PolicyBoost);
    }
  }

  /** The score dict never holds a name twice. */
  lemma ScoreTableValid(m: Mapper, query: String)
    ensures OrderedMap.Valid(ScoreTable(m, query))
  {
    var words := QueryWords(Lower(query));
    KeywordLoopValid([], m.keywords, (keywords: seq<String>) => PairScores(words, keywords));
    BoostLoopValid(KeywordPhase([], m.keywords, words), Keys(m.semanticToActual), IsPolicyName);
  }

  /** Every entry of the dict has a positive score. */
  lemma ScoresPositive(m: Mapper, query: String)
    requires Tables(m)
    ensures forall i :: 0 <= i < |ScoreTable(m, query)| ==> ScoreTable(m, query)[i].1 > 0
  {
    var t := ScoreTable(m, query);
    ScoreTableValid(m, query);
    forall i | 0 <= i < |t| ensures t[i].1 > 0 {
      GetOfMember(t, i);
      ScoreTableMatchesTotals(m, query, t[i].0);
    }
  }

  // ---------------------------------------------------------------------------
  // Ranking

  /** A dict that holds exactly the names with a positive `total`, each with it. */
  ghost predicate Tabulates(t: Scores, total: String -> int) {
    OrderedMap.Valid(t) && forall k :: Get(t, k) == if total(k) > 0 then Some(total(k)) else None
  }

  /** Sorting a dict's items keeps the names distinct. */
  lemma SortedValid(t: Scores)
    requires OrderedMap.Valid(t)
    ensures OrderedMap.Valid(SortDesc(t, EntryScore))
  {
    var sorted := SortDesc(t, EntryScore);
    assert DistinctBy(t, (e: (String, int)) => e.0) by {
      assert forall i :: 0 <= i < |t| ==> Keys(t)[i] == t[i].0;
    }
    SortKeepsDistinctBy(t, EntryScore, (e: (String, int)) => e.0);
    assert forall i :: 0 <= i < |sorted| ==> Keys(sorted)[i] == sorted[i].0;
  }

  /** Each sorted item of a tabulating dict carries its name's positive total. */
  lemma SortedEntryTotal(t: Scores, total: String -> int, i: nat)
    requires Tabulates(t, total) && i < |SortDesc(t, EntryScore)|
    ensures SortDesc(t, EntryScore)[i].1 == total(SortDesc(t, EntryScore)[i].0) > 0
  {
    var sorted := SortDesc(t, EntryScore);
    assert sorted[i] in multiset(t);
    var j :| 0 <= j < |t| && t[j] == sorted[i];
    GetOfMember(t, j);
  }

  /** Every name with a positive total is among the sorted items. */
  lemma SortedHasName(t: Scores, total: String -> int, k: String)
    requires Tabulates(t, total) && total(k) > 0
    ensures k in Keys(SortDesc(t, EntryScore))
  {
    var sorted := SortDesc(t, EntryScore);
    GetIsMember(t, k);
    assert (k, total(k)) in multiset(sorted);
    var i :| 0 <= i < |sorted| && sorted[i] == (k, total(k));
    assert Keys(sorted)[i] == k;
  }

  /** Ranking such a dict keeps every item: a prefix of the sorted names. */
  lemma RankIsSortedPrefix(t: Scores, total: String -> int, maxNamespaces: nat)
    requires Tabulates(t, total)
    ensures Rank(t, maxNamespaces) == Take(Keys(SortDesc(t, EntryScore)), maxNamespaces)
  {
    var sorted := SortDesc(t, EntryScore);
    forall i | 0 <= i < |sorted| ensures PositiveEntry(sorted[i]) {
      SortedEntryTotal(t, total, i);
    }
    FilterAll(sorted, PositiveEntry);
  }

  /** The ranked names are distinct, each with a positive total, in non-increasing
      order of total, and they are the best ones: a positively scored name is left
      out only when the cut is full and every ranked name scores at least as high. */
  lemma RankIsTopK(t: Scores, total: String -> int, maxNamespaces: nat)
    requires Tabulates(t, total)
    ensures var r := Rank(t, maxNamespaces);
      && Distinct(r)
      && (forall i :: 0 <= i < |r| ==> total(r[i]) > 0)
      && (forall i, j :: 0 <= i < j < |r| ==> total(r[i]) >= total(r[j]))
      && (forall k :: total(k) > 0 && k !in r ==>
            |r| == maxNamespaces && forall i :: 0 <= i < |r| ==> total(r[i]) >= total(k))
  {
    RankDistinctOrdered(t, total, maxNamespaces);
    forall k | total(k) > 0 && k !in Rank(t, maxNamespaces)
      ensures |Rank(t, maxNamespaces)| == maxNamespaces
      ensures forall i :: 0 <= i < |Rank(t, maxNamespaces)| ==> total(Rank(t, maxNamespaces)[i]) >= total(k)
    {
      RankLeavesOutOnlyWorse(t, total, maxNamespaces, k);
    }
  }

  lemma RankDistinctOrdered(t: Scores, total: String -> int, maxNamespaces: nat)
    requires Tabulates(t, total)
    ensures var r := Rank(t, maxNamespaces);
      && Distinct(r)
      && (forall i :: 0 <= i < |r| ==> total(r[i]) > 0)
      && (forall i, j :: 0 <= i < j < |r| ==> total(r[i]) >= total(r[j]))
  {
    var sorted := SortDesc(t, EntryScore);
    var r := Rank(t, maxNamespaces);
    RankNames(t, total, maxNamespaces);
    assert Distinct(r) by {
      SortedValid(t);
      assert Distinct(Keys(sorted));
    }
    forall i, j | 0 <= i < j < |r| ensures total(r[i]) >= total(r[j]) {
      assert EntryScore(sorted[i]) >= EntryScore(sorted[j]);
    }
  }

  /** The ranked names are the first sorted items' names, with their totals. */
  lemma RankNames(t: Scores, total: String -> int, maxNamespaces: nat)
    requires Tabulates(t, total)
    ensures var r := Rank(t, maxNamespaces);
      |r| <= |SortDesc(t, EntryScore)| &&
      forall i :: 0 <= i < |r| ==>
        r[i] == SortDesc(t, EntryScore)[i].0 && SortDesc(t, EntryScore)[i].1 == total(r[i]) > 0
  {
    var sorted := SortDesc(t, EntryScore);
    var r := Rank(t, maxNamespaces);
    RankIsSortedPrefix(t, total, maxNamespaces);
    forall i | 0 <= i < |r| ensures r[i] == sorted[i].0 && sorted[i].1 == total(r[i]) > 0 {
      assert r[i] == Keys(sorted)[i];
      SortedEntryTotal(t, total, i);
    }
  }

  lemma RankLeavesOutOnlyWorse(t: Scores, total: String -> int, maxNamespaces: nat, k: String)
    requires Tabulates(t, total) && total(k) > 0 && k !in Rank(t, maxNamespaces)
    ensures |Rank(t, maxNamespaces)| == maxNamespaces
    ensures forall i :: 0 <= i < |Rank(t, maxNamespaces)| ==> total(Rank(t, maxNamespaces)[i]) >= total(k)
  {
    var sorted := SortDesc(t, EntryScore);
    var r := Rank(t, maxNamespaces);
    var j := RankCutPosition(t, total, maxNamespaces, k);
    SortedEntryTotal(t, total, j);
    forall i | 0 <= i < |r| ensures total(r[i]) >= total(k) {
      SortedEntryTotal(t, total, i);
      assert EntryScore(sorted[i]) >= EntryScore(sorted[j]);
    }
  }

  /** A positively scored name missing from the ranking sits past the cut. */
  lemma RankCutPosition(t: Scores, total: String -> int, maxNamespaces: nat, k: String) returns (j: nat)
    requires Tabulates(t, total) && total(k) > 0 && k !in Rank(t, maxNamespaces)
    ensures j < |SortDesc(t, EntryScore)| && SortDesc(t, EntryScore)[j].0 == k
    ensures |Rank(t, maxNamespaces)| == maxNamespaces <= j
    ensures forall i :: 0 <= i < |Rank(t, maxNamespaces)| ==> Rank(t, maxNamespaces)[i] == SortDesc(t, EntryScore)[i].0
  {
    var sorted := SortDesc(t, EntryScore);
    var r := Rank(t, maxNamespaces);
    RankIsSortedPrefix(t, total, maxNamespaces);
    SortedHasName(t, total, k);
    j :| 0 <= j < |sorted| && Keys(sorted)[j] == k;
    assert forall i :: 0 <= i < |r| ==> r[i] == sorted[i].0;
  }

  /** The score dict of a query tabulates the reference scores. */
  lemma ScoreTableTabulates(m: Mapper, query: String)
    requires Tables(m)
    ensures Tabulates(ScoreTable(m, query), (name: String) => TotalScore(m, query, name))
  {
    ScoreTableValid(m, query);
    forall name ensures Get(ScoreTable(m, query), name) ==
      if TotalScore(m, query, name) > 0 then Some(TotalScore(m, query, name)) else None
    {
      ScoreTableMatchesTotals(m, query, name);
    }
  }

  /** The router's ranked names are the top `max_namespaces` names by reference
      score, best first. */
  lemma RankedIsTopK(m: Mapper, query: String, maxNamespaces: nat)
    requires Tables(m)
    ensures var r := Ranked(m, query, maxNamespaces);
      && Distinct(r)
      && (forall i :: 0 <= i < |r| ==> TotalScore(m, query, r[i]) > 0)
      && (forall i, j :: 0 <= i < j < |r| ==> TotalScore(m, query, r[i]) >= TotalScore(m, query, r[j]))
      && (forall name :: TotalScore(m, query, name) > 0 && name !in r ==>
            |r| == maxNamespaces && forall i :: 0 <= i < |r| ==> TotalScore(m, query, r[i]) >= TotalScore(m, query, name))
  {
    ScoreTableTabulates(m, query);
    RankIsTopK(ScoreTable(m, query), (name: String) => TotalScore(m, query, name), maxNamespaces);
  }

  /** The router never returns a name twice. */
  lemma RouterDistinct(m: Mapper, query: String, minNamespaces: nat, maxNamespaces: nat)
    requires Tables(m)
    ensures Distinct(GetRelevantSemanticNamespaces(m, query, minNamespaces, maxNamespaces))
  {
    var ranked := Ranked(m, query, maxNamespaces);
    RankedIsTopK(m, query, maxNamespaces);
    if |ranked| < minNamespaces {
      var remaining := Filter(Keys(m.semanticToActual), ns => ns !in ranked);
      FilterDistinct(Keys(m.semanticToActual), ns => ns !in ranked);
      var pad := Take(remaining, minNamespaces - |ranked|);
      assert forall i :: 0 <= i < |pad| ==> pad[i] == remaining[i];
    }
  }

  /** With enough forward-table names, the router returns at least `min_namespaces`. */
  lemma RouterAtLeastMin(m: Mapper, query: String, minNamespaces: nat, maxNamespaces: nat)
    requires Tables(m) && minNamespaces <= |m.semanticToActual|
    ensures |GetRelevantSemanticNamespaces(m, query, minNamespaces, maxNamespaces)| >= minNamespaces
  {
    var ranked := Ranked(m, query, maxNamespaces);
    var names := Keys(m.semanticToActual);
    if |ranked| < minNamespaces {
      var taken := Filter(names, ns => ns in ranked);
      FilterComplement(names, ns => ns in ranked, ns => ns !in ranked);
      FilterDistinct(names, ns => ns in ranked);
      DistinctWithin(taken, ranked);
    }
  }

  /** When no name scores, the router returns the first `min_namespaces` names of
      the forward table. */
  lemma RouterNoMatch(m: Mapper, query: String, minNamespaces: nat, maxNamespaces: nat)
    requires Tables(m) && forall name :: TotalScore(m, query, name) == 0
    ensures GetRelevantSemanticNamespaces(m, query, minNamespaces, maxNamespaces)
      == Take(Keys(m.semanticToActual), minNamespaces)
  {
    var t := ScoreTable(m, query);
    if |t| > 0 {
      ScoreTableValid(m, query);
      GetOfMember(t, 0);
      ScoreTableMatchesTotals(m, query, t[0].0);
      assert false;
    }
    assert Ranked(m, query, maxNamespaces) == [];
    FilterAll(Keys(m.semanticToActual), ns => ns !in []);
  }
}
