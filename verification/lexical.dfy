/** The lexical half of the engine (performance_fix_hybrid_search.py): the corpus
    sampled from the vector index, its tokenisation, the state the BM25 build
    leaves behind, and the BM25 search over it. The vector index's answers and
    the BM25Okapi scorer are parameters. */
module Lexical {
  import opened Seqs
  import opened Wrappers
  import opened Text
  import opened Results
  import opened Sorting

  /** Matches requested per namespace when sampling the corpus. */
  const SampleSize: nat := 50

  /** A stripped text joins the corpus only when it is longer than this. */
  const MinTextLength: nat := 20

  /** A tokenised document joins the index only with at least this many tokens. */
  const MinTokens: nat := 3

  /** The characters stripped from both ends of every token. */
  predicate IsPunct(c: char) {
    c in ".,!?;:\"()[]{}"
  }

  /** The stopwords used when NLTK's English list cannot be loaded. */
  const FallbackStopWords: set<String> := {
    "the", "and", "a", "an", "in", "on", "at", "to", "for", "with", "by", "of", "is", "are",
    "was", "were", "be", "been", "being", "have", "has", "had", "do", "does", "did", "will",
    "would", "could", "should"
  }

  // ---------------------------------------------------------------------------
  // The corpus

  /** The text a match contributes: its `content`, or its `text` when `content`
      is empty or absent. */
  function DocumentText(md: Metadata): String {
    if md.content != [] then md.content else md.text
  }

  /** The stripped text of a match, when it is long enough to be kept. */
  function CorpusText(m: Match): (r: Option<String>)
    ensures r.Some? ==> |r.value| > MinTextLength
  {
    var text := Strip(DocumentText(m.metadata));
    if |text| > MinTextLength then Some(text) else None
  }

  /** `bm25_documents` and `doc_ids`: the kept texts and, position for position,
      the id of the match and the namespace it came from. */
  datatype Corpus = Corpus(documents: seq<String>, docIds: seq<(String, String)>)

  predicate Lockstep(c: Corpus) {
    |c.documents| == |c.docIds|
  }

  /** Some position of the corpus holds this text with this id and namespace. */
  ghost predicate InCorpus(c: Corpus, text: String, id: String, ns: String) {
    exists i :: 0 <= i < |c.documents| && i < |c.docIds| && c.documents[i] == text && c.docIds[i] == (id, ns)
  }

  /** Some match of `ms` has this id and contributes this text. */
  ghost predicate Contributes(ms: seq<Match>, text: String, id: String) {
    exists m :: m in ms && m.id == id && CorpusText(m) == Some(text)
  }

  /** The two lists in lockstep, every text long enough. */
  predicate WellFormed(c: Corpus) {
    Lockstep(c) && forall i :: 0 <= i < |c.documents| ==> |c.documents[i]| > MinTextLength
  }

  /** One match of namespace `ns`: appended to both lists, or skipped. */
  function AddMatch(c: Corpus, ns: String, m: Match): (r: Corpus)
    ensures WellFormed(c) ==> WellFormed(r)
  {
    match CorpusText(m)
    case None => c
    case Some(text) => Corpus(c.documents + [text], c.docIds + [(m.id, ns)])
  }

  function AddMatches(c: Corpus, ns: String, ms: seq<Match>): (r: Corpus)
    ensures WellFormed(c) ==> WellFormed(r)
  {
    if |ms| == 0 then c else AddMatch(AddMatches(c, ns, ms[..|ms| - 1]), ns, ms[|ms| - 1])
  }

  /** The sampling loop of the build: `sample(ns)` is what the index returned for
      the namespace's dummy-vector query (at most `SampleSize` matches), `None`
      when that query raised, in which case the namespace is skipped. */
  function CollectCorpus(namespaces: seq<String>, sample: String -> Option<seq<Match>>): (r: Corpus)
    ensures WellFormed(r)
  {
    if |namespaces| == 0 then Corpus([], [])
    else
      var n := |namespaces| - 1;
      var c := CollectCorpus(namespaces[..n], sample);
      match sample(namespaces[n])
      case None => c
      case Some(ms) => AddMatches(c, namespaces[n], ms)
  }

  lemma AddMatchMembers(c: Corpus, ns: String, m: Match, text: String, id: String, ns': String)
    requires WellFormed(c)
    ensures InCorpus(AddMatch(c, ns, m), text, id, ns') <==>
              InCorpus(c, text, id, ns') || (ns' == ns && m.id == id && CorpusText(m) == Some(text))
  {
    var r := AddMatch(c, ns, m);
    if CorpusText(m).Some? {
      var n := |c.documents|;
      if InCorpus(r, text, id, ns') {
        var i :| 0 <= i < |r.documents| && i < |r.docIds| && r.documents[i] == text && r.docIds[i] == (id, ns');
        if i < n {
          assert c.documents[i] == text && c.docIds[i] == (id, ns');
        }
      }
      if InCorpus(c, text, id, ns') {
        var i :| 0 <= i < |c.documents| && i < |c.docIds| && c.documents[i] == text && c.docIds[i] == (id, ns');
        assert r.documents[i] == text && r.docIds[i] == (id, ns');
      }
      if ns' == ns && m.id == id && CorpusText(m) == Some(text) {
        assert r.documents[n] == text && r.docIds[n] == (id, ns');
      }
    }
  }

  /** A match list contributes what its prefix or its last match contributes. */
  lemma ContributesSnoc(ms: seq<Match>, text: String, id: String)
    requires |ms| > 0
    ensures Contributes(ms, text, id) <==>
              Contributes(ms[..|ms| - 1], text, id) || (ms[|ms| - 1].id == id && CorpusText(ms[|ms| - 1]) == Some(text))
  {
    var n := |ms| - 1;
    var init := ms[..n];
    assert ms == init + [ms[n]];
    if Contributes(ms, text, id) {
      var m :| m in ms && m.id == id && CorpusText(m) == Some(text);
      if m != ms[n] {
        assert m in init;
      }
    }
    if Contributes(init, text, id) {
      var m :| m in init && m.id == id && CorpusText(m) == Some(text);
      assert m in ms;
    }
  }

  lemma {:induction false} AddMatchesMembers(c: Corpus, ns: String, ms: seq<Match>, text: String, id: String, ns': String)
    requires WellFormed(c)
    ensures InCorpus(AddMatches(c, ns, ms), text, id, ns') <==>
              InCorpus(c, text, id, ns') || (ns' == ns && Contributes(ms, text, id))
  {
    if |ms| > 0 {
      var n := |ms| - 1;
      AddMatchesMembers(c, ns, ms[..n], text, id, ns');
      AddMatchMembers(AddMatches(c, ns, ms[..n]), ns, ms[n], text, id, ns');
      ContributesSnoc(ms, text, id);
    } else {
      assert !Contributes(ms, text, id);
    }
  }

  /** The corpus holds exactly the long-enough texts of the namespaces whose
      sample succeeded, each with its match id and namespace. */
  lemma {:induction false} CorpusMembers(namespaces: seq<String>, sample: String -> Option<seq<Match>>,
                                         text: String, id: String, ns: String)
    ensures InCorpus(CollectCorpus(namespaces, sample), text, id, ns) <==>
              ns in namespaces && sample(ns).Some? && Contributes(sample(ns).value, text, id)
  {
    if |namespaces| > 0 {
      var n := |namespaces| - 1;
      var init := namespaces[..n];
      CorpusMembers(init, sample, text, id, ns);
      assert namespaces == init + [namespaces[n]];
      var c := CollectCorpus(init, sample);
      match sample(namespaces[n])
      case None =>
      case Some(ms) =>
        AddMatchesMembers(c, namespaces[n], ms, text, id, ns);
    }
  }

  // ---------------------------------------------------------------------------
  // Tokenisation

  /** The test on a raw token of the lower-cased document, before any
      punctuation is stripped: longer than two characters, not a stopword, not
      all digits. */
  predicate KeepsRawToken(t: String, stop: set<String>) {
    |t| > 2 && Lower(t) !in stop && !IsDigits(t)
  }

  function StripPunct(t: String): String {
    StripBy(t, IsPunct)
  }

  function RawTokenTest(stop: set<String>): String -> bool {
    t => KeepsRawToken(t, stop)
  }

  /** The stripped forms of the raw words passing `keep`, in order. */
  function TokensOf(words: seq<String>, keep: String -> bool): seq<String> {
    if |words| == 0 then []
    else
      var n := |words| - 1;
      TokensOf(words[..n], keep) + if keep(words[n]) then [StripPunct(words[n])] else []
  }

  /** One document's tokens: the words of its lower-cased text that pass the
      raw-token test, punctuation-stripped. */
  function DocumentTokens(doc: String, stop: set<String>): seq<String> {
    TokensOf(Words(Lower(doc)), RawTokenTest(stop))
  }

  /** A token is the stripped form of a raw word that passed the test, and every
      word that passes yields its stripped form. With the raw-token test, a
      stopword followed by a comma passes, and its stripped form is the stopword
      itself. */
  /** `t` is the stripped form of a word of `words` passing `keep`. */
  ghost predicate FromKeptWord(words: seq<String>, keep: String -> bool, t: String) {
    exists i :: 0 <= i < |words| && keep(words[i]) && t == StripPunct(words[i])
  }

  lemma TokensOfMembers(words: seq<String>, keep: String -> bool)
    ensures forall k :: 0 <= k < |TokensOf(words, keep)| ==> FromKeptWord(words, keep, TokensOf(words, keep)[k])
    ensures forall i :: 0 <= i < |words| && keep(words[i]) ==> StripPunct(words[i]) in TokensOf(words, keep)
  {
    forall k | 0 <= k < |TokensOf(words, keep)| ensures FromKeptWord(words, keep, TokensOf(words, keep)[k]) {
      TokenFromWord(words, keep, k);
    }
    forall i | 0 <= i < |words| && keep(words[i]) ensures StripPunct(words[i]) in TokensOf(words, keep) {
      WordYieldsToken(words, keep, i);
    }
  }

  lemma {:induction false} TokenFromWord(words: seq<String>, keep: String -> bool, k: nat)
    requires k < |TokensOf(words, keep)|
    ensures FromKeptWord(words, keep, TokensOf(words, keep)[k])
  {
    var n := |words| - 1;
    var init := words[..n];
    var rest := TokensOf(init, keep);
    if k < |rest| {
      TokenFromWord(init, keep, k);
      var i :| 0 <= i < |init| && keep(init[i]) && rest[k] == StripPunct(init[i]);
      assert words[i] == init[i];
    } else {
      assert keep(words[n]);
    }
  }

  lemma {:induction false} WordYieldsToken(words: seq<String>, keep: String -> bool, i: nat)
    requires i < |words| && keep(words[i])
    ensures StripPunct(words[i]) in TokensOf(words, keep)
  {
    var n := |words| - 1;
    if i < n {
      WordYieldsToken(words[..n], keep, i);
      assert words[..n][i] == words[i];
    }
  }

  /** The tokeniser with a given stopword set (NLTK's, or the fallback). */
  function Tokenizer(stop: set<String>): String -> seq<String> {
    doc => DocumentTokens(doc, stop)
  }

  /** `_tokenize_documents_fast` for tokeniser `tok`: the token lists with at
      least three tokens, in document order; the others are dropped. */
  function TokenizeWith(docs: seq<String>, tok: String -> seq<String>): (r: seq<seq<String>>)
    ensures |r| <= |docs|
    ensures forall k :: 0 <= k < |r| ==> |r[k]| >= MinTokens
  {
    if |docs| == 0 then []
    else
      var n := |docs| - 1;
      TokenizeWith(docs[..n], tok) + if |tok(docs[n])| >= MinTokens then [tok(docs[n])] else []
  }

  /** The positions of the documents `TokenizeWith` keeps (not computed by the
      source; the corrected search needs it). */
  function KeptPositions(docs: seq<String>, tok: String -> seq<String>): (r: seq<nat>)
    ensures forall k :: 0 <= k < |r| ==> r[k] < |docs|
  {
    if |docs| == 0 then []
    else
      var n := |docs| - 1;
      KeptPositions(docs[..n], tok) + if |tok(docs[n])| >= MinTokens then [n] else []
  }

  predicate StrictlyIncreasing(xs: seq<nat>) {
    forall i, j :: 0 <= i < j < |xs| ==> xs[i] < xs[j]
  }

  /** Kept token list `k` is the tokenisation of document `KeptPositions[k]`;
      the positions increase and are exactly those of documents with at least
      three tokens. */
  lemma {:induction false} KeptPositionsMatch(docs: seq<String>, tok: String -> seq<String>)
    ensures |KeptPositions(docs, tok)| == |TokenizeWith(docs, tok)|
    ensures StrictlyIncreasing(KeptPositions(docs, tok))
    ensures forall k :: 0 <= k < |KeptPositions(docs, tok)| ==>
              TokenizeWith(docs, tok)[k] == tok(docs[KeptPositions(docs, tok)[k]])
    ensures forall i :: 0 <= i < |docs| ==> (i in KeptPositions(docs, tok) <==> |tok(docs[i])| >= MinTokens)
  {
    if |docs| > 0 {
      var n := |docs| - 1;
      var init := docs[..n];
      KeptPositionsMatch(init, tok);
      var p, t := KeptPositions(init, tok), TokenizeWith(init, tok);
      forall k | 0 <= k < |p| ensures TokenizeWith(docs, tok)[k] == tok(docs[KeptPositions(docs, tok)[k]]) {
        assert KeptPositions(docs, tok)[k] == p[k] && TokenizeWith(docs, tok)[k] == t[k];
        assert docs[p[k]] == init[p[k]];
      }
      forall i | 0 <= i < n ensures i in KeptPositions(docs, tok) <==> |tok(docs[i])| >= MinTokens {
        assert docs[i] == init[i];
        assert i in KeptPositions(docs, tok) <==> i in p;
      }
    }
  }

  function Indices(n: nat): (r: seq<nat>)
    ensures |r| == n
    ensures forall i :: 0 <= i < n ==> r[i] == i
  {
    if n == 0 then [] else Indices(n - 1) + [n - 1]
  }

  /** When no document is dropped, token list `k` belongs to document `k`. */
  lemma {:induction false} NothingDroppedAligned(docs: seq<String>, tok: String -> seq<String>)
    requires |TokenizeWith(docs, tok)| == |docs|
    ensures KeptPositions(docs, tok) == Indices(|docs|)
  {
    if |docs| > 0 {
      var n := |docs| - 1;
      assert |TokenizeWith(docs[..n], tok)| == n;
      NothingDroppedAligned(docs[..n], tok);
    }
  }

  // ---------------------------------------------------------------------------
  // The index the build leaves behind

  /** `bm25_index`: `None` when the corpus is empty; never assigned when every
      document was dropped by the tokeniser; otherwise built over the kept token
      lists. `positions` records which document each list came from. */
  datatype Index = NoIndex | Unassigned | Built(tokenized: seq<seq<String>>, positions: seq<nat>)

  datatype Lexicon = Lexicon(corpus: Corpus, index: Index)

  /** What the search relies on: the two corpus lists in lockstep and every
      recorded position naming a document. */
  predicate Valid(b: Lexicon) {
    Lockstep(b.corpus) &&
    (b.index.Built? ==>
       |b.index.positions| == |b.index.tokenized| &&
       forall k :: 0 <= k < |b.index.positions| ==> b.index.positions[k] < |b.corpus.documents|)
  }

  /** A built index holds, for each kept document, its tokens under `tok`, at
      least three of them. */
  predicate TokenizedFrom(b: Lexicon, tok: String -> seq<String>) {
    Valid(b) &&
    (b.index.Built? ==>
       forall k :: 0 <= k < |b.index.tokenized| ==>
         |b.index.tokenized[k]| >= MinTokens &&
         b.index.tokenized[k] == tok(b.corpus.documents[b.index.positions[k]]))
  }

  /** `_build_and_cache_bm25` with tokeniser `tok`, which is `Tokenizer(stop)`
      for the stopword set in use (the pickle cache is left out). */
  function Build(namespaces: seq<String>, sample: String -> Option<seq<Match>>, tok: String -> seq<String>): (r: Lexicon)
    ensures TokenizedFrom(r, tok)
    ensures r.corpus == CollectCorpus(namespaces, sample)
    ensures r.index.NoIndex? <==> r.corpus.documents == []
    ensures r.index.Unassigned? <==>
              r.corpus.documents != [] &&
              forall i :: 0 <= i < |r.corpus.documents| ==> |tok(r.corpus.documents[i])| < MinTokens
    ensures r.index.Built? ==> |r.index.tokenized| > 0 && r.index.positions == KeptPositions(r.corpus.documents, tok)
  {
    var c := CollectCorpus(namespaces, sample);
    if c.documents == [] then Lexicon(c, NoIndex)
    else
      var tokenized := TokenizeWith(c.documents, tok);
      TokenizedDocuments(c.documents, tok);
      if tokenized == [] then Lexicon(c, Unassigned)
      else Lexicon(c, Built(tokenized, KeptPositions(c.documents, tok)))
  }

  /** The tokeniser's output is empty exactly when it drops every document. */
  lemma TokenizedDocuments(docs: seq<String>, tok: String -> seq<String>)
    ensures |KeptPositions(docs, tok)| == |TokenizeWith(docs, tok)|
    ensures TokenizeWith(docs, tok) == [] <==> forall i :: 0 <= i < |docs| ==> |tok(docs[i])| < MinTokens
    ensures forall k :: 0 <= k < |TokenizeWith(docs, tok)| ==>
              TokenizeWith(docs, tok)[k] == tok(docs[KeptPositions(docs, tok)[k]])
  {
    KeptPositionsMatch(docs, tok);
    var p := KeptPositions(docs, tok);
    if |p| > 0 {
      var i := p[0];
      assert 0 <= i < |docs| && i in p;
      assert |tok(docs[i])| >= MinTokens;
    } else {
      forall i | 0 <= i < |docs| ensures |tok(docs[i])| < MinTokens {
        assert i !in p;
      }
    }
  }

  // ---------------------------------------------------------------------------
  // The search

  /** The query's raw tokens are kept when longer than two characters and not
      all digits; there is no stopword test. */
  predicate KeepsQueryToken(t: String) {
    |t| > 2 && !IsDigits(t)
  }

  /** A kept raw token is punctuation-stripped, then lower-cased. */
  function QueryToken(t: String): String {
    Lower(StripPunct(t))
  }

  function QueryTokens(query: String): seq<String> {
    Map(QueryToken, Filter(Words(query), KeepsQueryToken))
  }

  /** The score of index `i`, as a total function for sorting. */
  function ScoreKey(scores: seq<real>): nat -> real {
    (i: nat) => if i < |scores| then scores[i] else 0.0
  }

  /** `order` lists every index of `scores` once, highest score first. */
  ghost predicate IsRanking(order: seq<nat>, scores: seq<real>) {
    |order| == |scores| &&
    (forall k :: 0 <= k < |order| ==> order[k] < |scores|) &&
    multiset(order) == multiset(Indices(|scores|)) &&
    SortedDesc(order, ScoreKey(scores))
  }

  /** `np.argsort(scores)[::-1]`. The order among equal scores is up to numpy;
      this one keeps equal scores in index order. */
  function ArgsortDesc(scores: seq<real>): (r: seq<nat>)
    ensures IsRanking(r, scores)
  {
    var r := SortDesc<nat>(Indices(|scores|), ScoreKey(scores));
    forall k | 0 <= k < |r| ensures r[k] < |scores| {
      assert r[k] in multiset(Indices(|scores|));
    }
    r
  }

  /** The hit for a score and the document at position `doc`. */
  function HitFor(c: Corpus, doc: nat, score: real): Hit
    requires Lockstep(c) && doc < |c.documents|
  {
    Hit(c.docIds[doc].0, score, Metadata([], c.documents[doc]), c.docIds[doc].1, Bm25)
  }

  /** Score index `idx` as the code reads it: the document, id and namespace at
      position `idx` of the corpus lists, when `idx` is within them and its
      score is positive. */
  function AsWrittenAt(c: Corpus, scores: seq<real>): (at: nat -> Option<Hit>)
    requires Lockstep(c)
    ensures forall idx: nat :: at(idx).Some? ==> idx < |scores| && at(idx).value.score == scores[idx]
    ensures forall idx: nat :: at(idx).Some? ==> at(idx).value.score > 0.0 && at(idx).value.source == Bm25
  {
    (idx: nat) => if idx < |c.documents| && idx < |scores| && scores[idx] > 0.0 then Some(HitFor(c, idx, scores[idx])) else None
  }

  /** Score index `idx` read through the positions of the kept documents: the
      document whose tokens produced the score. */
  function AlignedAt(c: Corpus, positions: seq<nat>, scores: seq<real>): (at: nat -> Option<Hit>)
    requires Lockstep(c) && forall k :: 0 <= k < |positions| ==> positions[k] < |c.documents|
    ensures forall idx: nat :: at(idx).Some? ==> idx < |scores| && at(idx).value.score == scores[idx]
    ensures forall idx: nat :: at(idx).Some? ==> at(idx).value.score > 0.0 && at(idx).value.source == Bm25
  {
    (idx: nat) => if idx < |positions| && idx < |scores| && scores[idx] > 0.0 then Some(HitFor(c, positions[idx], scores[idx])) else None
  }

  /** The hit, if any, as a list. */
  function Found(h: Option<Hit>): (r: seq<Hit>)
    ensures |r| <= 1
    ensures forall k :: 0 <= k < |r| ==> h == Some(r[k])
  {
    match h
    case Some(x) => [x]
    case None => []
  }

  /** The loop over the top indices: the hits `at` yields, in rank order. */
  function Collect(top: seq<nat>, at: nat -> Option<Hit>): (r: seq<Hit>)
    ensures |r| <= |top|
  {
    if |top| == 0 then []
    else
      var n := |top| - 1;
      Collect(top[..n], at) + Found(at(top[n]))
  }

  /** Every collected hit is what `at` yields for one of the indices. */
  lemma {:induction false} CollectFrom(top: seq<nat>, at: nat -> Option<Hit>)
    ensures forall k :: 0 <= k < |Collect(top, at)| ==>
              exists j :: 0 <= j < |top| && at(top[j]) == Some(Collect(top, at)[k])
  {
    if |top| > 0 {
      var n := |top| - 1;
      CollectFrom(top[..n], at);
      var rest := Collect(top[..n], at);
      var r := Collect(top, at);
      var last := Found(at(top[n]));
      assert r == rest + last;
      forall k | 0 <= k < |r|
        ensures exists j :: 0 <= j < |top| && at(top[j]) == Some(r[k])
      {
        if k < |rest| {
          var j :| 0 <= j < n && at(top[..n][j]) == Some(rest[k]);
          assert top[j] == top[..n][j] && r[k] == rest[k];
        } else {
          assert at(top[n]) == Some(r[k]);
        }
      }
      assert forall k :: 0 <= k < |Collect(top, at)| ==> exists j :: 0 <= j < |top| && at(top[j]) == Some(Collect(top, at)[k]);
    } else {
      assert |Collect(top, at)| == 0;
    }
  }

  /** Every index `at` yields a hit for is collected. */
  lemma {:induction false} CollectKeeps(top: seq<nat>, at: nat -> Option<Hit>, j: nat)
    requires j < |top| && at(top[j]).Some?
    ensures at(top[j]).value in Collect(top, at)
  {
    var n := |top| - 1;
    if j < n {
      CollectKeeps(top[..n], at, j);
    }
  }

  /** Hits collected along an order of non-increasing scores are themselves in
      non-increasing score order. */
  lemma {:induction false} CollectSorted(top: seq<nat>, at: nat -> Option<Hit>, key: nat -> real)
    requires forall idx: nat :: at(idx).Some? ==> at(idx).value.score == key(idx)
    requires SortedDesc(top, key)
    ensures SortedDesc(Collect(top, at), HitScore)
  {
    if |top| > 0 {
      var n := |top| - 1;
      CollectSorted(top[..n], at, key);
      var rest := Collect(top[..n], at);
      if at(top[n]).Some? {
        CollectFrom(top[..n], at);
        forall k | 0 <= k < |rest| ensures rest[k].score >= key(top[n]) {
          var j :| 0 <= j < n && at(top[..n][j]) == Some(rest[k]);
          assert top[..n][j] == top[j];
        }
      }
    }
  }

  /** The error the source raises when `bm25_index` was never assigned. */
  const MissingIndexError: String := "object has no attribute 'bm25_index'"

  /** `_fast_bm25_search` as written; `scorer(tokenized, tokens)` is BM25Okapi's
      `get_scores`. Score index `i` is read against `bm25_documents[i]`. */
  function SearchAsWritten(b: Lexicon, query: String, topK: nat, scorer: (seq<seq<String>>, seq<String>) -> seq<real>): (r: Result<seq<Hit>, String>)
    requires Valid(b)
    ensures r.Failure? <==> b.index.Unassigned?
    ensures r.Success? ==> |r.value| <= topK
    ensures b.index.NoIndex? ==> r == Success([])
    ensures b.index.Built? && QueryTokens(query) == [] ==> r == Success([])
  {
    match b.index
    case NoIndex => Success([])
    case Unassigned => Failure(MissingIndexError)
    case Built(tokenized, _) =>
      var tokens := QueryTokens(query);
      if tokens == [] then Success([])
      else
        var scores := scorer(tokenized, tokens);
        Success(Collect(Take(ArgsortDesc(scores), topK), AsWrittenAt(b.corpus, scores)))
  }

  /** The search with score index `i` read against the document it was computed
      from, `bm25_documents[positions[i]]`; this is the search the engine uses. */
  function Search(b: Lexicon, query: String, topK: nat, scorer: (seq<seq<String>>, seq<String>) -> seq<real>): (r: Result<seq<Hit>, String>)
    requires Valid(b)
    ensures r.Failure? <==> b.index.Unassigned?
    ensures r.Success? ==> |r.value| <= topK
    ensures b.index.NoIndex? ==> r == Success([])
    ensures b.index.Built? && QueryTokens(query) == [] ==> r == Success([])
  {
    match b.index
    case NoIndex => Success([])
    case Unassigned => Failure(MissingIndexError)
    case Built(tokenized, positions) =>
      var tokens := QueryTokens(query);
      if tokens == [] then Success([])
      else
        var scores := scorer(tokenized, tokens);
        Success(Collect(Take(ArgsortDesc(scores), topK), AlignedAt(b.corpus, positions, scores)))
  }

  // ---------------------------------------------------------------------------
  // What the search returns

  /** The top `topK` ranked indices, highest score first. */
  lemma TopRanked(scores: seq<real>, topK: nat)
    ensures SortedDesc(Take(ArgsortDesc(scores), topK), ScoreKey(scores))
    ensures forall j :: 0 <= j < |Take(ArgsortDesc(scores), topK)| ==> Take(ArgsortDesc(scores), topK)[j] < |scores|
  {
    var order := ArgsortDesc(scores);
    PrefixSorted(order, |Take(order, topK)|, ScoreKey(scores));
  }

  /** Hits collected along the top `topK` ranked indices, by a reading that gives
      index `idx` a positive score `scores[idx]` and the BM25 label, are sorted,
      positive and labelled. */
  lemma CollectHits(scores: seq<real>, topK: nat, at: nat -> Option<Hit>)
    requires forall idx: nat :: at(idx).Some? ==> idx < |scores| && at(idx).value.score == scores[idx]
    requires forall idx: nat :: at(idx).Some? ==> at(idx).value.score > 0.0 && at(idx).value.source == Bm25
    ensures var r := Collect(Take(ArgsortDesc(scores), topK), at);
      SortedDesc(r, HitScore) &&
      forall k :: 0 <= k < |r| ==> r[k].score > 0.0 && r[k].source == Bm25
  {
    var top := Take(ArgsortDesc(scores), topK);
    TopRanked(scores, topK);
    CollectSorted(top, at, ScoreKey(scores));
    CollectFrom(top, at);
  }

  /** Every hit has a positive score and the BM25 label, and the hits come in
      non-increasing score order. */
  lemma SearchHits(b: Lexicon, query: String, topK: nat, scorer: (seq<seq<String>>, seq<String>) -> seq<real>)
    requires Valid(b)
    ensures var r := Search(b, query, topK, scorer);
      r.Success? ==>
        SortedDesc(r.value, HitScore) &&
        forall k :: 0 <= k < |r.value| ==> r.value[k].score > 0.0 && r.value[k].source == Bm25
  {
    if b.index.Built? && QueryTokens(query) != [] {
      var scores := scorer(b.index.tokenized, QueryTokens(query));
      var top := Take(ArgsortDesc(scores), topK);
      var at := AlignedAt(b.corpus, b.index.positions, scores);
      assert Search(b, query, topK, scorer) == Success(Collect(top, at));
      CollectHits(scores, topK, at);
    }
  }

  /** As written, every hit also has a positive score and the BM25 label and the
      hits come in non-increasing score order; but the hit for score index `i` is
      built from position `i` of the full corpus lists, whatever document the
      tokeniser kept at index `i`. */
  lemma SearchAsWrittenHits(b: Lexicon, query: String, topK: nat, scorer: (seq<seq<String>>, seq<String>) -> seq<real>)
    requires Valid(b)
    ensures var r := SearchAsWritten(b, query, topK, scorer);
      r.Success? ==>
        SortedDesc(r.value, HitScore) &&
        forall k :: 0 <= k < |r.value| ==> r.value[k].score > 0.0 && r.value[k].source == Bm25
  {
    if b.index.Built? && QueryTokens(query) != [] {
      var scores := scorer(b.index.tokenized, QueryTokens(query));
      var top := Take(ArgsortDesc(scores), topK);
      var at := AsWrittenAt(b.corpus, scores);
      assert SearchAsWritten(b, query, topK, scorer) == Success(Collect(top, at));
      CollectHits(scores, topK, at);
    }
  }

  /** As written, the hit for score index `i` is built from position `i` of the
      full corpus lists: the text, id and namespace stored there. */
  lemma SearchAsWrittenReports(b: Lexicon, query: String, topK: nat, scorer: (seq<seq<String>>, seq<String>) -> seq<real>)
    requires Valid(b)
    ensures var r := SearchAsWritten(b, query, topK, scorer);
      r.Success? && b.index.Built? ==>
        ReportsCorpusPositions(b.corpus, r.value, scorer(b.index.tokenized, QueryTokens(query)))
  {
    if b.index.Built? && QueryTokens(query) != [] {
      var scores := scorer(b.index.tokenized, QueryTokens(query));
      var top := Take(ArgsortDesc(scores), topK);
      assert SearchAsWritten(b, query, topK, scorer) == Success(Collect(top, AsWrittenAt(b.corpus, scores)));
      CollectAsWritten(b.corpus, scores, top);
    }
  }

  /** Each hit is the one built from some position `i` of the full corpus lists,
      scored `scores[i]`. */
  ghost predicate ReportsCorpusPositions(c: Corpus, hits: seq<Hit>, scores: seq<real>)
    requires Lockstep(c)
  {
    forall k :: 0 <= k < |hits| ==>
      exists i :: 0 <= i < |c.documents| && i < |scores| && hits[k] == HitFor(c, i, scores[i])
  }

  lemma CollectAsWritten(c: Corpus, scores: seq<real>, top: seq<nat>)
    requires Lockstep(c)
    ensures ReportsCorpusPositions(c, Collect(top, AsWrittenAt(c, scores)), scores)
  {
    var at := AsWrittenAt(c, scores);
    var r := Collect(top, at);
    CollectFrom(top, at);
    forall k | 0 <= k < |r|
      ensures exists i :: 0 <= i < |c.documents| && i < |scores| && r[k] == HitFor(c, i, scores[i])
    {
      var j :| 0 <= j < |top| && at(top[j]) == Some(r[k]);
      var i := top[j];
      assert i < |c.documents| && i < |scores| && r[k] == HitFor(c, i, scores[i]);
    }
  }

  /** Each hit reports a document of the corpus, with its id and namespace,
      together with the score given to that very document's tokens. */
  ghost predicate ReportsScoredDocuments(b: Lexicon, tok: String -> seq<String>, hits: seq<Hit>, scores: seq<real>)
    requires b.index.Built?
  {
    forall k :: 0 <= k < |hits| ==>
      InCorpus(b.corpus, hits[k].metadata.text, hits[k].id, hits[k].namespace) &&
      exists i :: 0 <= i < |b.index.tokenized| && i < |scores| && hits[k].score == scores[i] &&
        b.index.tokenized[i] == tok(hits[k].metadata.text)
  }

  /** The hits of a search over an index built with tokeniser `tok` report the
      documents whose tokens were scored. */
  lemma SearchReportsScoredDocument(b: Lexicon, tok: String -> seq<String>,
                                    query: String, topK: nat, scorer: (seq<seq<String>>, seq<String>) -> seq<real>)
    requires TokenizedFrom(b, tok)
    ensures var r := Search(b, query, topK, scorer);
      b.index.Built? && r.Success? ==>
        ReportsScoredDocuments(b, tok, r.value, scorer(b.index.tokenized, QueryTokens(query)))
  {
    if b.index.Built? && QueryTokens(query) != [] {
      var scores := scorer(b.index.tokenized, QueryTokens(query));
      CollectReports(b, tok, scores, Take(ArgsortDesc(scores), topK));
    }
  }

  lemma CollectReports(b: Lexicon, tok: String -> seq<String>, scores: seq<real>, top: seq<nat>)
    requires TokenizedFrom(b, tok) && b.index.Built?
    ensures ReportsScoredDocuments(b, tok, Collect(top, AlignedAt(b.corpus, b.index.positions, scores)), scores)
  {
    var at := AlignedAt(b.corpus, b.index.positions, scores);
    var r := Collect(top, at);
    CollectFrom(top, at);
    forall k | 0 <= k < |r|
      ensures InCorpus(b.corpus, r[k].metadata.text, r[k].id, r[k].namespace)
      ensures exists i :: 0 <= i < |b.index.tokenized| && i < |scores| && r[k].score == scores[i] &&
                b.index.tokenized[i] == tok(r[k].metadata.text)
    {
      var j :| 0 <= j < |top| && at(top[j]) == Some(r[k]);
      HitReportsDocument(b, tok, scores, top[j]);
    }
  }

  /** The aligned hit for score index `i` is a corpus entry whose tokens are token list `i`. */
  lemma HitReportsDocument(b: Lexicon, tok: String -> seq<String>, scores: seq<real>, i: nat)
    requires TokenizedFrom(b, tok) && b.index.Built?
    requires AlignedAt(b.corpus, b.index.positions, scores)(i).Some?
    ensures var h := AlignedAt(b.corpus, b.index.positions, scores)(i).value;
      InCorpus(b.corpus, h.metadata.text, h.id, h.namespace) &&
      i < |b.index.tokenized| && i < |scores| && h.score == scores[i] &&
      b.index.tokenized[i] == tok(h.metadata.text)
  {
    var d := b.index.positions[i];
    var h := AlignedAt(b.corpus, b.index.positions, scores)(i).value;
    assert h == HitFor(b.corpus, d, scores[i]);
    assert b.corpus.documents[d] == h.metadata.text && b.corpus.docIds[d] == (h.id, h.namespace);
  }

  /** Two hit-producing readings that agree on every ranked index collect the same hits. */
  lemma {:induction false} CollectAgree(top: seq<nat>, at1: nat -> Option<Hit>, at2: nat -> Option<Hit>)
    requires forall j :: 0 <= j < |top| ==> at1(top[j]) == at2(top[j])
    ensures Collect(top, at1) == Collect(top, at2)
  {
    if |top| > 0 {
      CollectAgree(top[..|top| - 1], at1, at2);
    }
  }

  /** When the tokeniser drops no document, the search as written returns what
      the aligned search returns. */
  lemma AsWrittenAgreesWhenNothingDropped(namespaces: seq<String>, sample: String -> Option<seq<Match>>, tok: String -> seq<String>,
                                          query: String, topK: nat, scorer: (seq<seq<String>>, seq<String>) -> seq<real>)
    ensures var b := Build(namespaces, sample, tok);
      b.index.Built? && |b.index.tokenized| == |b.corpus.documents| ==>
        SearchAsWritten(b, query, topK, scorer) == Search(b, query, topK, scorer)
  {
    var b := Build(namespaces, sample, tok);
    if b.index.Built? && |b.index.tokenized| == |b.corpus.documents| {
      NothingDroppedAligned(b.corpus.documents, tok);
      AgreeOnIdentityPositions(b, query, topK, scorer);
    }
  }

  lemma AgreeOnIdentityPositions(b: Lexicon, query: String, topK: nat, scorer: (seq<seq<String>>, seq<String>) -> seq<real>)
    requires Valid(b) && b.index.Built? && b.index.positions == Indices(|b.corpus.documents|)
    ensures SearchAsWritten(b, query, topK, scorer) == Search(b, query, topK, scorer)
  {
    if QueryTokens(query) != [] {
      var docs := b.corpus.documents;
      var scores := scorer(b.index.tokenized, QueryTokens(query));
      var top := Take(ArgsortDesc(scores), topK);
      var at1, at2 := AsWrittenAt(b.corpus, scores), AlignedAt(b.corpus, b.index.positions, scores);
      forall j | 0 <= j < |top| ensures at1(top[j]) == at2(top[j]) {
        var idx := top[j];
        if idx < |docs| {
          assert b.index.positions[idx] == idx;
        }
      }
      CollectAgree(top, at1, at2);
    }
  }

  // ---------------------------------------------------------------------------
  // A document dropped by the tokeniser

  /** Two long-enough matches of one namespace, the first with fewer than three
      tokens and the second with more: the index holds only the second's tokens,
      yet the search as written reports the first document, its id and its text,
      with the second's score. The aligned search reports the second. */
  lemma DroppedDocumentShiftsHits(ns: String, m0: Match, m1: Match, sample: String -> Option<seq<Match>>,
                                  tok: String -> seq<String>, query: String,
                                  scorer: (seq<seq<String>>, seq<String>) -> seq<real>)
    requires sample(ns) == Some([m0, m1])
    requires CorpusText(m0).Some? && CorpusText(m1).Some?
    requires |tok(CorpusText(m0).value)| < MinTokens <= |tok(CorpusText(m1).value)|
    requires QueryTokens(query) != []
    requires var scores := scorer([tok(CorpusText(m1).value)], QueryTokens(query));
      |scores| == 1 && scores[0] > 0.0
    ensures var b := Build([ns], sample, tok);
      var score := scorer([tok(CorpusText(m1).value)], QueryTokens(query))[0];
      SearchAsWritten(b, query, 1, scorer) == Success([Hit(m0.id, score, Metadata([], CorpusText(m0).value), ns, Bm25)]) &&
      Search(b, query, 1, scorer) == Success([Hit(m1.id, score, Metadata([], CorpusText(m1).value), ns, Bm25)])
  {
    var t0, t1 := CorpusText(m0).value, CorpusText(m1).value;
    DroppedBuild(ns, m0, m1, sample, tok);
    DroppedSearch(Corpus([t0, t1], [(m0.id, ns), (m1.id, ns)]), tok(t1), query, scorer);
  }

  /** The corpus of one namespace whose sample is two long enough matches. */
  lemma TwoDocumentCorpus(ns: String, m0: Match, m1: Match, sample: String -> Option<seq<Match>>)
    requires sample(ns) == Some([m0, m1])
    requires CorpusText(m0).Some? && CorpusText(m1).Some?
    ensures CollectCorpus([ns], sample) ==
      Corpus([CorpusText(m0).value, CorpusText(m1).value], [(m0.id, ns), (m1.id, ns)])
  {
    assert [ns][..0] == [];
    assert CollectCorpus([ns], sample) == AddMatches(Corpus([], []), ns, [m0, m1]);
    AddTwoMatches(ns, m0, m1);
  }

  lemma AddTwoMatches(ns: String, m0: Match, m1: Match)
    requires CorpusText(m0).Some? && CorpusText(m1).Some?
    ensures AddMatches(Corpus([], []), ns, [m0, m1]) ==
      Corpus([CorpusText(m0).value, CorpusText(m1).value], [(m0.id, ns), (m1.id, ns)])
  {
    var empty := Corpus([], []);
    assert [m0, m1][..1] == [m0] && [m0][..0] == [];
    assert AddMatches(empty, ns, [m0]) == AddMatch(empty, ns, m0);
  }

  lemma DroppedBuild(ns: String, m0: Match, m1: Match, sample: String -> Option<seq<Match>>, tok: String -> seq<String>)
    requires sample(ns) == Some([m0, m1])
    requires CorpusText(m0).Some? && CorpusText(m1).Some?
    requires |tok(CorpusText(m0).value)| < MinTokens <= |tok(CorpusText(m1).value)|
    ensures var t0, t1 := CorpusText(m0).value, CorpusText(m1).value;
      Build([ns], sample, tok) == Lexicon(Corpus([t0, t1], [(m0.id, ns), (m1.id, ns)]), Built([tok(t1)], [1]))
  {
    var t0, t1 := CorpusText(m0).value, CorpusText(m1).value;
    TwoDocumentCorpus(ns, m0, m1, sample);
    DroppedTokenize(t0, t1, tok);
  }

  /** The tokeniser over [t0, t1] when only t1 has enough tokens. */
  lemma DroppedTokenize(t0: String, t1: String, tok: String -> seq<String>)
    requires |tok(t0)| < MinTokens <= |tok(t1)|
    ensures TokenizeWith([t0, t1], tok) == [tok(t1)] && KeptPositions([t0, t1], tok) == [1]
  {
    var docs := [t0, t1];
    assert docs[..1] == [t0] && [t0][..0] == [];
    assert TokenizeWith([t0], tok) == [] && KeptPositions([t0], tok) == [];
  }

  /** A ranking of a single score is that index. */
  lemma SingleRanking(scores: seq<real>)
    requires |scores| == 1
    ensures Take(ArgsortDesc(scores), 1) == [0]
  {
    var order := ArgsortDesc(scores);
    assert order[0] < 1;
  }

  lemma CollectSingle(idx: nat, at: nat -> Option<Hit>)
    ensures Collect([idx], at) == Found(at(idx))
  {
    assert [idx][..0] == [];
  }

  lemma DroppedSearch(c: Corpus, tokens: seq<String>, query: String, scorer: (seq<seq<String>>, seq<String>) -> seq<real>)
    requires |c.documents| == |c.docIds| == 2
    requires QueryTokens(query) != []
    requires var scores := scorer([tokens], QueryTokens(query));
      |scores| == 1 && scores[0] > 0.0
    ensures var b := Lexicon(c, Built([tokens], [1]));
      var score := scorer([tokens], QueryTokens(query))[0];
      SearchAsWritten(b, query, 1, scorer) == Success([HitFor(c, 0, score)]) &&
      Search(b, query, 1, scorer) == Success([HitFor(c, 1, score)])
  {
    var scores := scorer([tokens], QueryTokens(query));
    SingleRanking(scores);
    CollectSingle(0, AsWrittenAt(c, scores));
    CollectSingle(0, AlignedAt(c, [1], scores));
  }
}
