/** The keys under which the engine caches results and query embeddings
    (performance_fix_hybrid_search.py): `f"{query.lower().strip()}_{top_k}"` and
    `query.strip().lower()`. */
module CacheKeys {
  import opened Text

  /** `query.lower().strip()`. */
  function NormalizeForResults(q: String): String {
    Strip(Lower(q))
  }

  /** `query.strip().lower()`. */
  function NormalizeForEmbedding(q: String): String {
    Lower(Strip(q))
  }

  /** The result-cache key `f"{query.lower().strip()}_{top_k}"`. */
  function ResultKey(q: String, topK: nat): (key: String)
    ensures key == NormalizeForResults(q) + "_" + NatToString(topK)
    ensures |key| > |NormalizeForResults(q)| + 1
  {
    NormalizeForResults(q) + "_" + NatToString(topK)
  }

  /** The embedding-cache key. */
  function EmbeddingKey(q: String): (key: String)
    ensures key == NormalizeForResults(q)
  {
    LowerStripCommute(q);
    NormalizeForEmbedding(q)
  }

  /** The two normalisations agree, so a query's embedding key is the prefix of its
      result key before the final underscore. */
  lemma KeysShareNormalization(q: String, topK: nat)
    ensures ResultKey(q, topK) == EmbeddingKey(q) + "_" + NatToString(topK)
  {
  }

  /** Result keys are injective: two calls share a cache entry exactly when their
      queries normalise alike and they ask for the same `top_k`. */
  lemma ResultKeyInjective(q1: String, k1: nat, q2: String, k2: nat)
    ensures ResultKey(q1, k1) == ResultKey(q2, k2) <==>
            NormalizeForResults(q1) == NormalizeForResults(q2) && k1 == k2
  {
    var a, b := NormalizeForResults(q1), NormalizeForResults(q2);
    var d1, d2 := NatToString(k1), NatToString(k2);
    if ResultKey(q1, k1) == ResultKey(q2, k2) {
      SplitAtLastUnderscore(a, d1, b, d2);
      NatToStringInjective(k1, k2);
    }
  }

  /** `a + "_" + d` determines `a` and `d` when `d` holds no underscore. */
  lemma SplitAtLastUnderscore(a: String, d1: String, b: String, d2: String)
    requires forall i :: 0 <= i < |d1| ==> d1[i] != '_'
    requires forall i :: 0 <= i < |d2| ==> d2[i] != '_'
    requires a + "_" + d1 == b + "_" + d2
    ensures a == b && d1 == d2
  {
    SuffixNotShorter(a, d1, b, d2);
    SuffixNotShorter(b, d2, a, d1);
    var x := a + "_" + d1;
    assert d1 == x[|x| - |d1|..] == d2;
    assert a == x[..|a|] == b;
  }

  lemma SuffixNotShorter(a: String, d1: String, b: String, d2: String)
    requires forall i :: 0 <= i < |d2| ==> d2[i] != '_'
    requires a + "_" + d1 == b + "_" + d2
    ensures |d1| >= |d2|
  {
    if |d1| < |d2| {
      UnderscoreAt(a, d1);
      CharAfter(b, d2, |a| - |b| - 1);
      assert false;
    }
  }

  lemma UnderscoreAt(a: String, d: String)
    ensures (a + "_" + d)[|a|] == '_'
  {
  }

  lemma CharAfter(b: String, d: String, k: int)
    ensures 0 <= k < |d| ==> (b + "_" + d)[|b| + 1 + k] == d[k]
  {
  }

  /** Queries that differ only in case or surrounding whitespace share a key. */
  lemma ExampleCaseAndSpaceShareKeys()
    ensures ResultKey(" Fee", 5) == "fee_5"
  {
    LowerExample();
    StripExample();
    FiveExample();
    assert NormalizeForResults(" Fee") == "fee";
    JoinExample();
  }

  lemma JoinExample()
    ensures "fee" + "_" + "5" == "fee_5"
  {
  }

  lemma FiveExample()
    ensures NatToString(5) == "5"
  {
  }

  lemma LowerExample()
    ensures Lower(" Fee") == " fee"
  {
    var s := " Fee";
    assert LowerChar(s[0]) == ' ' && LowerChar(s[1]) == 'f' && LowerChar(s[2]) == 'e' && LowerChar(s[3]) == 'e';
  }

  lemma StripExample()
    ensures Strip(" fee") == "fee"
  {
    assert StripLeftBy(" fee", IsSpace) == "fee" by {
      assert " fee"[1..] == "fee" && !IsSpace('f');
      assert StripLeftBy("fee", IsSpace) == "fee";
    }
    assert StripRightBy("fee", IsSpace) == "fee" by {
      assert !IsSpace('e');
    }
  }
}
