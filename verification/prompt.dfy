/** The question-answering endpoint of fast_hybrid_search_server.py: the
    `/api/search` handler builds a context from the first results of
    `fast_search`, and `create_optimized_prompt` classifies the query (a plain
    greeting, or one of six answer styles, or a general question) by substring
    tests on the lower-cased query. The fixed prose of the prompts is left out;
    a prompt is modelled by the parts that vary with the input. */
module Prompt {
  import opened Seqs
  import opened Wrappers
  import opened Text
  import opened Results
  import Engine

  // ---------------------------------------------------------------------------
  // Substring tests over word lists

  /** `any(w in s for w in words)`. */
  function ContainsAny(s: String, words: seq<String>): bool {
    if |words| == 0 then false
    else Contains(s, words[0]) || ContainsAny(s, words[1..])
  }

  /** `any(s.startswith(w) for w in words)`. */
  function StartsWithAny(s: String, words: seq<String>): bool {
    if |words| == 0 then false
    else StartsWith(s, words[0]) || StartsWithAny(s, words[1..])
  }

  /** The `any` loops hold exactly when some word of the list passes the test. */
  lemma {:induction false} AnyIff(s: String, words: seq<String>)
    ensures ContainsAny(s, words) <==> exists i :: 0 <= i < |words| && Contains(s, words[i])
    ensures StartsWithAny(s, words) <==> exists i :: 0 <= i < |words| && StartsWith(s, words[i])
  {
    if |words| > 0 {
      AnyIff(s, words[1..]);
      assert forall i :: 1 <= i < |words| ==> words[1..][i - 1] == words[i];
    }
  }

  /** A prefix is also a substring. */
  lemma StartsWithContains(s: String, p: String)
    requires StartsWith(s, p)
    ensures Contains(s, p)
  {
  }

  /** A substring of `s` sits at some offset of `s`. */
  lemma {:induction false} ContainsOffset(s: String, sub: String) returns (k: nat)
    requires Contains(s, sub)
    ensures k + |sub| <= |s| && s[k..k + |sub|] == sub
    decreases |s|
  {
    if StartsWith(s, sub) {
      k := 0;
    } else {
      var j := ContainsOffset(s[1..], sub);
      k := j + 1;
      assert s[k..k + |sub|] == s[1..][j..j + |sub|];
    }
  }

  /** A substring of a substring of `s` is a substring of `s`. */
  lemma ContainsTrans(s: String, mid: String, sub: String)
    requires Contains(s, mid) && Contains(mid, sub)
    ensures Contains(s, sub)
  {
    var k := ContainsOffset(s, mid);
    var j := ContainsOffset(mid, sub);
    forall t | 0 <= t < |sub|
      ensures s[k + j + t] == sub[t]
    {
      assert s[k..k + |mid|][j + t] == mid[j + t];
      assert mid[j..j + |sub|][t] == sub[t];
    }
    assert s[k + j..k + j + |sub|] == sub;
    ContainsAt(s, sub, k + j);
  }

  // ---------------------------------------------------------------------------
  // Greetings

  const GreetingWords: seq<String> :=
    ["hello", "hi", "hey", "good morning", "good afternoon", "good evening", "namaste", "namaskar"]

  const PolicyWords: seq<String> :=
    ["policy", "quota", "incentive", "license", "permit", "regulation", "scheme",
     "rate", "fee", "amount", "excise", "ev", "industrial"]

  /** `query.lower().strip()`. */
  function Normalized(query: String): String {
    Strip(Lower(query))
  }

  /** The greeting test of `create_optimized_prompt`: the query starts with a
      greeting, or has at most three words and contains one; and it contains no
      policy word and has at most five words. All tests are substring tests. */
  predicate IsGreeting(query: String) {
    var q := Normalized(query);
    var n := |Words(query)|;
    (StartsWithAny(q, GreetingWords) || (n <= 3 && ContainsAny(q, GreetingWords))) &&
    !ContainsAny(q, PolicyWords) && n <= 5
  }

  /** The greeting test in terms of the word lists: a greeting contains a
      greeting word and no policy word and has at most five words; conversely
      a query of at most five words with no policy word is a greeting when it
      starts with a greeting word, or when it has at most three words and
      contains one. */
  lemma GreetingIff(query: String)
    ensures IsGreeting(query) ==>
              (exists i :: 0 <= i < |GreetingWords| && Contains(Normalized(query), GreetingWords[i])) &&
              (forall i :: 0 <= i < |PolicyWords| ==> !Contains(Normalized(query), PolicyWords[i])) &&
              |Words(query)| <= 5
    ensures (forall i :: 0 <= i < |PolicyWords| ==> !Contains(Normalized(query), PolicyWords[i])) &&
            |Words(query)| <= 5 &&
            ((exists i :: 0 <= i < |GreetingWords| && StartsWith(Normalized(query), GreetingWords[i])) ||
             (|Words(query)| <= 3 &&
              exists i :: 0 <= i < |GreetingWords| && Contains(Normalized(query), GreetingWords[i])))
            ==> IsGreeting(query)
  {
    var q := Normalized(query);
    AnyIff(q, GreetingWords);
    AnyIff(q, PolicyWords);
    if IsGreeting(query) && StartsWithAny(q, GreetingWords) {
      var i :| 0 <= i < |GreetingWords| && StartsWith(q, GreetingWords[i]);
      StartsWithContains(q, GreetingWords[i]);
    }
  }

  /** A query containing a policy word is never a greeting. */
  lemma PolicyWordBlocksGreeting(query: String, i: nat)
    requires i < |PolicyWords| && Contains(Normalized(query), PolicyWords[i])
    ensures !IsGreeting(query)
  {
    AnyIff(Normalized(query), PolicyWords);
  }

  lemma GoodEveningHasEv(greeting: String)
    requires greeting == "good evening"
    ensures Contains(greeting, "ev")
  {
    ContainsPair(greeting, 5, 'e', 'v');
  }

  /** "ev" is matched as a substring, so any query whose normalized form
      contains "good evening" counts as a policy question, never as a
      greeting. */
  lemma GoodEveningNeverGreets(query: String, greeting: String)
    requires greeting == "good evening" && Contains(Normalized(query), greeting)
    ensures !IsGreeting(query)
  {
    GoodEveningHasEv(greeting);
    ContainsTrans(Normalized(query), greeting, PolicyWords[11]);
    PolicyWordBlocksGreeting(query, 11);
  }

  // ---------------------------------------------------------------------------
  // Answer styles

  /** The keys of `question_indicators`, in declaration order, and the
      fallback "general". */
  datatype Style = Detailed | Specific | Procedure | Eligibility | Comparison | Listing | General {
    function Label(): String {
      match this
      case Detailed => "detailed"
      case Specific => "specific"
      case Procedure => "procedure"
      case Eligibility => "eligibility"
      case Comparison => "comparison"
      case Listing => "list"
      case General => "general"
    }

    /** Position in the indicator table; "general" comes after all of them. */
    function Rank(): nat {
      match this
      case Detailed => 0
      case Specific => 1
      case Procedure => 2
      case Eligibility => 3
      case Comparison => 4
      case Listing => 5
      case General => 6
    }

    function Indicators(): seq<String> {
      match this
      case Detailed => ["explain", "details", "comprehensive", "complete", "all about", "everything about"]
      case Specific => ["amount", "rate", "fee", "cost", "price", "incentive", "benefit"]
      case Procedure => ["how to", "process", "procedure", "steps", "apply", "register"]
      case Eligibility => ["eligible", "qualify", "criteria", "requirements", "conditions"]
      case Comparison => ["difference", "compare", "vs", "versus", "better"]
      case Listing => ["types", "categories", "kinds", "list", "what are"]
      case General => []
    }
  }

  /** Some indicator of style `s` occurs in the normalized query `q`. */
  predicate Indicates(q: String, s: Style) {
    ContainsAny(q, s.Indicators())
  }

  /** `response_style`: the first style in table order one of whose indicators
      occurs in the normalized query, else "general". */
  function ResponseStyle(query: String): (r: Style)
    ensures r != General ==> Indicates(Normalized(query), r)
    ensures forall s: Style :: s.Rank() < r.Rank() ==> !Indicates(Normalized(query), s)
  {
    var q := Normalized(query);
    if Indicates(q, Detailed) then Detailed
    else if Indicates(q, Specific) then Specific
    else if Indicates(q, Procedure) then Procedure
    else if Indicates(q, Eligibility) then Eligibility
    else if Indicates(q, Comparison) then Comparison
    else if Indicates(q, Listing) then Listing
    else General
  }

  /** The style is "general" exactly when no style's indicator occurs. */
  lemma GeneralIffNoIndicator(query: String)
    ensures ResponseStyle(query) == General <==>
              forall s: Style :: s != General ==> !Indicates(Normalized(query), s)
  {
    var r := ResponseStyle(query);
    if r != General {
      assert Indicates(Normalized(query), r);
    }
  }

  /** The rank determines the style, so the first firing style is unique. */
  lemma RankInjective(s: Style, t: Style)
    ensures s.Rank() == t.Rank() <==> s == t
  {
  }

  /** The number of bullet lines a style adds to the response structure (the
      wording of the lines is prose and is not modelled). */
  function InstructionLines(s: Style): nat {
    match s
    case Detailed => 5
    case Specific => 4
    case Procedure => 5
    case Eligibility => 5
    case Listing => 4
    case Comparison => 0
    case General => 0
  }

  /** Only five styles add an instruction block: "comparison", although it
      has indicators, adds none, and neither does "general". */
  lemma InstructionBlockIff(s: Style)
    ensures InstructionLines(s) > 0 <==> s != Comparison && s != General
    ensures InstructionLines(s) > 0 ==> s.Indicators() != []
  {
  }

  // ---------------------------------------------------------------------------
  // The prompt

  /** The number of elements of `xs` satisfying `p`. */
  function Count<T>(xs: seq<T>, p: T -> bool): (r: nat)
    ensures r <= |xs|
    ensures r == 0 <==> forall i :: 0 <= i < |xs| ==> !p(xs[i])
    ensures r == |xs| <==> forall i :: 0 <= i < |xs| ==> p(xs[i])
  {
    if |xs| == 0 then 0
    else
      var n := |xs| - 1;
      var c := Count(xs[..n], p);
      assert forall i :: 0 <= i < n ==> xs[..n][i] == xs[i];
      c + if p(xs[n]) then 1 else 0
  }

  /** Counting distributes over concatenation. */
  lemma {:induction false} CountAppend<T>(a: seq<T>, b: seq<T>, p: T -> bool)
    ensures Count(a + b, p) == Count(a, p) + Count(b, p)
    decreases |b|
  {
    if |b| > 0 {
      var n := |b| - 1;
      assert (a + b)[..|a| + n] == a + b[..n];
      CountAppend(a, b[..n], p);
    } else {
      assert a + b == a;
    }
  }

  /** A result whose metadata carries a non-empty `content`. */
  predicate HasContent(f: Fused) {
    f.metadata.content != []
  }

  /** `source_count`: the results with a truthy metadata content. */
  function SourceCount(results: seq<Fused>): nat {
    Count(results, HasContent)
  }

  /** What `create_optimized_prompt` returns: the greeting prompt quoting the
      query, or the policy prompt with the query, the context, the style, the
      number of instruction lines the style adds and the number of sources
      quoted in it. */
  datatype PromptPlan =
    | GreetingPrompt(said: String)
    | PolicyPrompt(question: String, context: String, style: Style, instructionLines: nat, sourceCount: nat)

  function CreateOptimizedPrompt(query: String, context: String, results: seq<Fused>): (r: PromptPlan)
    ensures r.GreetingPrompt? <==> IsGreeting(query)
    ensures r.GreetingPrompt? ==> r.said == query
    ensures r.PolicyPrompt? ==>
              r.question == query && r.context == context && r.style == ResponseStyle(query) &&
              r.sourceCount == SourceCount(results) &&
              (r.instructionLines > 0 <==> r.style != Comparison && r.style != General)
  {
    if IsGreeting(query) then GreetingPrompt(query)
    else
      var style := ResponseStyle(query);
      InstructionBlockIff(style);
      PolicyPrompt(query, context, style, InstructionLines(style), SourceCount(results))
  }

  // ---------------------------------------------------------------------------
  // The context

  const SearchTopK: nat := 6
  const ContextResults: nat := 4
  const ExcerptLength: nat := 800
  const PreviewLength: nat := 300

  /** `metadata.get('content') or metadata.get('text', '')`. */
  function ResultText(f: Fused): String {
    if f.metadata.content != [] then f.metadata.content else f.metadata.text
  }

  /** `text[:800] + ("..." if len(text) > 800 else "")`. */
  function Excerpt(text: String): (r: String)
    ensures |text| <= ExcerptLength ==> r == text
    ensures |text| > ExcerptLength ==> |r| == ExcerptLength + 3 && r[..ExcerptLength] == text[..ExcerptLength]
    ensures Take(r, ExcerptLength) == Take(text, ExcerptLength)
  {
    Take(text, ExcerptLength) + if |text| > ExcerptLength then "..." else ""
  }

  /** The positions below `n` of the elements satisfying `p`, in increasing
      order. */
  function Positions<T>(xs: seq<T>, n: nat, p: T -> bool): (r: seq<nat>)
    requires n <= |xs|
    ensures |r| <= n
    ensures forall k :: 0 <= k < |r| ==> r[k] < n && p(xs[r[k]])
    ensures forall k, l :: 0 <= k < l < |r| ==> r[k] < r[l]
  {
    if n == 0 then []
    else Positions(xs, n - 1, p) + if p(xs[n - 1]) then [n - 1] else []
  }

  /** Every position below `n` whose element satisfies `p` is listed. */
  lemma {:induction false} PositionsComplete<T>(xs: seq<T>, n: nat, p: T -> bool, i: nat) returns (k: nat)
    requires i < n <= |xs| && p(xs[i])
    ensures k < |Positions(xs, n, p)| && Positions(xs, n, p)[k] == i
  {
    if i < n - 1 {
      k := PositionsComplete(xs, n - 1, p, i);
    } else {
      k := |Positions(xs, n - 1, p)|;
    }
  }

  /** A result with something to quote. */
  predicate HasText(f: Fused) {
    ResultText(f) != []
  }

  /** One source in the context: its 1-based position among the results
      (skipped results keep their number), namespace, score and text. */
  datatype Part = Part(number: nat, namespace: String, score: real, text: String)

  function PartOf(i: nat, f: Fused): Part {
    Part(i + 1, f.namespace, f.score, ResultText(f))
  }

  function PartAt(results: seq<Fused>): nat -> Part {
    (i: nat) => if i < |results| then PartOf(i, results[i]) else Part(i + 1, [], 0.0, [])
  }

  /** The positions of the first four results (fewer when there are fewer)
      that have text. */
  function ContextPositions(results: seq<Fused>): (r: seq<nat>)
    ensures |r| <= ContextResults
    ensures forall k :: 0 <= k < |r| ==> r[k] < ContextResults && r[k] < |results| && HasText(results[r[k]])
    ensures forall k, l :: 0 <= k < l < |r| ==> r[k] < r[l]
  {
    Positions(results, if |results| < ContextResults then |results| else ContextResults, HasText)
  }

  /** Every one of the first four results with text has its position listed. */
  lemma ContextPositionsComplete(results: seq<Fused>, i: nat) returns (k: nat)
    requires i < ContextResults && i < |results| && HasText(results[i])
    ensures k < |ContextPositions(results)| && ContextPositions(results)[k] == i
  {
    k := PositionsComplete(results, if |results| < ContextResults then |results| else ContextResults, HasText, i);
  }

  /** The parts of the context: one per listed position, numbered from 1 by
      position, so that a skipped result leaves a gap in the numbering. */
  function ContextParts(results: seq<Fused>): (r: seq<Part>)
    ensures |r| == |ContextPositions(results)|
    ensures forall k :: 0 <= k < |r| ==>
              var i := ContextPositions(results)[k];
              r[k] == PartOf(i, results[i]) && r[k].number == i + 1
  {
    Map(PartAt(results), ContextPositions(results))
  }

  /** One part as the context shows it; `formatScore` renders `{score:.3f}`. */
  function RenderPart(formatScore: real -> String): Part -> String {
    (p: Part) => "**[Source " + NatToString(p.number) + " - " + p.namespace + "]** (Relevance: " +
         formatScore(p.score) + ")\n" + Excerpt(p.text)
  }

  /** `"\n\n".join(context_parts)`. */
  function Context(results: seq<Fused>, formatScore: real -> String): String {
    Join(Map(RenderPart(formatScore), ContextParts(results)), "\n\n")
  }

  /** The number of context sources can fall short of the source count the
      prompt quotes: the count covers all results, the context only the first
      four with text. */
  lemma SourceCountCoversAllResults(results: seq<Fused>)
    requires |results| == SearchTopK && forall i :: 0 <= i < |results| ==> HasContent(results[i])
    ensures SourceCount(results) == SearchTopK
    ensures |ContextParts(results)| == ContextResults
  {
    var r := ContextPositions(results);
    var k0 := ContextPositionsComplete(results, 0);
    var k1 := ContextPositionsComplete(results, 1);
    var k2 := ContextPositionsComplete(results, 2);
    var k3 := ContextPositionsComplete(results, 3);
    assert k0 < k1 < k2 < k3;
  }

  /** The `content` preview of one result in the reply: its first 300
      characters and "...", whatever its length. */
  function Preview(f: Fused): (r: String)
    ensures 3 <= |r| <= PreviewLength + 3
    ensures r[..|r| - 3] == Take(ResultText(f), PreviewLength) && r[|r| - 3..] == "..."
  {
    Take(ResultText(f), PreviewLength) + "..."
  }

  // ---------------------------------------------------------------------------
  // The endpoint

  /** One entry of the reply's `search_results`: a result's preview, fused score,
      namespace and source labels. */
  datatype ResultEntry = ResultEntry(content: String, score: real, namespace: String, sources: seq<Source>)

  /** The reply entry for one fused result. */
  function EntryOf(f: Fused): ResultEntry {
    ResultEntry(Preview(f), f.score, f.namespace, f.sources)
  }

  /** The entries listed for the first `ContextResults` results, in order. */
  function Entries(results: seq<Fused>): (r: seq<ResultEntry>)
    ensures |r| == |Take(results, ContextResults)|
    ensures forall k :: 0 <= k < |r| ==>
              r[k].content == Preview(results[k]) && r[k].score == results[k].score &&
              r[k].namespace == results[k].namespace && r[k].sources == results[k].sources
  {
    Map(EntryOf, Take(results, ContextResults))
  }

  /** The outcome of one request: 503 while the services are not initialized,
      400 for an empty query, 500 when the search raised, otherwise the prompt
      handed to the language model and the entries of the first four
      results. */
  datatype Reply =
    | Initializing
    | NoQuery
    | Failed(error: String)
    | Prompted(query: String, prompt: PromptPlan, entries: seq<ResultEntry>)
  {
    function Status(): nat {
      match this
      case Initializing => 503
      case NoQuery => 400
      case Failed(_) => 500
      case Prompted(_, _, _) => 200
    }
  }

  /** `search()` for the request body's `message` (the empty string when it is
      missing), with `ready` telling whether the searcher and the language
      model client are initialized. */
  function Search(e: Engine.Engine, ready: bool, message: String, svc: Engine.Services, elapsed: real,
                  formatScore: real -> String): (r: (Engine.Engine, Reply))
    requires Engine.Valid(e)
    ensures Engine.Valid(r.0)
    ensures !ready ==> r == (e, Initializing)
    ensures ready && Strip(message) == [] ==> r == (e, NoQuery)
    ensures r.1.Status() == 200 ==> ready && Strip(message) != []
    ensures ready && Strip(message) != [] ==>
              (r.1.Failed? <==> Engine.FastSearch(e, Strip(message), SearchTopK, svc, elapsed).1.Failure?)
    ensures r.1.Prompted? ==>
              var results := Engine.FastSearch(e, Strip(message), SearchTopK, svc, elapsed).1.value;
              r.1.query == Strip(message) &&
              r.1.prompt == CreateOptimizedPrompt(Strip(message), Context(results, formatScore), results) &&
              |r.1.entries| == |Take(results, ContextResults)| &&
              forall k :: 0 <= k < |r.1.entries| ==>
                r.1.entries[k].content == Preview(results[k]) &&
                r.1.entries[k].score == results[k].score &&
                r.1.entries[k].namespace == results[k].namespace &&
                r.1.entries[k].sources == results[k].sources
  {
    if !ready then (e, Initializing)
    else
      var query := Strip(message);
      if query == [] then (e, NoQuery)
      else
        var (e1, outcome) := Engine.FastSearch(e, query, SearchTopK, svc, elapsed);
        match outcome
        case Failure(err) => (e1, Failed(err))
        case Success(results) =>
          var context := Context(results, formatScore);
          (e1, Prompted(query, CreateOptimizedPrompt(query, context, results), Entries(results)))
  }
}
