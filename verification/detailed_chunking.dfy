/** The multi-level chunker of intelligent_data_embedding.py: filename-based
    document types, section chunks cut at regex-found section starts, long
    sections split into overlapping word windows that prefer to stop after a
    sentence, line- and paragraph-accumulating chunkers, and the grouping of
    chunks into namespaces for upload. The regex search for section starts is
    an oracle. */
module DetailedChunking {
  import opened Seqs
  import opened Wrappers
  import opened Text
  import opened Sorting
  import opened CacheKeys
  import OrderedMap
  import Grouping

  // Processing parameters, in words.
  const OverlapSize: nat := 150
  const MinChunkSize: nat := 100
  const MaxChunkSize: nat := 400
  const SectionChunkSize: nat := 800
  /** How far back from a window's end the search for a sentence end goes. */
  const LookBack: nat := 50

  // ---------------------------------------------------------------------------
  // Document types

  datatype DocType = EvPolicy | IndustrialPolicy | ExcisePolicy | ParkingPolicy | DataPolicy | General
  {
    function Label(): String {
      match this
      case EvPolicy => "ev_policy"
      case IndustrialPolicy => "industrial_policy"
      case ExcisePolicy => "excise_policy"
      case ParkingPolicy => "parking_policy"
      case DataPolicy => "data_policy"
      case General => "general"
    }

    /** Position in the priority chain; earlier rules win. */
    function Priority(): nat {
      match this
      case EvPolicy => 0
      case IndustrialPolicy => 1
      case ExcisePolicy => 2
      case ParkingPolicy => 3
      case DataPolicy => 4
      case General => 5
    }
  }

  /** The condition under which a type's rule fires, on the lower-cased file
      name alone. The general type always fires. */
  predicate Fires(t: DocType, f: String) {
    match t
    case EvPolicy => Contains(f, "electric") || Contains(f, "ev")
    case IndustrialPolicy => Contains(f, "industrial")
    case ExcisePolicy => Contains(f, "excise")
    case ParkingPolicy => Contains(f, "parking")
    case DataPolicy => Contains(f, "data")
    case General => true
  }

  /** `detect_document_type(filename, content)`: the first type in priority
      order whose rule fires on the file name; the content is not looked at. */
  function DetectDocumentType(filename: String, content: String): (t: DocType)
    ensures Fires(t, Lower(filename))
    ensures forall u: DocType :: u.Priority() < t.Priority() ==> !Fires(u, Lower(filename))
  {
    var f := Lower(filename);
    if Contains(f, "electric") || Contains(f, "ev") then EvPolicy
    else if Contains(f, "industrial") then IndustrialPolicy
    else if Contains(f, "excise") then ExcisePolicy
    else if Contains(f, "parking") then ParkingPolicy
    else if Contains(f, "data") then DataPolicy
    else General
  }

  /** The rules are tried in priority order, so the detected type is the
      unique type that fires while no earlier one does, whatever the content. */
  lemma DetectIsFirstFiring(filename: String, content: String, t: DocType)
    requires Fires(t, Lower(filename))
    requires forall u: DocType :: u.Priority() < t.Priority() ==> !Fires(u, Lower(filename))
    ensures DetectDocumentType(filename, content) == t
  {
    var r := DetectDocumentType(filename, content);
    assert r.Priority() == t.Priority();
  }

  /** "ev" is a plain substring test and comes first, so a file name that
      mentions excise but contains "ev" anywhere is filed as an EV policy. */
  lemma ExciseLevyIsEv(filename: String, content: String)
    requires filename == "excise_levy.txt"
    ensures DetectDocumentType(filename, content) == EvPolicy
  {
    LowerKeepsLowercase(filename);
    ContainsPair(filename, 8, 'e', 'v');
  }

  lemma LowerKeepsLowercase(s: String)
    requires forall i :: 0 <= i < |s| ==> !('A' <= s[i] <= 'Z')
    ensures Lower(s) == s
  {
  }

  /** The labels are pairwise distinct: their lengths already differ. */
  lemma LabelInjective(a: DocType, b: DocType)
    ensures a.Label() == b.Label() <==> a == b
  {
    if a.Label() == b.Label() {
      assert |a.Label()| == |b.Label()|;
    }
  }

  // ---------------------------------------------------------------------------
  // Chunks

  /** The `chunk_type` of a chunk, which is also its `level`. */
  datatype Level = DocumentLevel | SectionLevel | Subsection | Clause {
    function Label(): String {
      match this
      case DocumentLevel => "document"
      case SectionLevel => "section"
      case Subsection => "subsection"
      case Clause => "clause"
    }
  }

  /** A `DocumentChunk` with the metadata the pipeline reads back: its
      `section_index` or `chunk_index` as `index`, and its `word_count`. */
  datatype Chunk = Chunk(content: String, chunkType: Level, title: String, index: nat, wordCount: nat, docType: DocType)

  /** `len(s.split())`. */
  function WordCount(s: String): nat {
    |Words(s)|
  }

  // ---------------------------------------------------------------------------
  // Splitting a long section into windows

  /** `w.endswith(('.', '!', '?', ':'))`. */
  predicate EndsSentence(w: String) {
    |w| > 0 && (w[|w| - 1] == '.' || w[|w| - 1] == '!' || w[|w| - 1] == '?' || w[|w| - 1] == ':')
  }

  /** `i < len(words) and words[i].endswith(...)`. */
  function SentenceEndAt(words: seq<String>): nat -> bool {
    (i: nat) => i < |words| && EndsSentence(words[i])
  }

  /** The break search `for i in range(hi, lo, -1)`: the largest position in
      `(lo, hi]` after which a sentence ends, if any. */
  function BreakSearch(hi: nat, lo: nat, ends: nat -> bool): (r: Option<nat>)
    ensures r.Some? ==> lo < r.value <= hi && ends(r.value)
    ensures r.Some? ==> forall j :: r.value < j <= hi ==> !ends(j)
    ensures r.None? ==> forall j :: lo < j <= hi ==> !ends(j)
    decreases hi
  {
    if hi <= lo then None
    else if ends(hi) then Some(hi)
    else BreakSearch(hi - 1, lo, ends)
  }

  /** Where the window starting at `start` ends, for `n` words: at the end of
      the section when it is at most 400 words away, otherwise just after the
      break `BreakSearch` finds, or at 400 words when it finds none. */
  function WindowEnd(start: nat, n: nat, ends: nat -> bool): (e: nat)
    requires start < n
    ensures start < e <= n
    ensures e - start <= MaxChunkSize + 1
    ensures n <= start + MaxChunkSize ==> e == n
    ensures e < n ==> e > start + MaxChunkSize - LookBack
  {
    var hi := if start + MaxChunkSize < n then start + MaxChunkSize else n;
    if hi < n then
      match BreakSearch(hi, BreakFloor(start, hi), ends)
      case Some(i) => i + 1
      case None => hi
    else hi
  }

  /** `max(start + min_chunk_size, end - 50)`: the break search stops above it. */
  function BreakFloor(start: nat, hi: nat): nat {
    if start + MinChunkSize > hi - LookBack then start + MinChunkSize else hi - LookBack
  }

  /** A window that stops before the end of the section stops just after the
      last sentence end among the last 50 of its 400 words (possibly one word
      beyond them), or at 400 words when none of those ends a sentence. */
  lemma WindowStopsAtSentence(start: nat, n: nat, ends: nat -> bool)
    requires start + MaxChunkSize < n
    ensures var e := WindowEnd(start, n, ends);
      var lo := start + MaxChunkSize - LookBack;
      (lo < e - 1 && ends(e - 1) && forall j :: e - 1 < j <= start + MaxChunkSize ==> !ends(j)) ||
      (e == start + MaxChunkSize && forall j :: lo < j <= start + MaxChunkSize ==> !ends(j))
  {
    assert BreakFloor(start, start + MaxChunkSize) == start + MaxChunkSize - LookBack;
  }

  /** `max(start + max_chunk_size - overlap_size, end - overlap_size)`. */
  function NextStart(start: nat, e: nat): (s: nat)
    ensures s >= start + MaxChunkSize - OverlapSize
  {
    if start + MaxChunkSize - OverlapSize >= e - OverlapSize then start + MaxChunkSize - OverlapSize
    else e - OverlapSize
  }

  /** `sp` is a chain of windows over words `start..n`: empty exactly when
      there is nothing to cover, starting at `start` and ending at `n`, each
      window non-empty with at most 401 words, and each next window starting at
      least 250 words later but no later than where the previous one ends. */
  ghost predicate Chained(sp: seq<(nat, nat)>, n: nat, start: nat) {
    (|sp| > 0 <==> start < n) &&
    (|sp| > 0 ==> sp[0].0 == start && sp[|sp| - 1].1 == n) &&
    (forall k :: 0 <= k < |sp| ==> sp[k].0 < sp[k].1 <= n && sp[k].1 - sp[k].0 <= MaxChunkSize + 1) &&
    (forall k :: 0 <= k < |sp| - 1 ==> sp[k].0 + MaxChunkSize - OverlapSize <= sp[k + 1].0 <= sp[k].1)
  }

  /** The `[start, end)` word ranges of the windows `split_long_section`
      produces from `start` on, for `n` words. */
  function Spans(n: nat, ends: nat -> bool, start: nat): (sp: seq<(nat, nat)>)
    ensures Chained(sp, n, start)
    decreases n - start
  {
    if start >= n then []
    else
      var e := WindowEnd(start, n, ends);
      var rest := Spans(n, ends, NextStart(start, e));
      ChainCons(start, e, NextStart(start, e), n, rest);
      [(start, e)] + rest
  }

  /** One window in front of the chain that follows it. */
  lemma ChainCons(start: nat, e: nat, next: nat, n: nat, rest: seq<(nat, nat)>)
    requires start < e <= n && e - start <= MaxChunkSize + 1
    requires e < n ==> e > start + MaxChunkSize - LookBack
    requires next == NextStart(start, e)
    requires Chained(rest, n, next)
    ensures Chained([(start, e)] + rest, n, start)
  {
    var sp := [(start, e)] + rest;
    assert |rest| == 0 ==> e == n;
    assert |rest| > 0 ==> sp[1] == rest[0] && rest[0].0 == next <= e;
    assert forall k :: 1 <= k < |sp| ==> sp[k] == rest[k - 1];
  }

  /** Every word of `start..n` lies in some window of a chain. */
  lemma {:induction false} ChainCovers(sp: seq<(nat, nat)>, n: nat, start: nat, w: nat)
    requires Chained(sp, n, start)
    requires start <= w < n
    ensures exists k :: 0 <= k < |sp| && sp[k].0 <= w && w < sp[k].1
  {
    if w >= sp[0].1 {
      var rest := sp[1..];
      assert Chained(rest, n, sp[1].0);
      ChainCovers(rest, n, sp[1].0, w);
      var k :| 0 <= k < |rest| && rest[k].0 <= w && w < rest[k].1;
      assert sp[k + 1] == rest[k];
    }
  }

  /** When the window that reaches the end of the section starts more than
      250 words before it, the loop still emits one more window, lying wholly
      inside that one. A 1,100-word section without sentence ends is split into
      `[0,400) [250,650) [500,900) [750,1100) [1000,1100)`. */
  lemma TailWindowRepeats(n: nat, ends: nat -> bool, start: nat)
    requires start < n <= start + MaxChunkSize
    requires start + MaxChunkSize - OverlapSize < n
    ensures Spans(n, ends, start) == [(start, n), (start + MaxChunkSize - OverlapSize, n)]
  {
    var s := start + MaxChunkSize - OverlapSize;
    assert NextStart(start, n) == s;
    assert Spans(n, ends, NextStart(s, n)) == [];
  }

  /** The subsection chunk of the window `[s, e)`: its words joined by single
      spaces, numbered `k`. */
  function SubsectionChunk(words: seq<String>, s: nat, e: nat, k: nat, title: String, docType: DocType): (c: Chunk)
    requires s < e <= |words|
    ensures c.chunkType == Subsection && c.index == k && c.title == title && c.docType == docType
    ensures c.wordCount == e - s
  {
    Chunk(Join(words[s..e], " "), Subsection, title, k, e - s, docType)
  }

  /** `split_long_section`: one subsection chunk per window, numbered from 0. */
  function SplitLongSection(words: seq<String>, title: String, docType: DocType): (r: seq<Chunk>)
    ensures var sp := Spans(|words|, SentenceEndAt(words), 0);
      |r| == |sp| &&
      forall k :: 0 <= k < |r| ==> sp[k].1 <= |words| && r[k] == SubsectionChunk(words, sp[k].0, sp[k].1, k, title, docType)
    ensures |words| > 0 <==> |r| > 0
    ensures forall k :: 0 <= k < |r| ==>
              r[k].chunkType == Subsection && r[k].index == k && r[k].title == title && r[k].docType == docType &&
              0 < r[k].wordCount <= MaxChunkSize + 1
  {
    SpanChunks(words, Spans(|words|, SentenceEndAt(words), 0), title, docType)
  }

  /** One subsection chunk per word range, numbered by position. */
  function SpanChunks(words: seq<String>, sp: seq<(nat, nat)>, title: String, docType: DocType): (r: seq<Chunk>)
    requires forall k :: 0 <= k < |sp| ==> sp[k].0 < sp[k].1 <= |words|
    ensures |r| == |sp|
    ensures forall k :: 0 <= k < |r| ==> r[k] == SubsectionChunk(words, sp[k].0, sp[k].1, k, title, docType)
  {
    seq(|sp|, k requires 0 <= k < |sp| => SubsectionChunk(words, sp[k].0, sp[k].1, k, title, docType))
  }

  /** Every word of a long section appears in some subsection chunk, and
      consecutive windows advance by at least 250 words and leave no gap. */
  lemma SplitCoversEveryWord(words: seq<String>, w: nat) returns (k: nat)
    requires w < |words|
    ensures k < |Spans(|words|, SentenceEndAt(words), 0)|
    ensures Spans(|words|, SentenceEndAt(words), 0)[k].0 <= w < Spans(|words|, SentenceEndAt(words), 0)[k].1
  {
    var sp := Spans(|words|, SentenceEndAt(words), 0);
    ChainCovers(sp, |words|, 0, w);
    k :| 0 <= k < |sp| && sp[k].0 <= w && w < sp[k].1;
  }

  // ---------------------------------------------------------------------------
  // Accumulating chunkers

  /** Why a buffered run of items was emitted as a chunk. */
  datatype Cause =
    | Overflow   // the next item would take a buffer of at least 100 words past 400
    | Flush      // a paragraph of more than 400 words comes next
    | Sentences  // inside a long paragraph, the next sentence would overflow
    | Final      // what is left at the end, if it has at least 100 words

  /** An emitted run of items with the word count the chunker kept for it. */
  datatype Emitted<T> = Emitted(items: seq<T>, count: nat, cause: Cause)

  /** The chunker's state: what it emitted so far, and the buffer with its
      running word count. */
  datatype Acc<T> = Acc(done: seq<Emitted<T>>, buffer: seq<T>, count: nat)

  /** `sum(size(x) for x in xs)`. */
  function Total<T>(xs: seq<T>, size: T -> nat): nat {
    if |xs| == 0 then 0 else Total(xs[..|xs| - 1], size) + size(xs[|xs| - 1])
  }

  lemma TotalSnoc<T>(xs: seq<T>, x: T, size: T -> nat)
    ensures Total(xs + [x], size) == Total(xs, size) + size(x)
  {
    assert (xs + [x])[..|xs|] == xs;
  }

  /** Every emitted run is non-empty and carries the word count of its items;
      only a flush may hold fewer than 100 words. */
  ghost predicate SoundEmissions<T>(es: seq<Emitted<T>>, size: T -> nat) {
    forall k :: 0 <= k < |es| ==>
      es[k].count == Total(es[k].items, size) && |es[k].items| > 0 &&
      (!es[k].cause.Flush? ==> es[k].count >= MinChunkSize)
  }

  /** The running count is the word count of the buffer, and the emissions
      are sound. */
  ghost predicate Sound<T>(a: Acc<T>, size: T -> nat) {
    a.count == Total(a.buffer, size) && SoundEmissions(a.done, size)
  }

  /** Each emitted run begins with the last `keep` items of the run before it,
      and the buffer with the last `keep` items of the last run. */
  ghost predicate Overlaps<T>(a: Acc<T>, keep: nat) {
    ChainOverlaps(a.done, keep) &&
    (|a.done| > 0 ==> Last(a.done[|a.done| - 1].items, keep) <= a.buffer)
  }

  ghost predicate ChainOverlaps<T>(es: seq<Emitted<T>>, keep: nat) {
    forall k :: 0 <= k < |es| - 1 ==> Last(es[k].items, keep) <= es[k + 1].items
  }

  /** Every buffered or emitted item satisfies `p`. */
  ghost predicate AllItems<T>(a: Acc<T>, p: T -> bool) {
    EmittedItems(a.done, p) && (forall i :: 0 <= i < |a.buffer| ==> p(a.buffer[i]))
  }

  ghost predicate EmittedItems<T>(es: seq<Emitted<T>>, p: T -> bool) {
    forall k, i :: 0 <= k < |es| && 0 <= i < |es[k].items| ==> p(es[k].items[i])
  }

  /** Every emission has cause `c`. */
  ghost predicate CausedBy<T>(es: seq<Emitted<T>>, c: Cause) {
    forall k :: 0 <= k < |es| ==> es[k].cause == c
  }

  /** One item of the accumulating loop: when the buffer holds at least 100
      words and the item would take it past 400, the buffer is emitted and a
      new one starts with its last `keep` items and the item, its count
      recomputed; otherwise the item is appended and its words added. */
  function Step<T>(a: Acc<T>, x: T, size: T -> nat, keep: nat, cause: Cause): Acc<T> {
    if a.count + size(x) > MaxChunkSize && a.count >= MinChunkSize then
      var buffer := Last(a.buffer, keep) + [x];
      Acc(a.done + [Emitted(a.buffer, a.count, cause)], buffer, Total(buffer, size))
    else Acc(a.done, a.buffer + [x], a.count + size(x))
  }

  lemma StepSound<T>(a: Acc<T>, x: T, size: T -> nat, keep: nat, cause: Cause)
    requires Sound(a, size) && !cause.Flush?
    ensures Sound(Step(a, x, size, keep, cause), size)
  {
    if a.count + size(x) > MaxChunkSize && a.count >= MinChunkSize {
      assert |a.buffer| > 0;
      SoundSnoc(a.done, Emitted(a.buffer, a.count, cause), size);
    } else {
      TotalSnoc(a.buffer, x, size);
    }
  }

  lemma SoundSnoc<T>(es: seq<Emitted<T>>, e: Emitted<T>, size: T -> nat)
    requires SoundEmissions(es, size)
    requires e.count == Total(e.items, size) && |e.items| > 0 && (!e.cause.Flush? ==> e.count >= MinChunkSize)
    ensures SoundEmissions(es + [e], size)
  {
  }

  lemma SoundAppend<T>(es: seq<Emitted<T>>, fs: seq<Emitted<T>>, size: T -> nat)
    requires SoundEmissions(es, size) && SoundEmissions(fs, size)
    ensures SoundEmissions(es + fs, size)
  {
    assert forall k :: |es| <= k < |es| + |fs| ==> (es + fs)[k] == fs[k - |es|];
  }

  lemma StepOverlaps<T>(a: Acc<T>, x: T, size: T -> nat, keep: nat, cause: Cause)
    requires Overlaps(a, keep)
    ensures Overlaps(Step(a, x, size, keep, cause), keep)
  {
    var b := Step(a, x, size, keep, cause);
    if a.count + size(x) > MaxChunkSize && a.count >= MinChunkSize {
      assert b.done[|b.done| - 1].items == a.buffer;
      assert forall k :: 0 <= k < |a.done| ==> b.done[k] == a.done[k];
    } else {
      assert b.done == a.done;
    }
  }

  lemma StepItems<T>(a: Acc<T>, x: T, size: T -> nat, keep: nat, cause: Cause, p: T -> bool)
    requires AllItems(a, p) && p(x)
    ensures AllItems(Step(a, x, size, keep, cause), p)
  {
    var b := Step(a, x, size, keep, cause);
    if a.count + size(x) > MaxChunkSize && a.count >= MinChunkSize {
      var l := Last(a.buffer, keep);
      assert forall i :: 0 <= i < |l| ==> l[i] == a.buffer[|a.buffer| - |l| + i];
      assert forall k :: 0 <= k < |a.done| ==> b.done[k] == a.done[k];
      assert b.done[|a.done|].items == a.buffer;
    }
  }

  /** The accumulating loop over `xs` from an empty buffer. */
  function Run<T>(xs: seq<T>, size: T -> nat, keep: nat, cause: Cause): (a: Acc<T>)
    requires !cause.Flush?
    ensures Sound(a, size) && Overlaps(a, keep)
    ensures CausedBy(a.done, cause)
  {
    if |xs| == 0 then Acc([], [], 0)
    else
      var prev := Run(xs[..|xs| - 1], size, keep, cause);
      StepSound(prev, xs[|xs| - 1], size, keep, cause);
      StepOverlaps(prev, xs[|xs| - 1], size, keep, cause);
      Step(prev, xs[|xs| - 1], size, keep, cause)
  }

  /** Only input items are buffered or emitted. */
  lemma {:induction false} RunItems<T>(xs: seq<T>, size: T -> nat, keep: nat, cause: Cause, p: T -> bool)
    requires !cause.Flush?
    requires forall i :: 0 <= i < |xs| ==> p(xs[i])
    ensures AllItems(Run(xs, size, keep, cause), p)
  {
    if |xs| > 0 {
      var n := |xs| - 1;
      assert forall i :: 0 <= i < n ==> xs[..n][i] == xs[i];
      RunItems(xs[..n], size, keep, cause, p);
      StepItems(Run(xs[..n], size, keep, cause), xs[n], size, keep, cause, p);
    }
  }

  /** The emissions at the end of the loop: the buffer is emitted last when it
      is non-empty and holds at least 100 words. */
  function Close<T>(a: Acc<T>): seq<Emitted<T>> {
    a.done + (if |a.buffer| > 0 && a.count >= MinChunkSize then [Emitted(a.buffer, a.count, Final)] else [])
  }

  lemma CloseSound<T>(a: Acc<T>, size: T -> nat)
    requires Sound(a, size)
    ensures SoundEmissions(Close(a), size)
  {
    if |a.buffer| > 0 && a.count >= MinChunkSize {
      SoundSnoc(a.done, Emitted(a.buffer, a.count, Final), size);
    }
  }

  lemma CloseItems<T>(a: Acc<T>, p: T -> bool)
    requires AllItems(a, p)
    ensures EmittedItems(Close(a), p)
  {
    var es := Close(a);
    assert forall k :: 0 <= k < |a.done| ==> es[k] == a.done[k];
  }

  lemma CloseCauses<T>(a: Acc<T>, c: Cause)
    requires CausedBy(a.done, c)
    ensures forall k :: 0 <= k < |Close(a)| ==> Close(a)[k].cause == c || Close(a)[k].cause == Final
  {
    var es := Close(a);
    assert forall k :: 0 <= k < |a.done| ==> es[k] == a.done[k];
  }

  lemma CloseOverlaps<T>(a: Acc<T>, keep: nat)
    requires Overlaps(a, keep)
    ensures ChainOverlaps(Close(a), keep)
  {
    var es := Close(a);
    assert forall k :: 0 <= k < |a.done| ==> es[k] == a.done[k];
  }

  /** A chunk per emission, numbered from 0 and titled `prefix` followed by
      its 1-based number; sentence runs are joined by ". " and end with ".",
      other runs are joined by single spaces. */
  function RenderOne(e: Emitted<String>, k: nat, level: Level, prefix: String, docType: DocType): Chunk {
    var content := if e.cause.Sentences? then Join(e.items, ". ") + "." else Join(e.items, " ");
    Chunk(content, level, prefix + NatToString(k + 1), k, e.count, docType)
  }

  function Render(es: seq<Emitted<String>>, level: Level, prefix: String, docType: DocType): (r: seq<Chunk>)
    ensures |r| == |es|
    ensures forall k :: 0 <= k < |r| ==> r[k] == RenderOne(es[k], k, level, prefix, docType)
  {
    seq(|es|, k requires 0 <= k < |es| => RenderOne(es[k], k, level, prefix, docType))
  }

  // ---------------------------------------------------------------------------
  // Content-based chunks

  function NonEmpty(s: String): bool {
    |s| > 0
  }

  /** The pieces of `content` between occurrences of `sep`, stripped, with the
      empty ones skipped: the lines for "\n", the paragraphs for "\n\n". */
  function StrippedPieces(content: String, sep: String): (r: seq<String>)
    requires |sep| > 0
    ensures forall i :: 0 <= i < |r| ==> |r[i]| > 0
  {
    Filter(Map(Strip, SplitOn(content, sep)), NonEmpty)
  }

  /** The runs of lines `create_content_based_chunks` emits. */
  function LineRuns(content: String): (es: seq<Emitted<String>>)
    ensures SoundEmissions(es, WordCount) && ChainOverlaps(es, 3)
    ensures EmittedItems(es, NonEmpty)
    ensures forall k :: 0 <= k < |es| ==> es[k].cause == Overflow || es[k].cause == Final
  {
    var lines := StrippedPieces(content, "\n");
    var a := Run(lines, WordCount, 3, Overflow);
    RunItems(lines, WordCount, 3, Overflow, NonEmpty);
    CloseSound(a, WordCount);
    CloseOverlaps(a, 3);
    CloseItems(a, NonEmpty);
    CloseCauses(a, Overflow);
    Close(a)
  }

  /** `create_content_based_chunks(content, filename, doc_type, level)`. */
  function ContentBasedChunks(content: String, level: Level, docType: DocType): (r: seq<Chunk>)
    ensures var es := LineRuns(content);
      |r| == |es| &&
      forall k :: 0 <= k < |r| ==> r[k].content == Join(es[k].items, " ") && r[k].wordCount == Total(es[k].items, WordCount)
    ensures forall k :: 0 <= k < |r| ==> r[k].wordCount >= MinChunkSize
    ensures forall k :: 0 <= k < |r| ==>
              r[k].index == k && r[k].title == "Section " + NatToString(k + 1) &&
              r[k].chunkType == level && r[k].docType == docType
  {
    Render(LineRuns(content), level, "Section ", docType)
  }

  // ---------------------------------------------------------------------------
  // Detailed chunks

  predicate IsSentenceMark(c: char) {
    c == '.' || c == '!' || c == '?'
  }

  /** `re.split(r'[.!?]+', para)`, each piece stripped, empty ones skipped. */
  function SplitSentences(para: String): (r: seq<String>)
    ensures forall i :: 0 <= i < |r| ==> |r[i]| > 0
  {
    Filter(Map(Strip, SplitRuns(para, IsSentenceMark)), NonEmpty)
  }

  /** One paragraph of `create_detailed_chunks`. A paragraph of more than 400
      words first flushes a non-empty buffer, whatever its size, then is
      accumulated sentence by sentence in a fresh buffer (emitting by the usual
      rule); what is left of that buffer becomes the main buffer. Any other
      paragraph goes through the usual rule, a split keeping no earlier item. */
  function DetailedStep<T>(a: Acc<T>, x: T, size: T -> nat, split: T -> seq<T>): Acc<T> {
    if size(x) > MaxChunkSize then
      var flushed := if |a.buffer| > 0 then Acc(a.done + [Emitted(a.buffer, a.count, Flush)], [], 0) else a;
      var t := Run(split(x), size, 0, Cause.Sentences);
      if |t.buffer| > 0 then Acc(flushed.done + t.done, flushed.buffer + t.buffer, flushed.count + t.count)
      else Acc(flushed.done + t.done, flushed.buffer, flushed.count)
    else Step(a, x, size, 0, Overflow)
  }

  lemma DetailedStepSound<T>(a: Acc<T>, x: T, size: T -> nat, split: T -> seq<T>)
    requires Sound(a, size)
    ensures Sound(DetailedStep(a, x, size, split), size)
  {
    if size(x) > MaxChunkSize {
      var flushed := if |a.buffer| > 0 then Acc(a.done + [Emitted(a.buffer, a.count, Flush)], [], 0) else a;
      if |a.buffer| > 0 {
        SoundSnoc(a.done, Emitted(a.buffer, a.count, Flush), size);
      }
      assert flushed.buffer == [] && flushed.count == 0 && SoundEmissions(flushed.done, size);
      var t := Run(split(x), size, 0, Cause.Sentences);
      SoundAppend(flushed.done, t.done, size);
      assert flushed.buffer + t.buffer == t.buffer;
    } else {
      StepSound(a, x, size, 0, Overflow);
    }
  }

  /** The paragraph loop of `create_detailed_chunks` over `xs`. */
  function Detailed<T>(xs: seq<T>, size: T -> nat, split: T -> seq<T>): (a: Acc<T>)
    ensures Sound(a, size)
  {
    if |xs| == 0 then Acc([], [], 0)
    else
      var prev := Detailed(xs[..|xs| - 1], size, split);
      DetailedStepSound(prev, xs[|xs| - 1], size, split);
      DetailedStep(prev, xs[|xs| - 1], size, split)
  }

  /** The flush before a long paragraph has no lower bound: a short paragraph
      followed by one of more than 400 words is emitted on its own, with
      however few words it has. */
  lemma FlushCanBeSmall<T>(p: T, q: T, size: T -> nat, split: T -> seq<T>)
    requires size(p) <= MaxChunkSize && size(q) > MaxChunkSize
    ensures |Detailed([p, q], size, split).done| > 0
    ensures Detailed([p, q], size, split).done[0] == Emitted([p], size(p), Flush)
  {
    var empty: Acc<T> := Acc([], [], 0);
    assert [p][..0] == [];
    assert Detailed([p], size, split) == DetailedStep(empty, p, size, split);
    assert Step(empty, p, size, 0, Overflow) == Acc([], [p], size(p));
    var a := Detailed([p], size, split);
    assert a == Acc([], [p], size(p));
    assert [p, q][..1] == [p];
    assert Detailed([p, q], size, split) == DetailedStep(a, q, size, split);
  }

  /** The runs `create_detailed_chunks` emits. */
  function ParagraphRuns(content: String): (es: seq<Emitted<String>>)
    ensures SoundEmissions(es, WordCount)
  {
    var a := Detailed(StrippedPieces(content, "\n\n"), WordCount, SplitSentences);
    CloseSound(a, WordCount);
    Close(a)
  }

  /** `create_detailed_chunks(content, filename, doc_type)`: every chunk has at
      least 100 words unless it was flushed ahead of a long paragraph. */
  function DetailedChunks(content: String, docType: DocType): (r: seq<Chunk>)
    ensures var es := ParagraphRuns(content);
      |r| == |es| &&
      forall k :: 0 <= k < |r| ==>
        r[k].wordCount == Total(es[k].items, WordCount) && |es[k].items| > 0 &&
        (r[k].wordCount < MinChunkSize ==> es[k].cause == Flush) &&
        r[k].content == if es[k].cause.Sentences? then Join(es[k].items, ". ") + "." else Join(es[k].items, " ")
    ensures forall k :: 0 <= k < |r| ==>
              r[k].index == k && r[k].title == "Detailed Section " + NatToString(k + 1) &&
              r[k].chunkType == Clause && r[k].docType == docType
  {
    Render(ParagraphRuns(content), Clause, "Detailed Section ", docType)
  }

  // ---------------------------------------------------------------------------
  // Section chunks

  /** A regex match of a section pattern: `group(1).strip()`, `group(0).strip()`,
      and its start and end offsets. */
  datatype SectionMatch = SectionMatch(title: String, full: String, start: nat, end: nat)

  /** `document_patterns[doc_type]['sections']`. */
  function SectionPatterns(t: DocType): (r: seq<String>)
    ensures |r| >= 3
  {
    match t
    case EvPolicy => ["(\\d+\\.\\s+[A-Z][^.]*)", "(CHAPTER[^:]*:?)", "(ANNEXURE[^:]*:?)"]
    case IndustrialPolicy => ["(CHAPTER[^:]*:?)", "(\\d+\\.\\s+[A-Z][^.]*)", "(PREAMBLE)", "(OBJECTIVES)"]
    case ExcisePolicy => ["(\\d+\\.\\s+[A-Z][^.]*)", "(About [^:]*)", "(Annexure[^:]*)", "(EXCISE LEVIES)"]
    case ParkingPolicy =>
      ["(\\d+\\.\\s+[A-Z][^.]*)", "(CHAPTER[^:]*)", "(SECTION[^:]*)", "(POLICY[^:]*)", "(FEE[^:]*)"]
    case DataPolicy => ["(\\d+\\.\\s+[A-Z][^.]*)", "(CHAPTER[^:]*)", "(FRAMEWORK)", "(PRINCIPLES)"]
    case General => ["(\\d+\\.\\s+[A-Z][^.]*)", "(CHAPTER[^:]*)", "(SECTION[^:]*)", "([A-Z\\s]{10,}:?)"]
  }

  /** The matches of one pattern in `content`, in order, as
      `re.finditer(pattern, content, re.MULTILINE | re.IGNORECASE)` (an oracle). */
  function Finder(content: String, finditer: (String, String) -> seq<SectionMatch>): String -> seq<SectionMatch> {
    pattern => finditer(pattern, content)
  }

  /** Ascending start as a descending key. */
  function StartKey(m: SectionMatch): real {
    -(m.start as real)
  }

  /** `extract_sections(content, doc_type)`: the matches of all the type's
      patterns, pattern by pattern, stably sorted by start offset. */
  function ExtractSections(content: String, t: DocType, finditer: (String, String) -> seq<SectionMatch>)
    : (r: seq<SectionMatch>)
    ensures multiset(r) == multiset(FlatMap(Finder(content, finditer), SectionPatterns(t)))
    ensures forall i, j :: 0 <= i < j < |r| ==> r[i].start <= r[j].start
    ensures forall v :: WithKey(r, StartKey, v) == WithKey(FlatMap(Finder(content, finditer), SectionPatterns(t)), StartKey, v)
  {
    var all := FlatMap(Finder(content, finditer), SectionPatterns(t));
    var r := SortDesc(all, StartKey);
    assert forall i, j :: 0 <= i < j < |r| ==> StartKey(r[i]) >= StartKey(r[j]);
    r
  }

  /** Where section `i` ends: at the next section's start, or at the end of
      the content for the last one. */
  function SectionEnd(content: String, sections: seq<SectionMatch>, i: nat): nat
    requires i < |sections|
  {
    if i + 1 < |sections| then sections[i + 1].start else |content|
  }

  /** `content[start:next_start].strip()`. */
  function SectionText(content: String, sections: seq<SectionMatch>, i: nat): String
    requires i < |sections|
  {
    Strip(Slice(content, sections[i].start, SectionEnd(content, sections, i)))
  }

  /** The chunks of a section with text `text`, words `words` and title
      `title`: none under 100 words, the windows of `split_long_section` over
      800 words, and otherwise one section chunk holding the whole text. */
  function BlockOf(text: String, words: seq<String>, title: String, i: nat, docType: DocType): (r: seq<Chunk>)
    ensures r == [] <==> |words| < MinChunkSize
    ensures HasSectionChunk(r, i) <==> MinChunkSize <= |words| <= SectionChunkSize
    ensures forall k :: 0 <= k < |r| ==>
              r[k].docType == docType && r[k].title == title &&
              (r[k].chunkType.SectionLevel? || r[k].chunkType.Subsection?)
    ensures forall k :: 0 <= k < |r| ==> r[k].chunkType.SectionLevel? ==>
              r[k].index == i && r[k].content == text && r[k].wordCount == |words| &&
              MinChunkSize <= r[k].wordCount <= SectionChunkSize
    ensures forall k :: 0 <= k < |r| ==> r[k].chunkType.Subsection? ==> 0 < r[k].wordCount <= MaxChunkSize + 1
  {
    if |words| < MinChunkSize then []
    else if |words| > SectionChunkSize then SplitLongSection(words, title, docType)
    else
      var c := Chunk(text, SectionLevel, title, i, |words|, docType);
      assert [c][0] == c;
      [c]
  }

  /** The chunks of section `i`. */
  function SectionBlock(content: String, sections: seq<SectionMatch>, i: nat, docType: DocType): (r: seq<Chunk>)
    requires i < |sections|
    ensures r == [] <==> WordCount(SectionText(content, sections, i)) < MinChunkSize
    ensures HasSectionChunk(r, i) <==>
              MinChunkSize <= WordCount(SectionText(content, sections, i)) <= SectionChunkSize
    ensures forall k :: 0 <= k < |r| ==> SectionShaped(r[k], content, sections, docType)
    ensures forall k :: 0 <= k < |r| ==> r[k].chunkType.SectionLevel? ==> r[k].index == i
  {
    var text := SectionText(content, sections, i);
    BlockOf(text, Words(text), sections[i].title, i, docType)
  }

  /** A chunk of `create_section_chunks` when sections were found: a section
      chunk holds the whole text of the section its index names, with 100 to
      800 words; a subsection chunk holds 1 to 401 words. */
  predicate SectionShaped(c: Chunk, content: String, sections: seq<SectionMatch>, docType: DocType) {
    c.docType == docType &&
    (c.chunkType.SectionLevel? || c.chunkType.Subsection?) &&
    (c.chunkType.SectionLevel? ==>
       c.index < |sections| && c.content == SectionText(content, sections, c.index) &&
       c.title == sections[c.index].title && c.wordCount == WordCount(c.content) &&
       MinChunkSize <= c.wordCount <= SectionChunkSize) &&
    (c.chunkType.Subsection? ==> 0 < c.wordCount <= MaxChunkSize + 1)
  }

  /** Some chunk of `r` is the section chunk of section `i`. */
  ghost predicate HasSectionChunk(r: seq<Chunk>, i: nat) {
    exists k :: 0 <= k < |r| && r[k].chunkType.SectionLevel? && r[k].index == i
  }

  lemma HasSectionChunkAppend(a: seq<Chunk>, b: seq<Chunk>, i: nat)
    ensures HasSectionChunk(a + b, i) <==> HasSectionChunk(a, i) || HasSectionChunk(b, i)
  {
    if HasSectionChunk(a + b, i) {
      var k :| 0 <= k < |a + b| && (a + b)[k].chunkType.SectionLevel? && (a + b)[k].index == i;
      if k >= |a| {
        assert b[k - |a|] == (a + b)[k];
      }
    }
    if HasSectionChunk(a, i) {
      var k :| 0 <= k < |a| && a[k].chunkType.SectionLevel? && a[k].index == i;
      assert (a + b)[k] == a[k];
    }
    if HasSectionChunk(b, i) {
      var k :| 0 <= k < |b| && b[k].chunkType.SectionLevel? && b[k].index == i;
      assert (a + b)[|a| + k] == b[k];
    }
  }

  /** The blocks of sections, one after the other. */
  function Concat(bs: seq<seq<Chunk>>): seq<Chunk> {
    if |bs| == 0 then [] else Concat(bs[..|bs| - 1]) + bs[|bs| - 1]
  }

  /** A property of every chunk of every block holds of every chunk of their
      concatenation. */
  lemma {:induction false} ConcatAll(bs: seq<seq<Chunk>>, p: Chunk -> bool)
    requires forall j, l :: 0 <= j < |bs| && 0 <= l < |bs[j]| ==> p(bs[j][l])
    ensures forall k :: 0 <= k < |Concat(bs)| ==> p(Concat(bs)[k])
  {
    if |bs| > 0 {
      var n := |bs| - 1;
      var prefix := bs[..n];
      assert forall j, l :: 0 <= j < |prefix| && 0 <= l < |prefix[j]| ==> prefix[j][l] == bs[j][l];
      ConcatAll(prefix, p);
      forall k | 0 <= k < |Concat(bs)| ensures p(Concat(bs)[k]) {
        if k >= |Concat(prefix)| {
          assert Concat(bs)[k] == bs[n][k - |Concat(prefix)|];
        } else {
          assert Concat(bs)[k] == Concat(prefix)[k];
        }
      }
    }
  }

  /** Block `j` holds only the section chunk of section `j`, if any. */
  ghost predicate IndexedBlocks(bs: seq<seq<Chunk>>) {
    forall j, l :: 0 <= j < |bs| && 0 <= l < |bs[j]| ==>
      bs[j][l].chunkType.SectionLevel? ==> bs[j][l].index == j
  }

  function BelowIndex(i: nat): Chunk -> bool {
    (c: Chunk) => c.chunkType.SectionLevel? ==> c.index < i
  }

  /** The concatenation holds the section chunk of `i` exactly when block `i`
      does. */
  lemma {:induction false} ConcatSectionChunk(bs: seq<seq<Chunk>>, i: nat)
    requires IndexedBlocks(bs) && i < |bs|
    ensures HasSectionChunk(Concat(bs), i) <==> HasSectionChunk(bs[i], i)
  {
    var n := |bs| - 1;
    var prefix := bs[..n];
    assert forall j :: 0 <= j < |prefix| ==> prefix[j] == bs[j];
    HasSectionChunkAppend(Concat(prefix), bs[n], i);
    if i < n {
      ConcatSectionChunk(prefix, i);
      assert !HasSectionChunk(bs[n], i);
    } else {
      ConcatAll(prefix, BelowIndex(i));
      assert !HasSectionChunk(Concat(prefix), i);
    }
  }

  /** The blocks of the first `n` sections. */
  function SectionBlocks(content: String, sections: seq<SectionMatch>, n: nat, docType: DocType)
    : (r: seq<seq<Chunk>>)
    requires n <= |sections|
    ensures |r| == n
    ensures forall j :: 0 <= j < n ==> r[j] == SectionBlock(content, sections, j, docType)
  {
    seq(n, j requires 0 <= j < n => SectionBlock(content, sections, j, docType))
  }

  function ShapedIn(content: String, sections: seq<SectionMatch>, docType: DocType): Chunk -> bool {
    c => SectionShaped(c, content, sections, docType)
  }

  /** The chunks of the first `n` sections, in section order. */
  function Blocks(content: String, sections: seq<SectionMatch>, n: nat, docType: DocType): (r: seq<Chunk>)
    requires n <= |sections|
    ensures forall k :: 0 <= k < |r| ==> SectionShaped(r[k], content, sections, docType)
    ensures forall k :: 0 <= k < |r| ==> r[k].chunkType.SectionLevel? ==> r[k].index < n
  {
    var bs := SectionBlocks(content, sections, n, docType);
    ConcatAll(bs, ShapedIn(content, sections, docType));
    ConcatAll(bs, BelowIndex(n));
    Concat(bs)
  }

  /** Section `i` has a section chunk exactly when it has 100 to 800 words. */
  lemma SectionChunkIff(content: String, sections: seq<SectionMatch>, n: nat, docType: DocType, i: nat)
    requires i < n <= |sections|
    ensures HasSectionChunk(Blocks(content, sections, n, docType), i) <==>
            MinChunkSize <= WordCount(SectionText(content, sections, i)) <= SectionChunkSize
  {
    var bs := SectionBlocks(content, sections, n, docType);
    ConcatSectionChunk(bs, i);
  }

  /** `create_section_chunks(content, filename, doc_type)`: content-based
      chunks at section level when no section is found, otherwise the blocks
      of the sections in order. */
  function CreateSectionChunks(content: String, docType: DocType, finditer: (String, String) -> seq<SectionMatch>)
    : (r: seq<Chunk>)
    ensures var sections := ExtractSections(content, docType, finditer);
      (|sections| == 0 ==> r == ContentBasedChunks(content, SectionLevel, docType)) &&
      (|sections| > 0 ==> forall k :: 0 <= k < |r| ==> SectionShaped(r[k], content, sections, docType))
    ensures forall k :: 0 <= k < |r| ==>
              r[k].docType == docType && (r[k].chunkType.SectionLevel? || r[k].chunkType.Subsection?)
  {
    var sections := ExtractSections(content, docType, finditer);
    if |sections| == 0 then ContentBasedChunks(content, SectionLevel, docType)
    else Blocks(content, sections, |sections|, docType)
  }

  // ---------------------------------------------------------------------------
  // Namespaces and upload

  /** `create_namespace_name(doc_type, level)`. */
  function NamespaceName(docType: DocType, level: Level): String {
    docType.Label() + "_" + level.Label()
  }

  lemma LevelLabelInjective(l: Level, m: Level)
    ensures l.Label() == m.Label() <==> l == m
  {
    if l.Label() == m.Label() {
      assert |l.Label()| == |m.Label()|;
    }
  }

  /** A namespace names one document type and one level. */
  lemma LevelLabelNoUnderscore(l: Level)
    ensures forall i :: 0 <= i < |l.Label()| ==> l.Label()[i] != '_'
  {
    match l
    case DocumentLevel =>
    case SectionLevel =>
    case Subsection =>
    case Clause =>
  }

  lemma NamespaceNameInjective(a: DocType, l: Level, b: DocType, m: Level)
    ensures NamespaceName(a, l) == NamespaceName(b, m) <==> a == b && l == m
  {
    if NamespaceName(a, l) == NamespaceName(b, m) {
      LevelLabelNoUnderscore(l);
      LevelLabelNoUnderscore(m);
      SplitAtLastUnderscore(a.Label(), l.Label(), b.Label(), m.Label());
      LabelInjective(a, b);
      LevelLabelInjective(l, m);
    }
  }

  /** The namespace a chunk is uploaded to. */
  function ChunkNamespace(c: Chunk): String {
    NamespaceName(c.docType, c.chunkType)
  }

  const UploadBatchSize: nat := 100

  /** The grouping of `upload_to_pinecone`, with `upsert` telling whether a
      batch upload went through: every chunk is grouped under the namespace of
      its type and level, and each group is uploaded in batches of at most 100. */
  function UploadToPinecone(chunks: seq<Chunk>, upsert: (String, seq<Chunk>) -> bool): (r: Grouping.Report)
    ensures forall ns :: OrderedMap.Get(r.counts, ns).Some? <==> Grouping.Select(chunks, ChunkNamespace, ns) != []
    ensures forall ns :: OrderedMap.Get(r.counts, ns).Some? ==>
              OrderedMap.Get(r.counts, ns).value == |Grouping.Select(chunks, ChunkNamespace, ns)|
    ensures Grouping.SumCounts(r.counts) == |chunks|
  {
    Grouping.Upload(chunks, ChunkNamespace, UploadBatchSize, upsert)
  }

  /** Two chunks share an upload group exactly when they have the same
      document type and level. */
  lemma SameGroupIffSameKind(chunks: seq<Chunk>, i: nat, j: nat)
    requires i < |chunks| && j < |chunks|
    ensures chunks[j] in Grouping.Select(chunks, ChunkNamespace, ChunkNamespace(chunks[i])) <==>
            chunks[j].docType == chunks[i].docType && chunks[j].chunkType == chunks[i].chunkType
  {
    NamespaceNameInjective(chunks[i].docType, chunks[i].chunkType, chunks[j].docType, chunks[j].chunkType);
    Grouping.ElementInItsGroup(chunks, ChunkNamespace, j, ChunkNamespace(chunks[i]));
    if chunks[j] in Grouping.Select(chunks, ChunkNamespace, ChunkNamespace(chunks[i])) {
      var sel := Grouping.Select(chunks, ChunkNamespace, ChunkNamespace(chunks[i]));
      var k :| 0 <= k < |sel| && sel[k] == chunks[j];
    }
  }
}
