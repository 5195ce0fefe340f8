/** The enhanced chunker of enhanced_intelligent_embedding.py: document-type
    identification, per-type chunking strategies, marker-driven section
    splitting, overlapping word windows, and the assembly of fact, clause,
    section and document chunks with their ids and namespaces. Regex matching
    (section markers and fact extraction) is an oracle. */
module EnhancedChunking {
  import opened Seqs
  import opened Wrappers
  import opened Text
  import opened CacheKeys
  import OrderedMap
  import Grouping

  // ---------------------------------------------------------------------------
  // Document types

  datatype DocType =
    | ExcisePolicy | EvPolicy | IndustrialPolicy | ParkingPolicy
    | DataPolicy | CdWastePolicy | ItPolicy | GeneralPolicy
  {
    function Label(): String {
      match this
      case ExcisePolicy => "excise_policy"
      case EvPolicy => "ev_policy"
      case IndustrialPolicy => "industrial_policy"
      case ParkingPolicy => "parking_policy"
      case DataPolicy => "data_policy"
      case CdWastePolicy => "cd_waste_policy"
      case ItPolicy => "it_policy"
      case GeneralPolicy => "general_policy"
    }

    /** Position in the priority chain; earlier rules win. */
    function Priority(): nat {
      match this
      case ExcisePolicy => 0
      case EvPolicy => 1
      case IndustrialPolicy => 2
      case ParkingPolicy => 3
      case DataPolicy => 4
      case CdWastePolicy => 5
      case ItPolicy => 6
      case GeneralPolicy => 7
    }
  }

  /** The condition under which a type's rule fires, on the lower-cased file
      name `f` and content `c`. The general type always fires. */
  predicate Fires(t: DocType, f: String, c: String) {
    match t
    case ExcisePolicy => Contains(f, "excise") || Contains(c, "excise policy")
    case EvPolicy => Contains(f, "electric vehicle") || Contains(c, "ev policy")
    case IndustrialPolicy => Contains(f, "industrial policy") || Contains(c, "industrial policy")
    case ParkingPolicy => Contains(f, "parking policy") || Contains(c, "parking policy")
    case DataPolicy => Contains(f, "data sharing")
    case CdWastePolicy => Contains(f, "construction") && Contains(f, "demolition")
    case ItPolicy => Contains(f, "it policy") || Contains(f, "ites policy")
    case GeneralPolicy => true
  }

  /** `identify_document_type(filename, content)`: the first type in priority
      order whose rule fires. */
  function Identify(filename: String, content: String): (t: DocType)
    ensures Fires(t, Lower(filename), Lower(content))
    ensures forall u: DocType :: u.Priority() < t.Priority() ==> !Fires(u, Lower(filename), Lower(content))
  {
    var f, c := Lower(filename), Lower(content);
    if Contains(f, "excise") || Contains(c, "excise policy") then ExcisePolicy
    else if Contains(f, "electric vehicle") || Contains(c, "ev policy") then EvPolicy
    else if Contains(f, "industrial policy") || Contains(c, "industrial policy") then IndustrialPolicy
    else if Contains(f, "parking policy") || Contains(c, "parking policy") then ParkingPolicy
    else if Contains(f, "data sharing") then DataPolicy
    else if Contains(f, "construction") && Contains(f, "demolition") then CdWastePolicy
    else if Contains(f, "it policy") || Contains(f, "ites policy") then ItPolicy
    else GeneralPolicy
  }

  /** The rules are tried in priority order, so the identified type is the
      unique type that fires while no earlier one does. */
  lemma IdentifyIsFirstFiring(filename: String, content: String, t: DocType)
    requires Fires(t, Lower(filename), Lower(content))
    requires forall u: DocType :: u.Priority() < t.Priority() ==> !Fires(u, Lower(filename), Lower(content))
    ensures Identify(filename, content) == t
  {
    var r := Identify(filename, content);
    assert r.Priority() == t.Priority();
  }

  /** The labels are pairwise distinct: length and first letter already tell
      them apart. */
  lemma LabelInjective(a: DocType, b: DocType)
    ensures a.Label() == b.Label() ==> a == b
  {
    if a.Label() == b.Label() {
      assert |a.Label()| == |b.Label()| && a.Label()[0] == b.Label()[0];
    }
  }

  // ---------------------------------------------------------------------------
  // Strategies

  /** A chunking strategy: window size and overlap in words, and the section
      marker patterns (regular expressions, matched by an oracle). */
  datatype Strategy = Strategy(chunkSize: nat, overlap: nat, markers: seq<String>)

  const DefaultStrategy := Strategy(300, 100, ["[0-9]+\\.[0-9]*"])

  /** `doc_strategies.get(doc_type, doc_strategies['default'])`. */
  function StrategyFor(t: DocType): (s: Strategy)
    ensures s.overlap < s.chunkSize
    ensures s.chunkSize - s.overlap >= 120
    ensures t.DataPolicy? || t.CdWastePolicy? || t.ItPolicy? || t.GeneralPolicy? ==> s == DefaultStrategy
    ensures |s.markers| > 0
  {
    match t
    case ExcisePolicy =>
      Strategy(150, 30, ["L-[0-9]+[A-Z]*", "[0-9]+\\.", "Annexure", "LICENCE FOR.*MICRO", "participation\\s+fee"])
    case EvPolicy => Strategy(250, 75, ["[0-9]+\\.[0-9]*", "Table", "Incentive"])
    case IndustrialPolicy => Strategy(300, 100, ["CHAPTER", "[0-9]+\\.[0-9]*"])
    case ParkingPolicy => Strategy(250, 75, ["[0-9]+\\.[0-9]*", "Background", "Proposals"])
    case _ => DefaultStrategy
  }

  /** Whether some marker matches, as `re.match(marker, line, re.IGNORECASE)`
      decided by the oracle `matches(marker, line)`. */
  function AnyMarker(markers: seq<String>, matches: (String, String) -> bool, line: String): (b: bool)
    ensures b <==> exists i :: 0 <= i < |markers| && matches(markers[i], line)
  {
    if |markers| == 0 then false
    else matches(markers[0], line) || AnyMarker(markers[1..], matches, line)
  }

  function HeaderTest(markers: seq<String>, matches: (String, String) -> bool): String -> bool {
    line => AnyMarker(markers, matches, line)
  }

  // ---------------------------------------------------------------------------
  // Sections

  datatype Section = Section(title: String, content: String)

  const IntroductionTitle: String := "Introduction"
  const MaxTitle: nat := 100

  /** The loop state of `_split_into_sections`: emitted sections, the current
      title and the text accumulated for the current section. */
  datatype SplitState = SplitState(sections: seq<Section>, title: String, current: String)

  /** The section the current text makes, if its stripped text is not empty. */
  function Emit(title: String, current: String): (r: seq<Section>)
    ensures |r| <= 1
    ensures |r| == 1 <==> Strip(current) != []
    ensures |r| == 1 ==> r[0] == Section(title, Strip(current))
  {
    if Strip(current) != [] then [Section(title, Strip(current))] else []
  }

  /** One iteration: a header line closes the current section and opens a new
      one titled by its first 100 stripped characters; any other line is appended. */
  function Feed(st: SplitState, line: String, isHeader: String -> bool): SplitState {
    if isHeader(Strip(line)) then
      SplitState(st.sections + Emit(st.title, st.current), Take(Strip(line), MaxTitle), line + "\n")
    else
      st.(current := st.current + line + "\n")
  }

  /** The loop over the lines; every section emitted so far, and the open one,
      has a title the lines justify, and emitted sections are not empty. */
  function Scan(lines: seq<String>, isHeader: String -> bool): (st: SplitState)
    ensures Justified(st, lines, isHeader)
  {
    if |lines| == 0 then SplitState([], IntroductionTitle, [])
    else
      var n := |lines| - 1;
      var st := Scan(lines[..n], isHeader);
      FeedJustified(st, lines, n, isHeader);
      Feed(st, lines[n], isHeader)
  }

  /** Every emitted section is non-empty and titled as the lines allow, and so
      is the open title. */
  ghost predicate Justified(st: SplitState, lines: seq<String>, isHeader: String -> bool) {
    TitledByHeader(st.title, lines, isHeader) && AllJustified(st.sections, lines, isHeader)
  }

  ghost predicate AllJustified(sections: seq<Section>, lines: seq<String>, isHeader: String -> bool) {
    forall k :: 0 <= k < |sections| ==>
      sections[k].content != [] && TitledByHeader(sections[k].title, lines, isHeader)
  }

  /** Closing the open section keeps every section justified. */
  lemma CloseJustified(st: SplitState, lines: seq<String>, isHeader: String -> bool)
    requires Justified(st, lines, isHeader)
    ensures AllJustified(st.sections + Emit(st.title, st.current), lines, isHeader)
  {
  }

  lemma FeedJustified(st: SplitState, lines: seq<String>, n: nat, isHeader: String -> bool)
    requires n < |lines| && Justified(st, lines[..n], isHeader)
    ensures Justified(Feed(st, lines[n], isHeader), lines, isHeader)
  {
    TitledByLonger(st.title, lines, n, isHeader);
    forall k | 0 <= k < |st.sections|
      ensures TitledByHeader(st.sections[k].title, lines, isHeader)
    {
      TitledByLonger(st.sections[k].title, lines, n, isHeader);
    }
    assert Justified(st, lines, isHeader);
    if isHeader(Strip(lines[n])) {
      CloseJustified(st, lines, isHeader);
      assert lines[n] in lines;
    }
  }

  /** A title the splitter can produce from `lines`: the initial one, or the
      first 100 characters of a stripped header line. */
  ghost predicate TitledByHeader(title: String, lines: seq<String>, isHeader: String -> bool) {
    title == IntroductionTitle ||
    exists line :: line in lines && isHeader(Strip(line)) && title == Take(Strip(line), MaxTitle)
  }

  lemma TitledByLonger(title: String, lines: seq<String>, n: nat, isHeader: String -> bool)
    requires n <= |lines| && TitledByHeader(title, lines[..n], isHeader)
    ensures TitledByHeader(title, lines, isHeader)
  {
    if title != IntroductionTitle {
      var line :| line in lines[..n] && isHeader(Strip(line)) && title == Take(Strip(line), MaxTitle);
      var i :| 0 <= i < n && lines[..n][i] == line;
      assert lines[i] == line;
    }
  }

  /** `_split_into_sections(text, markers)`, with `isHeader` deciding whether a
      stripped line matches a marker. */
  function SplitIntoSections(text: String, isHeader: String -> bool): (r: seq<Section>)
    ensures forall k :: 0 <= k < |r| ==> r[k].content != []
    ensures forall k :: 0 <= k < |r| ==> TitledByHeader(r[k].title, SplitOn(text, "\n"), isHeader)
  {
    var st := Scan(SplitOn(text, "\n"), isHeader);
    CloseJustified(st, SplitOn(text, "\n"), isHeader);
    st.sections + Emit(st.title, st.current)
  }

  // ---------------------------------------------------------------------------
  // Reference definition: the lines grouped between headers

  /** The lines, each followed by a newline. */
  function Block(lines: seq<String>): String {
    if |lines| == 0 then [] else Block(lines[..|lines| - 1]) + lines[|lines| - 1] + "\n"
  }

  /** The lines cut before every header line: the first group holds the lines
      before the first header, every later group starts at a header. */
  function Groups<T>(lines: seq<T>, starts: T -> bool): (g: seq<seq<T>>)
    ensures |g| >= 1
  {
    if |lines| == 0 then [[]]
    else
      var n := |lines| - 1;
      var g := Groups(lines[..n], starts);
      if starts(lines[n]) then g + [[lines[n]]]
      else g[..|g| - 1] + [g[|g| - 1] + [lines[n]]]
  }

  /** The groups, concatenated, are the lines in order: every line lands in
      exactly one group. */
  lemma {:induction false} GroupsCover<T>(lines: seq<T>, starts: T -> bool)
    ensures Flatten(Groups(lines, starts)) == lines
  {
    if |lines| > 0 {
      var n := |lines| - 1;
      var g := Groups(lines[..n], starts);
      var l := lines[n];
      GroupsCover(lines[..n], starts);
      assert lines == lines[..n] + [l];
      FlattenAppend(g, [[l]]);
      var m := |g| - 1;
      assert g == g[..m] + [g[m]];
      FlattenAppend(g[..m], [g[m]]);
      FlattenAppend(g[..m], [g[m] + [l]]);
      assert Flatten([g[m]]) == g[m] + Flatten([]);
      assert Flatten([g[m] + [l]]) == g[m] + [l] + Flatten([]);
    }
  }

  /** A group after the first starts with its header line, and no other line
      of any group is a header. */
  ghost predicate CutAtHeaders<T>(g: seq<seq<T>>, starts: T -> bool) {
    |g| >= 1 &&
    (forall k :: 0 < k < |g| ==> |g[k]| > 0) &&
    forall k, i :: 0 <= k < |g| && 0 <= i < |g[k]| ==> (starts(g[k][i]) <==> k > 0 && i == 0)
  }

  lemma {:induction false} GroupsCutAtHeaders<T>(lines: seq<T>, starts: T -> bool)
    ensures CutAtHeaders(Groups(lines, starts), starts)
  {
    if |lines| > 0 {
      var n := |lines| - 1;
      var g := Groups(lines[..n], starts);
      var l := lines[n];
      GroupsCutAtHeaders(lines[..n], starts);
      var m := |g| - 1;
      var g' := Groups(lines, starts);
      forall k | 0 < k < |g'| ensures |g'[k]| > 0 {
        if k < m {
          assert g'[k] == g[k];
        }
      }
      forall k, i | 0 <= k < |g'| && 0 <= i < |g'[k]|
        ensures starts(g'[k][i]) <==> k > 0 && i == 0
      {
        GroupLine(g, l, starts, k, i);
      }
    }
  }

  /** Where a line of the extended grouping comes from. */
  lemma GroupLine<T>(g: seq<seq<T>>, l: T, starts: T -> bool, k: nat, i: nat)
    requires CutAtHeaders(g, starts)
    ensures var m := |g| - 1;
      var g' := if starts(l) then g + [[l]] else g[..m] + [g[m] + [l]];
      k < |g'| && i < |g'[k]| ==> (starts(g'[k][i]) <==> k > 0 && i == 0)
  {
    var m := |g| - 1;
    if !starts(l) && k == m && i < |g[m]| {
      assert (g[m] + [l])[i] == g[m][i];
    }
  }

  /** The header test on a raw line. */
  function HeaderLine(isHeader: String -> bool): String -> bool {
    line => isHeader(Strip(line))
  }

  /** The title of group `k`. */
  function GroupTitle(group: seq<String>, k: nat): String {
    if k == 0 || |group| == 0 then IntroductionTitle else Take(Strip(group[0]), MaxTitle)
  }

  /** The sections made from the groups: one per group whose text is not blank. */
  function Kept(groups: seq<seq<String>>): seq<Section> {
    if |groups| == 0 then []
    else
      var n := |groups| - 1;
      Kept(groups[..n]) + Emit(GroupTitle(groups[n], n), Block(groups[n]))
  }

  /** The loop state matches the grouping: the groups before the last are
      emitted, the last is open. */
  ghost predicate Tracks(st: SplitState, g: seq<seq<String>>) {
    |g| >= 1 &&
    st.sections == Kept(g[..|g| - 1]) &&
    st.title == GroupTitle(g[|g| - 1], |g| - 1) &&
    st.current == Block(g[|g| - 1])
  }

  lemma BlockSnoc(xs: seq<String>, l: String)
    ensures Block(xs + [l]) == Block(xs) + l + "\n"
  {
    assert (xs + [l])[..|xs|] == xs;
  }

  /** A header line closes the open group and opens a new one. */
  lemma FeedHeader(st: SplitState, g: seq<seq<String>>, l: String, isHeader: String -> bool)
    requires Tracks(st, g) && isHeader(Strip(l))
    ensures Tracks(Feed(st, l, isHeader), g + [[l]])
  {
    var m := |g| - 1;
    var g' := g + [[l]];
    var st' := Feed(st, l, isHeader);
    assert g'[..|g|] == g;
    assert g[..m + 1] == g;
    KeptLast(g);
    assert st'.sections == Kept(g);
    assert st'.title == GroupTitle(g'[|g|], |g|);
    BlockSingle(l);
  }

  lemma KeptLast(g: seq<seq<String>>)
    requires |g| >= 1
    ensures Kept(g) == Kept(g[..|g| - 1]) + Emit(GroupTitle(g[|g| - 1], |g| - 1), Block(g[|g| - 1]))
  {
  }

  lemma BlockSingle(l: String)
    ensures Block([l]) == l + "\n"
  {
    assert [l][..0] == [];
  }

  /** Any other line joins the open group. */
  lemma FeedLine(st: SplitState, g: seq<seq<String>>, l: String, isHeader: String -> bool)
    requires Tracks(st, g) && !isHeader(Strip(l))
    requires |g| > 1 ==> |g[|g| - 1]| > 0
    ensures Tracks(Feed(st, l, isHeader), g[..|g| - 1] + [g[|g| - 1] + [l]])
  {
    var m := |g| - 1;
    var g' := g[..m] + [g[m] + [l]];
    assert g'[..m] == g[..m];
    BlockSnoc(g[m], l);
  }

  /** The loop state after a prefix of the lines follows the grouping. */
  lemma {:induction false} ScanState(lines: seq<String>, isHeader: String -> bool)
    ensures Tracks(Scan(lines, isHeader), Groups(lines, HeaderLine(isHeader)))
  {
    if |lines| > 0 {
      var n := |lines| - 1;
      var g := Groups(lines[..n], HeaderLine(isHeader));
      var l := lines[n];
      ScanState(lines[..n], isHeader);
      GroupsCutAtHeaders(lines[..n], HeaderLine(isHeader));
      var st := Scan(lines[..n], isHeader);
      assert Scan(lines, isHeader) == Feed(st, l, isHeader);
      assert HeaderLine(isHeader)(l) == isHeader(Strip(l));
      if isHeader(Strip(l)) {
        assert Groups(lines, HeaderLine(isHeader)) == g + [[l]];
        FeedHeader(st, g, l, isHeader);
      } else {
        assert Groups(lines, HeaderLine(isHeader)) == g[..|g| - 1] + [g[|g| - 1] + [l]];
        FeedLine(st, g, l, isHeader);
      }
    }
  }

  /** Splitting into sections keeps exactly the non-blank groups, in order. */
  lemma SplitMatchesGroups(text: String, isHeader: String -> bool)
    ensures SplitIntoSections(text, isHeader) == Kept(Groups(SplitOn(text, "\n"), HeaderLine(isHeader)))
  {
    var lines := SplitOn(text, "\n");
    var g := Groups(lines, HeaderLine(isHeader));
    ScanState(lines, isHeader);
    assert g == g[..|g| - 1] + [g[|g| - 1]];
  }

  /** A group holding a non-blank line becomes a section: no line with text is
      lost. */
  lemma NonBlankGroupKept(group: seq<String>, k: nat, i: nat)
    requires i < |group| && !IsBlank(group[i])
    ensures |Emit(GroupTitle(group, k), Block(group))| == 1
  {
    var j :| 0 <= j < |group[i]| && !IsSpace(group[i][j]);
    var at := BlockOffset(group, i);
    assert Block(group)[at + j] == group[i][j];
    NonBlankSurvivesStrip(Block(group), at + j);
  }

  /** Where line `i` starts inside the block. */
  lemma {:induction false} BlockOffset(lines: seq<String>, i: nat) returns (at: nat)
    requires i < |lines|
    ensures at + |lines[i]| <= |Block(lines)|
    ensures Block(lines)[at..at + |lines[i]|] == lines[i]
  {
    var n := |lines| - 1;
    var pre := Block(lines[..n]);
    if i == n {
      at := |pre|;
      assert Block(lines) == pre + lines[n] + "\n";
    } else {
      at := BlockOffset(lines[..n], i);
      assert Block(lines) == pre + lines[n] + "\n";
      assert Block(lines)[at..at + |lines[i]|] == pre[at..at + |lines[i]|];
    }
  }

  // ---------------------------------------------------------------------------
  // Overlapping word windows

  /** The window starts `range(from, n, step)`. */
  function Starts(n: nat, step: nat, from: nat): (r: seq<nat>)
    requires step > 0
    ensures forall j :: 0 <= j < |r| ==> from <= r[j] < n
    ensures |r| > 0 ==> r[0] == from
    ensures forall j :: 0 < j < |r| ==> r[j] == r[j - 1] + step
    ensures |r| == 0 <==> n <= from
    decreases n - from
  {
    if from >= n then [] else [from] + Starts(n, step, from + step)
  }

  /** Where window `j` starts when windows advance by `step` words. */
  function WindowStart(j: nat, step: nat): nat {
    if j == 0 then 0 else WindowStart(j - 1, step) + step
  }

  /** Window `j` starts at word `j * step`. */
  lemma {:induction false} WindowStartIsProduct(j: nat, step: nat)
    ensures WindowStart(j, step) == j * step
  {
    if j > 0 {
      WindowStartIsProduct(j - 1, step);
      assert j * step == (j - 1) * step + step;
    }
  }

  /** Window `j` starts at word `j * step`, past the first word exactly when it
      is not the first window. */
  lemma {:induction false} StartIsMultiple(n: nat, step: nat, j: nat)
    requires step > 0 && j < |Starts(n, step, 0)|
    ensures Starts(n, step, 0)[j] == WindowStart(j, step)
    ensures Starts(n, step, 0)[j] > 0 <==> j > 0
  {
    if j > 0 {
      StartIsMultiple(n, step, j - 1);
    }
  }

  /** A window starting inside the words holds between 1 and `size` of them. */
  lemma WindowSize<T>(words: seq<T>, start: nat, size: nat)
    requires start < |words| && size > 0
    ensures 0 < |Slice(words, start, start + size)| <= size
  {
  }

  ghost predicate Covered(starts: seq<nat>, size: nat, w: nat) {
    exists j :: 0 <= j < |starts| && starts[j] <= w < starts[j] + size
  }

  /** Every word index from `from` on lies in some window: consecutive windows
      start `step <= size` words apart. */
  lemma {:induction false} StartsCover(n: nat, step: nat, size: nat, from: nat, w: nat)
    requires 0 < step <= size && from <= w < n
    ensures Covered(Starts(n, step, from), size, w)
    decreases n - from
  {
    var r := Starts(n, step, from);
    if w < from + step {
      assert r[0] <= w < r[0] + size;
    } else {
      StartsCover(n, step, size, from + step, w);
      var rest := Starts(n, step, from + step);
      var j :| 0 <= j < |rest| && rest[j] <= w < rest[j] + size;
      assert r[j + 1] == rest[j];
    }
  }

  // ---------------------------------------------------------------------------
  // Chunks

  /** The granularity of a chunk; the section summary is called "section". */
  datatype Granularity = Fact | Clause | SectionSummary | DocumentSummary {
    function Label(): String {
      match this
      case Fact => "fact"
      case Clause => "clause"
      case SectionSummary => "section"
      case DocumentSummary => "document"
    }

    /** Order of the kinds inside one section's chunks. */
    function Rank(): nat {
      match this
      case Fact => 0
      case Clause => 1
      case SectionSummary => 2
      case DocumentSummary => 3
    }
  }

  /** A chunk id, before rendering: `{doc}_fact_{n}`, `{doc}_chunk_{s}_{k}`,
      `{doc}_section_{s}` or `{doc}_document`. */
  datatype ChunkId = FactId(n: nat) | ClauseId(section: nat, k: nat) | SectionId(section: nat) | DocumentId

  /** The per-kind metadata of a chunk. */
  datatype Info =
    | FactInfo(factType: String, value: String)
    | WindowInfo(chunkIndex: nat, overlapStart: bool, overlapEnd: bool)
    | SummaryInfo

  datatype Chunk = Chunk(
    id: ChunkId, content: String, granularity: Granularity, docType: DocType,
    section: String, sectionIndex: int, wordCount: nat, info: Info)

  /** A fact found by `extract_facts`: its type, the captured value and the
      text around the match. */
  datatype PolicyFact = PolicyFact(factType: String, value: String, context: String)

  /** The chunk for the window starting at `start`, the `j`-th of its section. */
  function WindowChunk(words: seq<String>, start: nat, size: nat, j: nat, docType: DocType, title: String, si: nat)
    : Chunk
  {
    var w := Slice(words, start, start + size);
    Chunk(ClauseId(si, j), Join(w, " "), Clause, docType, title, si, |w|,
          WindowInfo(j, start > 0, start + size < |words|))
  }

  /** `_create_overlapping_chunks(text, chunk_size, overlap, ...)` for section
      `si`, on the words of the text: one window chunk per start, numbered from
      0, each holding between 1 and `chunk_size` words. */
  function OverlappingChunks(words: seq<String>, size: nat, overlap: nat, docType: DocType, title: String, si: nat)
    : (r: seq<Chunk>)
    requires overlap < size
    ensures |r| == |Starts(|words|, size - overlap, 0)|
    ensures forall j :: 0 <= j < |r| ==>
              r[j].id == ClauseId(si, j) && r[j].granularity == Clause && r[j].sectionIndex == si && r[j].docType == docType
    ensures forall j :: 0 <= j < |r| ==> 0 < r[j].wordCount <= size
    ensures forall j :: 0 <= j < |r| ==>
              r[j] == WindowChunk(words, Starts(|words|, size - overlap, 0)[j], size, j, docType, title, si)
  {
    var starts := Starts(|words|, size - overlap, 0);
    forall j | 0 <= j < |starts| ensures 0 < |Slice(words, starts[j], starts[j] + size)| <= size {
      WindowSize(words, starts[j], size);
    }
    seq(|starts|, j requires 0 <= j < |starts| => WindowChunk(words, starts[j], size, j, docType, title, si))
  }

  /** Window `j` holds the words from `j * (chunk_size - overlap)` on, at most
      `chunk_size` of them; it overlaps its predecessor exactly when it is not
      the first, and its successor exactly when words remain past its end. */
  lemma WindowAt(words: seq<String>, size: nat, overlap: nat, docType: DocType, title: String, si: nat, j: nat)
    requires overlap < size && j < |OverlappingChunks(words, size, overlap, docType, title, si)|
    ensures var c := OverlappingChunks(words, size, overlap, docType, title, si)[j];
      var start := WindowStart(j, size - overlap);
      c.content == Join(Slice(words, start, start + size), " ") &&
      c.wordCount == |Slice(words, start, start + size)| &&
      c.info == WindowInfo(j, j > 0, start + size < |words|)
  {
    var step := size - overlap;
    var starts := Starts(|words|, step, 0);
    var c := OverlappingChunks(words, size, overlap, docType, title, si)[j];
    assert c == WindowChunk(words, starts[j], size, j, docType, title, si);
    StartIsMultiple(|words|, step, j);
  }

  /** Every word lies in some window. */
  lemma WindowsCoverWords(words: seq<String>, size: nat, overlap: nat, docType: DocType, title: String, si: nat, w: nat)
    requires overlap < size && w < |words|
    ensures var r := OverlappingChunks(words, size, overlap, docType, title, si);
      exists j :: 0 <= j < |r| && WindowStart(j, size - overlap) <= w < WindowStart(j, size - overlap) + r[j].wordCount
  {
    var step := size - overlap;
    var r := OverlappingChunks(words, size, overlap, docType, title, si);
    StartsCover(|words|, step, size, 0, w);
    var starts := Starts(|words|, step, 0);
    var j :| 0 <= j < |starts| && starts[j] <= w < starts[j] + size;
    StartIsMultiple(|words|, step, j);
    WindowReaches(words, size, overlap, docType, title, si, j, w);
  }

  /** A window reaches every word within `chunk_size` of its start. */
  lemma WindowReaches(words: seq<String>, size: nat, overlap: nat, docType: DocType, title: String, si: nat,
                      j: nat, w: nat)
    requires overlap < size && j < |OverlappingChunks(words, size, overlap, docType, title, si)|
    requires WindowStart(j, size - overlap) <= w < |words| && w < WindowStart(j, size - overlap) + size
    ensures w < WindowStart(j, size - overlap) + OverlappingChunks(words, size, overlap, docType, title, si)[j].wordCount
  {
    WindowAt(words, size, overlap, docType, title, si, j);
    SliceReaches(words, WindowStart(j, size - overlap), size, w);
  }

  /** A window holds every word from its start up to `size` words on. */
  lemma SliceReaches<T>(words: seq<T>, start: nat, size: nat, w: nat)
    requires start <= w < |words| && w < start + size
    ensures w < start + |Slice(words, start, start + size)|
  {
  }

  /** A fact chunk, numbered by the chunks already made. */
  function FactChunk(f: PolicyFact, n: nat, docType: DocType, title: String, si: nat): Chunk {
    Chunk(FactId(n), f.context, Fact, docType, title, si, |Words(f.context)|, FactInfo(f.factType, f.value))
  }

  /** The fact chunks of a section, the first numbered `offset`. */
  function FactChunks(facts: seq<PolicyFact>, offset: nat, docType: DocType, title: String, si: nat): (r: seq<Chunk>)
    ensures |r| == |facts|
    ensures forall j :: 0 <= j < |r| ==>
              r[j].id == FactId(offset + j) && r[j].granularity == Fact && r[j].sectionIndex == si &&
              r[j].docType == docType && r[j].content == facts[j].context
  {
    seq(|facts|, i requires 0 <= i < |facts| => FactChunk(facts[i], offset + i, docType, title, si))
  }

  const SummaryThreshold: nat := 100
  const SummaryPrefix: nat := 500

  /** The section summary chunk, made when the stripped section text is longer
      than 100 characters. */
  function SummaryChunks(sec: Section, docType: DocType, si: nat): (r: seq<Chunk>)
    ensures |r| <= 1
    ensures |r| == 1 <==> |Strip(sec.content)| > SummaryThreshold
    ensures forall j :: 0 <= j < |r| ==>
              r[j].id == SectionId(si) && r[j].granularity == SectionSummary && r[j].sectionIndex == si && r[j].docType == docType
  {
    if |Strip(sec.content)| > SummaryThreshold then
      [Chunk(SectionId(si), "Section: " + sec.title + "\n\n" + Take(sec.content, SummaryPrefix) + "...",
             SectionSummary, docType, sec.title, si, |Words(sec.content)|, SummaryInfo)]
    else []
  }

  /** How a chunk's id fits its place: a fact is numbered by its position,
      a window or summary by its section. */
  ghost predicate IdFits(c: Chunk, at: nat) {
    match c.id
    case FactId(n) => n == at && c.granularity == Fact
    case ClauseId(s, _) => s == c.sectionIndex && c.granularity == Clause
    case SectionId(s) => s == c.sectionIndex && c.granularity == SectionSummary
    case DocumentId => c.granularity == DocumentSummary
  }

  /** `a` may come before `b`: an earlier section, or the same section and a
      kind no later in the order fact, window, summary. */
  ghost predicate Before(a: Chunk, b: Chunk) {
    a.sectionIndex < b.sectionIndex ||
    (a.sectionIndex == b.sectionIndex && a.granularity.Rank() <= b.granularity.Rank())
  }

  /** The chunks of one section, given the number of chunks made before it:
      its facts, then its windows, then its summary. Every chunk carries the
      section's index and an id that fits its place, the ids are distinct, and
      there is a summary exactly when the stripped text is over 100 characters. */
  function SectionChunks(offset: nat, si: nat, sec: Section, strategy: Strategy, docType: DocType,
                         extract: (String, String) -> seq<PolicyFact>): (r: seq<Chunk>)
    requires strategy.overlap < strategy.chunkSize
    ensures forall j :: 0 <= j < |r| ==> r[j].sectionIndex == si && IdFits(r[j], offset + j) && !r[j].id.DocumentId?
    ensures forall j :: 0 <= j < |r| ==> r[j].docType == docType
    ensures forall i, j :: 0 <= i < j < |r| ==> r[i].id != r[j].id && Before(r[i], r[j])
    ensures (exists j :: 0 <= j < |r| && r[j].granularity == SectionSummary) <==> |Strip(sec.content)| > SummaryThreshold
  {
    var facts := extract(sec.content, sec.title);
    var factChunks := FactChunks(facts, offset, docType, sec.title, si);
    var windows := OverlappingChunks(Words(sec.content), strategy.chunkSize, strategy.overlap, docType, sec.title, si);
    var summary := SummaryChunks(sec, docType, si);
    BlockLayout(factChunks, windows, summary, offset, si, docType);
    factChunks + windows + summary
  }

  lemma BlockLayout(facts: seq<Chunk>, windows: seq<Chunk>, summary: seq<Chunk>, offset: nat, si: nat, docType: DocType)
    requires forall j :: 0 <= j < |facts| ==>
      facts[j].id == FactId(offset + j) && facts[j].granularity == Fact && facts[j].sectionIndex == si && facts[j].docType == docType
    requires forall j :: 0 <= j < |windows| ==>
      windows[j].id == ClauseId(si, j) && windows[j].granularity == Clause && windows[j].sectionIndex == si && windows[j].docType == docType
    requires |summary| <= 1
    requires forall j :: 0 <= j < |summary| ==>
      summary[j].id == SectionId(si) && summary[j].granularity == SectionSummary && summary[j].sectionIndex == si && summary[j].docType == docType
    ensures var r := facts + windows + summary;
      (forall j :: 0 <= j < |r| ==> r[j].sectionIndex == si && IdFits(r[j], offset + j) && !r[j].id.DocumentId?) &&
      (forall j :: 0 <= j < |r| ==> r[j].docType == docType) &&
      (forall i, j :: 0 <= i < j < |r| ==> r[i].id != r[j].id && Before(r[i], r[j])) &&
      ((exists j :: 0 <= j < |r| && r[j].granularity == SectionSummary) <==> |summary| == 1)
  {
    var r := facts + windows + summary;
    var a, b := |facts|, |facts| + |windows|;
    forall j | 0 <= j < |r| ensures r[j] == if j < a then facts[j] else if j < b then windows[j - a] else summary[j - b] {
    }
    if |summary| == 1 {
      assert r[b].granularity == SectionSummary;
    }
  }

  /** Where the chunks made so far stand: section indices below `ns`, ids that
      fit their places and are distinct, and section order kept. */
  ghost predicate Layout(r: seq<Chunk>, ns: nat, docType: DocType) {
    (forall i :: 0 <= i < |r| ==>
       0 <= r[i].sectionIndex < ns && IdFits(r[i], i) && !r[i].id.DocumentId? && r[i].docType == docType) &&
    (forall i, j :: 0 <= i < j < |r| ==> r[i].id != r[j].id && Before(r[i], r[j]))
  }

  /** The loop over the sections. */
  function AllSections(sections: seq<Section>, strategy: Strategy, docType: DocType,
                       extract: (String, String) -> seq<PolicyFact>): (r: seq<Chunk>)
    requires strategy.overlap < strategy.chunkSize
    ensures Layout(r, |sections|, docType)
  {
    if |sections| == 0 then []
    else
      var n := |sections| - 1;
      var prev := AllSections(sections[..n], strategy, docType, extract);
      var block := SectionChunks(|prev|, n, sections[n], strategy, docType, extract);
      AppendLayout(prev, block, n, docType);
      prev + block
  }

  /** A section's block, appended after the chunks of earlier sections, keeps
      the layout. */
  lemma AppendLayout(prev: seq<Chunk>, block: seq<Chunk>, n: nat, docType: DocType)
    requires Layout(prev, n, docType)
    requires forall j :: 0 <= j < |block| ==>
      block[j].sectionIndex == n && IdFits(block[j], |prev| + j) && !block[j].id.DocumentId? && block[j].docType == docType
    requires forall i, j :: 0 <= i < j < |block| ==> block[i].id != block[j].id && Before(block[i], block[j])
    ensures Layout(prev + block, n + 1, docType)
  {
    var r := prev + block;
    forall i | 0 <= i < |r| ensures IdFits(r[i], i) {
      if i >= |prev| {
        assert r[i] == block[i - |prev|];
      }
    }
    forall i, j | 0 <= i < j < |r| ensures r[i].id != r[j].id && Before(r[i], r[j]) {
      if j >= |prev| && i < |prev| {
        assert r[j] == block[j - |prev|];
        assert r[i].sectionIndex < n;
      } else if i >= |prev| {
        assert r[i] == block[i - |prev|] && r[j] == block[j - |prev|];
      }
    }
  }

  const DocumentSummaryLength: nat := 1000

  /** `text[:1000] + "..."` when the text is longer than 1000 characters. */
  function DocSummary(text: String): (s: String)
    ensures |text| <= DocumentSummaryLength ==> s == text
    ensures |text| > DocumentSummaryLength ==> |s| == DocumentSummaryLength + 3 && s[..DocumentSummaryLength] == text[..DocumentSummaryLength]
  {
    if |text| > DocumentSummaryLength then text[..DocumentSummaryLength] + "..." else text
  }

  /** `create_enhanced_chunks(text, document_name, doc_type)`, with `matches`
      deciding the section markers and `extract` standing for `extract_facts`.
      The section chunks come in section order, each section's facts before
      its windows before its summary; ids are distinct, fact ids count the
      chunks before them; exactly one document chunk, and it is last. */
  function CreateEnhancedChunks(text: String, doc: String, docType: DocType, matches: (String, String) -> bool,
                                extract: (String, String) -> seq<PolicyFact>): (r: seq<Chunk>)
    ensures |r| >= 1
    ensures r[|r| - 1].id == DocumentId && r[|r| - 1].granularity == DocumentSummary && r[|r| - 1].sectionIndex == -1
    ensures r[|r| - 1].content == "Document: " + doc + "\n\n" + DocSummary(text)
    ensures forall i :: 0 <= i < |r| - 1 ==> r[i].granularity != DocumentSummary
    ensures forall i :: 0 <= i < |r| ==> IdFits(r[i], i) && r[i].docType == docType
    ensures forall i, j :: 0 <= i < j < |r| ==> r[i].id != r[j].id
    ensures forall i, j :: 0 <= i < j < |r| - 1 ==> Before(r[i], r[j])
    ensures forall i :: 0 <= i < |r| - 1 ==>
              0 <= r[i].sectionIndex < |SplitIntoSections(text, HeaderTest(StrategyFor(docType).markers, matches))|
  {
    var strategy := StrategyFor(docType);
    var sections := SplitIntoSections(text, HeaderTest(strategy.markers, matches));
    var body := AllSections(sections, strategy, docType, extract);
    var docChunk := Chunk(DocumentId, "Document: " + doc + "\n\n" + DocSummary(text), DocumentSummary, docType,
                          "full_document", -1, |Words(text)|, SummaryInfo);
    AppendDocument(body, docChunk, |sections|, docType);
    body + [docChunk]
  }

  /** The document chunk, appended last, is the only one of its kind and keeps
      the ids distinct. */
  lemma AppendDocument(body: seq<Chunk>, d: Chunk, ns: nat, docType: DocType)
    requires Layout(body, ns, docType)
    requires d.id == DocumentId && d.granularity == DocumentSummary && d.docType == docType
    ensures var r := body + [d];
      (forall i :: 0 <= i < |r| - 1 ==> r[i].granularity != DocumentSummary && 0 <= r[i].sectionIndex < ns) &&
      (forall i :: 0 <= i < |r| ==> IdFits(r[i], i) && r[i].docType == docType) &&
      (forall i, j :: 0 <= i < j < |r| ==> r[i].id != r[j].id) &&
      (forall i, j :: 0 <= i < j < |r| - 1 ==> Before(r[i], r[j]))
  {
    var r := body + [d];
    assert forall i :: 0 <= i < |body| ==> r[i] == body[i];
    forall i | 0 <= i < |body| ensures r[i].granularity != DocumentSummary {
      assert IdFits(body[i], i) && !body[i].id.DocumentId?;
    }
  }

  // ---------------------------------------------------------------------------
  // Rendered ids

  /** The part of a rendered id after `{document_name}_`. */
  function IdTail(id: ChunkId): String {
    match id
    case FactId(n) => "fact_" + NatToString(n)
    case ClauseId(s, k) => "chunk_" + NatToString(s) + "_" + NatToString(k)
    case SectionId(s) => "section_" + NatToString(s)
    case DocumentId => "document"
  }

  /** The `chunk_id` string. */
  function RenderId(doc: String, id: ChunkId): String {
    doc + "_" + IdTail(id)
  }

  lemma DropPrefix(p: String, a: String, b: String)
    requires p + a == p + b
    ensures a == b
  {
    assert a == (p + a)[|p|..];
  }

  lemma NoUnderscore(n: nat)
    ensures forall i :: 0 <= i < |NatToString(n)| ==> NatToString(n)[i] != '_'
  {
  }

  /** Rendering is injective, so distinct ids give distinct `chunk_id` strings
      within one document. */
  lemma RenderIdInjective(doc: String, a: ChunkId, b: ChunkId)
    ensures RenderId(doc, a) == RenderId(doc, b) ==> a == b
  {
    if RenderId(doc, a) == RenderId(doc, b) {
      DropPrefix(doc + "_", IdTail(a), IdTail(b));
      TailInjective(a, b);
    }
  }

  lemma TailInjective(a: ChunkId, b: ChunkId)
    requires IdTail(a) == IdTail(b)
    ensures a == b
  {
    assert IdTail(a)[0] == IdTail(b)[0];
    match a
    case FactId(n) =>
      DropPrefix("fact_", NatToString(n), NatToString(b.n));
      NatToStringInjective(n, b.n);
    case SectionId(s) =>
      DropPrefix("section_", NatToString(s), NatToString(b.section));
      NatToStringInjective(s, b.section);
    case ClauseId(s, k) =>
      var s', k' := b.section, b.k;
      NoUnderscore(k);
      NoUnderscore(k');
      assert ("chunk_" + NatToString(s)) + "_" + NatToString(k) == ("chunk_" + NatToString(s')) + "_" + NatToString(k');
      SplitAtLastUnderscore("chunk_" + NatToString(s), NatToString(k), "chunk_" + NatToString(s'), NatToString(k'));
      DropPrefix("chunk_", NatToString(s), NatToString(s'));
      NatToStringInjective(s, s');
      NatToStringInjective(k, k');
    case DocumentId =>
  }

  /** The `chunk_id`s of one call are pairwise distinct. */
  lemma RenderedIdsDistinct(text: String, doc: String, docType: DocType, matches: (String, String) -> bool,
                            extract: (String, String) -> seq<PolicyFact>, i: nat, j: nat)
    requires var r := CreateEnhancedChunks(text, doc, docType, matches, extract); i < j < |r|
    ensures var r := CreateEnhancedChunks(text, doc, docType, matches, extract);
      RenderId(doc, r[i].id) != RenderId(doc, r[j].id)
  {
    var r := CreateEnhancedChunks(text, doc, docType, matches, extract);
    RenderIdInjective(doc, r[i].id, r[j].id);
  }

  // ---------------------------------------------------------------------------
  // Namespaces and upload

  /** `f"{doc_type}_{granularity}"`. */
  function Namespace(c: Chunk): String {
    c.docType.Label() + "_" + c.granularity.Label()
  }

  /** A namespace names one document type and one granularity. */
  lemma NamespaceInjective(a: Chunk, b: Chunk)
    ensures Namespace(a) == Namespace(b) <==> a.docType == b.docType && a.granularity == b.granularity
  {
    if Namespace(a) == Namespace(b) {
      var g, h := a.granularity.Label(), b.granularity.Label();
      assert forall i :: 0 <= i < |g| ==> g[i] != '_';
      assert forall i :: 0 <= i < |h| ==> h[i] != '_';
      SplitAtLastUnderscore(a.docType.Label(), g, b.docType.Label(), h);
      LabelInjective(a.docType, b.docType);
      assert g[0] == h[0];
    }
  }

  const UploadBatchSize: nat := 50

  /** The grouping and counting of `upload_chunks_to_pinecone`, with `upsert`
      telling whether a batch upload went through: each namespace is counted
      with the number of chunks grouped under it, whatever the uploads did. */
  function UploadChunks(chunks: seq<Chunk>, upsert: (String, seq<Chunk>) -> bool): (r: Grouping.Report)
    ensures forall ns :: OrderedMap.Get(r.counts, ns).Some? <==> Grouping.Select(chunks, Namespace, ns) != []
    ensures forall ns :: OrderedMap.Get(r.counts, ns).Some? ==>
              OrderedMap.Get(r.counts, ns).value == |Grouping.Select(chunks, Namespace, ns)|
    ensures Grouping.SumCounts(r.counts) == |chunks|
  {
    Grouping.Upload(chunks, Namespace, UploadBatchSize, upsert)
  }

  /** Uploading one document's chunks counts exactly one chunk under its
      document namespace. */
  lemma OneDocumentChunk(text: String, doc: String, docType: DocType, matches: (String, String) -> bool,
                         extract: (String, String) -> seq<PolicyFact>, upsert: (String, seq<Chunk>) -> bool)
    ensures var r := CreateEnhancedChunks(text, doc, docType, matches, extract);
      OrderedMap.Get(UploadChunks(r, upsert).counts, docType.Label() + "_document") == Some(1)
  {
    var r := CreateEnhancedChunks(text, doc, docType, matches, extract);
    var d := r[|r| - 1];
    assert DocumentLast(r);
    LastIsOnlyDocument(r);
    CountOfOne(r, upsert, Namespace(d));
    DocumentNamespace(d, docType);
  }

  /** The last chunk is the only document summary. */
  ghost predicate DocumentLast(r: seq<Chunk>) {
    |r| >= 1 && r[|r| - 1].granularity == DocumentSummary &&
    forall i :: 0 <= i < |r| - 1 ==> r[i].granularity != DocumentSummary
  }

  lemma DocumentNamespace(d: Chunk, docType: DocType)
    requires d.granularity == DocumentSummary && d.docType == docType
    ensures Namespace(d) == docType.Label() + "_document"
  {
  }

  lemma CountOfOne(chunks: seq<Chunk>, upsert: (String, seq<Chunk>) -> bool, ns: String)
    requires |Grouping.Select(chunks, Namespace, ns)| == 1
    ensures OrderedMap.Get(UploadChunks(chunks, upsert).counts, ns) == Some(1)
  {
    var u := UploadChunks(chunks, upsert);
    assert OrderedMap.Get(u.counts, ns).Some?;
  }

  lemma LastIsOnlyDocument(r: seq<Chunk>)
    requires DocumentLast(r)
    ensures |Grouping.Select(r, Namespace, Namespace(r[|r| - 1]))| == 1
  {
    var n := |r| - 1;
    OthersElsewhere(r[..n], r[n]);
    assert r[..n] + [r[n]] == r;
  }

  lemma OthersElsewhere(body: seq<Chunk>, d: Chunk)
    requires d.granularity == DocumentSummary
    requires forall i :: 0 <= i < |body| ==> body[i].granularity != DocumentSummary
    ensures Grouping.Select(body, Namespace, Namespace(d)) == []
  {
    forall i | 0 <= i < |body| ensures Namespace(body[i]) != Namespace(d) {
      NamespaceInjective(body[i], d);
    }
    Grouping.SelectNone(body, Namespace, Namespace(d));
  }
}
