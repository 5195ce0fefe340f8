/** `SemanticNamespaceMapper` (semantic_namespace_mapper.py): translation between
    semantic namespace names and the index's actual namespaces, in both directions,
    and the category summary. The keyword router is in `NamespaceRouter`. */
module NamespaceMapper {
  import opened Seqs
  import opened Wrappers
  import opened OrderedMap
  import opened Text
  import opened NamespaceTables

  /** The mapper's three dicts. */
  datatype Mapper = Mapper(semanticToActual: Table, actualToSemantic: Table, keywords: Table)

  /** The constructor: the reverse dict is derived from the forward one. */
  function NewMapper(semanticToActual: Table, keywords: Table): (m: Mapper)
    ensures m.semanticToActual == semanticToActual && m.keywords == keywords
    ensures forall a :: Get(m.actualToSemantic, a).Some? <==> |Referrers(semanticToActual, a)| > 0
  {
    var r := Reverse(semanticToActual);
    forall a ensures Get(r, a).Some? <==> |Referrers(semanticToActual, a)| > 0 {
      ReverseLists(semanticToActual, a);
    }
    Mapper(semanticToActual, r, keywords)
  }

  /** The module-level `semantic_mapper` instance. */
  const SemanticMapper: Mapper := NewMapper(SemanticToActual, NamespaceKeywords)

  /** A mapper whose dicts have distinct keys (as dict literals do) and whose
      reverse dict was derived from the forward one. */
  ghost predicate Valid(m: Mapper) {
    OrderedMap.Valid(m.semanticToActual) && OrderedMap.Valid(m.keywords)
    && m.actualToSemantic == Reverse(m.semanticToActual)
  }

  /** `d.get(name, [name])`: the listed names, or the name itself when unknown. */
  function LookupOr(t: Table, name: String): (r: seq<String>)
    ensures name in Keys(t) ==> Get(t, name) == Some(r)
    ensures name !in Keys(t) ==> r == [name]
  {
    match Get(t, name)
    case Some(v) => v
    case None => [name]
  }

  /** `get_actual_namespace`. */
  function GetActualNamespace(m: Mapper, semantic: String): (r: seq<String>)
    ensures semantic in Keys(m.semanticToActual) ==> Get(m.semanticToActual, semantic) == Some(r)
    ensures semantic !in Keys(m.semanticToActual) ==> r == [semantic]
  {
    LookupOr(m.semanticToActual, semantic)
  }

  /** `get_semantic_namespace`. */
  function GetSemanticNamespace(m: Mapper, actual: String): (r: seq<String>)
    ensures actual in Keys(m.actualToSemantic) ==> Get(m.actualToSemantic, actual) == Some(r)
    ensures actual !in Keys(m.actualToSemantic) ==> r == [actual]
  {
    LookupOr(m.actualToSemantic, actual)
  }

  /** `get_all_semantic_namespaces`: the forward dict's keys, in order. */
  function GetAllSemanticNamespaces(m: Mapper): (r: seq<String>)
    ensures |r| == |m.semanticToActual|
    ensures forall i :: 0 <= i < |r| ==> r[i] == m.semanticToActual[i].0
  {
    Keys(m.semanticToActual)
  }

  // ---------------------------------------------------------------------------
  // The reverse dict

  /** `r.setdefault(a, []).append(s)`, as the constructor's loop writes it. */
  function AppendTo(r: Table, a: String, s: String): (r': Table)
    ensures Get(r', a) == Some(Get(r, a).GetOr([]) + [s])
    ensures forall b :: b != a ==> Get(r', b) == Get(r, b)
  {
    Put(r, a, Get(r, a).GetOr([]) + [s])
  }

  /** The inner loop: `s` appended under each of `actuals` in turn. */
  function AppendUnderEach(r: Table, s: String, actuals: seq<String>): Table {
    if |actuals| == 0 then r
    else AppendTo(AppendUnderEach(r, s, actuals[..|actuals| - 1]), actuals[|actuals| - 1], s)
  }

  /** `actual_to_semantic` as the constructor builds it. */
  function Reverse(t: Table): Table {
    if |t| == 0 then []
    else AppendUnderEach(Reverse(t[..|t| - 1]), t[|t| - 1].0, t[|t| - 1].1)
  }

  /** How often `a` occurs in `xs`. */
  function Count(xs: seq<String>, a: String): (n: nat)
    ensures n <= |xs|
    ensures n > 0 <==> a in xs
  {
    if |xs| == 0 then 0
    else Count(xs[..|xs| - 1], a) + (if xs[|xs| - 1] == a then 1 else 0)
  }

  /** `n` copies of `s`. */
  function Repeat(s: String, n: nat): (r: seq<String>)
    ensures |r| == n
  {
    if n == 0 then [] else Repeat(s, n - 1) + [s]
  }

  /** Reference definition of the reverse lists: the semantic names whose lists
      contain `a`, in table order, once per occurrence. */
  function Referrers(t: Table, a: String): seq<String> {
    if |t| == 0 then []
    else Referrers(t[..|t| - 1], a) + Repeat(t[|t| - 1].0, Count(t[|t| - 1].1, a))
  }

  lemma RepeatMembers(s: String, n: nat, x: String)
    ensures x in Repeat(s, n) <==> n > 0 && x == s
  {
    if n > 0 {
      RepeatMembers(s, n - 1, x);
    }
  }

  lemma {:induction false} AppendUnderEachGet(r: Table, s: String, actuals: seq<String>, a: String)
    ensures Count(actuals, a) == 0 ==> Get(AppendUnderEach(r, s, actuals), a) == Get(r, a)
    ensures Count(actuals, a) > 0 ==>
      Get(AppendUnderEach(r, s, actuals), a) == Some(Get(r, a).GetOr([]) + Repeat(s, Count(actuals, a)))
  {
    if |actuals| > 0 {
      var n := |actuals| - 1;
      var init := actuals[..n];
      AppendUnderEachGet(r, s, init, a);
      AppendStep(r, s, a, actuals[n], Count(init, a), AppendUnderEach(r, s, init));
    }
  }

  /** What the inner loop leaves under `a` after appending `s` under `c` of
      the names that equal `a`. */
  function Appended(r: Table, s: String, a: String, c: nat): Option<seq<String>> {
    if c == 0 then Get(r, a) else Some(Get(r, a).GetOr([]) + Repeat(s, c))
  }

  /** One more iteration of the inner loop. */
  lemma AppendStep(r: Table, s: String, a: String, b: String, c0: nat, r0: Table)
    requires Get(r0, a) == Appended(r, s, a, c0)
    ensures Get(AppendTo(r0, b, s), a) == Appended(r, s, a, c0 + (if b == a then 1 else 0))
  {
    if b == a {
      var x := Get(r, a).GetOr([]);
      var g0 := Get(r0, a).GetOr([]);
      assert g0 == x + Repeat(s, c0) by {
        if c0 == 0 {
          assert Repeat(s, 0) == [];
        }
      }
      RepeatSnoc(s, c0);
      assert g0 + [s] == x + Repeat(s, c0 + 1);
    }
  }

  lemma RepeatSnoc(s: String, n: nat)
    ensures Repeat(s, n + 1) == Repeat(s, n) + [s]
  {
  }

  /** The built reverse dict holds exactly the reference lists, and has a key
      exactly for the names some list mentions. */
  lemma {:induction false} ReverseLists(t: Table, a: String)
    ensures Get(Reverse(t), a) == if |Referrers(t, a)| == 0 then None else Some(Referrers(t, a))
  {
    if |t| > 0 {
      var n := |t| - 1;
      var r0 := Reverse(t[..n]);
      var ref0 := Referrers(t[..n], a);
      var c := Count(t[n].1, a);
      ReverseLists(t[..n], a);
      AppendUnderEachGet(r0, t[n].0, t[n].1, a);
      assert Reverse(t) == AppendUnderEach(r0, t[n].0, t[n].1);
      assert Referrers(t, a) == ref0 + Repeat(t[n].0, c);
      if c > 0 {
        assert Get(r0, a).GetOr([]) == ref0;
      } else {
        assert Referrers(t, a) == ref0;
      }
    }
  }

  /** A name is listed under `a` exactly when its own list mentions `a`. */
  lemma {:induction false} ReferrersMembers(t: Table, a: String, s: String)
    ensures s in Referrers(t, a) <==> exists i :: 0 <= i < |t| && t[i].0 == s && a in t[i].1
  {
    if |t| > 0 {
      var n := |t| - 1;
      ReferrersMembers(t[..n], a, s);
      var last := Repeat(t[n].0, Count(t[n].1, a));
      RepeatMembers(t[n].0, Count(t[n].1, a), s);
      assert Referrers(t, a) == Referrers(t[..n], a) + last;
      assert s in Referrers(t, a) <==> s in Referrers(t[..n], a) || s in last;
      if exists i :: 0 <= i < |t| && t[i].0 == s && a in t[i].1 {
        var i :| 0 <= i < |t| && t[i].0 == s && a in t[i].1;
        if i < n {
          assert t[..n][i] == t[i];
        }
      }
      if exists i :: 0 <= i < n && t[..n][i].0 == s && a in t[..n][i].1 {
        var i :| 0 <= i < n && t[..n][i].0 == s && a in t[..n][i].1;
        assert t[i] == t[..n][i];
      }
    }
  }

  /** Round trip: `s` lists `a` exactly when `a`'s reverse list names `s`. */
  lemma TranslationRoundTrip(m: Mapper, s: String, a: String)
    requires Valid(m) && s in Keys(m.semanticToActual)
    ensures a in GetActualNamespace(m, s) <==> a in Keys(m.actualToSemantic) && s in GetSemanticNamespace(m, a)
  {
    var t := m.semanticToActual;
    var ref := Referrers(t, a);
    ReverseLists(t, a);
    ReferrersMembers(t, a, s);
    var k :| 0 <= k < |t| && Keys(t)[k] == s;
    GetOfMember(t, k);
    assert GetActualNamespace(m, s) == t[k].1;
    if a in t[k].1 {
      assert s in ref;
      assert Get(m.actualToSemantic, a) == Some(ref);
      assert GetSemanticNamespace(m, a) == ref;
    }
    if a in Keys(m.actualToSemantic) && s in GetSemanticNamespace(m, a) {
      assert Get(m.actualToSemantic, a) == Some(ref);
      assert s in ref;
      var i :| 0 <= i < |t| && t[i].0 == s && a in t[i].1;
      assert Keys(t)[i] == Keys(t)[k];
      assert i == k;
    }
  }

  // ---------------------------------------------------------------------------
  // Translation

  /** The names `translate_namespaces` collects before removing duplicates. */
  function TranslateList(t: Table, names: seq<String>): seq<String> {
    FlatMap(n => LookupOr(t, n), names)
  }

  /** `translate_namespaces(names, to_actual)`: `list(set(...))`, whose order is
      the set's iteration order, so the model returns the set. */
  function TranslateNamespaces(m: Mapper, names: seq<String>, toActual: bool): (r: set<String>)
    ensures forall x :: x in r <==>
      exists i :: 0 <= i < |names| &&
        x in (if toActual then GetActualNamespace(m, names[i]) else GetSemanticNamespace(m, names[i]))
  {
    var t := if toActual then m.semanticToActual else m.actualToSemantic;
    forall x ensures x in TranslateList(t, names) <==> exists i :: 0 <= i < |names| && x in LookupOr(t, names[i]) {
      FlatMapMember(n => LookupOr(t, n), names, x);
    }
    Elems(TranslateList(t, names))
  }

  /** `get_all_actual_namespaces`: every name any list mentions, as a set. */
  function GetAllActualNamespaces(m: Mapper): (r: set<String>)
    ensures forall a :: a in r <==> exists i :: 0 <= i < |m.semanticToActual| && a in m.semanticToActual[i].1
  {
    AllListedMembers(m.semanticToActual);
    Elems(Flatten(Values(m.semanticToActual)))
  }

  lemma {:induction false} AllListedMembers(t: Table)
    ensures forall a :: a in Flatten(Values(t)) <==> exists i :: 0 <= i < |t| && a in t[i].1
  {
    if |t| > 0 {
      AllListedMembers(t[1..]);
      assert Values(t) == [t[0].1] + Values(t[1..]);
      forall a ensures a in Flatten(Values(t)) <==> exists i :: 0 <= i < |t| && a in t[i].1 {
        if exists i :: 0 <= i < |t| && a in t[i].1 {
          var i :| 0 <= i < |t| && a in t[i].1;
          if i > 0 {
            assert t[1..][i - 1] == t[i];
          }
        }
        if exists i :: 0 <= i < |t| - 1 && a in t[1..][i].1 {
          var i :| 0 <= i < |t| - 1 && a in t[1..][i].1;
          assert t[i + 1] == t[1..][i];
        }
      }
    }
  }

  /** All actual names are the translation of all semantic names, and each is a
      key of the reverse dict. */
  lemma AllActualIsFullTranslation(m: Mapper)
    requires Valid(m)
    ensures GetAllActualNamespaces(m) == TranslateNamespaces(m, GetAllSemanticNamespaces(m), true)
    ensures forall a :: a in GetAllActualNamespaces(m) ==> a in Keys(m.actualToSemantic)
  {
    var t := m.semanticToActual;
    var names := GetAllSemanticNamespaces(m);
    forall a | a in GetAllActualNamespaces(m)
      ensures a in TranslateNamespaces(m, names, true) && a in Keys(m.actualToSemantic)
    {
      var i :| 0 <= i < |t| && a in t[i].1;
      GetOfMember(t, i);
      assert names[i] == t[i].0;
      assert Keys(t)[i] == t[i].0;
      ReferrersMembers(t, a, t[i].0);
      ReverseLists(t, a);
    }
    forall a | a in TranslateNamespaces(m, names, true) ensures a in GetAllActualNamespaces(m) {
      var i :| 0 <= i < |names| && a in GetActualNamespace(m, names[i]);
      assert Keys(t)[i] == names[i];
      GetOfMember(t, i);
    }
  }

  // ---------------------------------------------------------------------------
  // get_namespace_info

  datatype Mapping = Mapping(semantic: String, actual: String, category: String)

  datatype Info = Info(totalNamespaces: nat, mappings: seq<Mapping>, categories: seq<(String, seq<Mapping>)>)

  /** The mappings of one category: for each of its names that the forward dict
      knows, one entry per actual namespace. */
  function CategoryMappings(t: Table, category: String, names: seq<String>): (r: seq<Mapping>)
    ensures forall k :: 0 <= k < |r| ==>
      r[k].category == category && r[k].semantic in names && r[k].semantic in Keys(t)
      && r[k].actual in Get(t, r[k].semantic).value
  {
    if |names| == 0 then []
    else
      var rest := CategoryMappings(t, category, names[..|names| - 1]);
      var s := names[|names| - 1];
      rest + match Get(t, s) {
        case None => []
        case Some(actuals) => seq(|actuals|, i requires 0 <= i < |actuals| => Mapping(s, actuals[i], category))
      }
  }

  /** `get_namespace_info`: the key count of the forward dict, the flat list of
      mappings, and the same mappings grouped by category. */
  function GetNamespaceInfo(m: Mapper): (r: Info)
    ensures r.totalNamespaces == |m.semanticToActual|
    ensures |r.categories| == |Categories|
    ensures forall c :: 0 <= c < |Categories| ==> r.categories[c].0 == Categories[c].0
    ensures r.mappings == Flatten(Values(r.categories))
  {
    var groups := seq(|Categories|, c requires 0 <= c < |Categories| =>
      (Categories[c].0, CategoryMappings(m.semanticToActual, Categories[c].0, Categories[c].1)));
    Info(|m.semanticToActual|, Flatten(Values(groups)), groups)
  }
}
