/** Reading a snapshot's entries: one pass over the documents that fills lookup tables, then the
    references, scenarios and cases are checked against them. */
module SnapshotReader {
  import opened GoStrings
  import opened Options
  import opened Collections
  import opened Snapshots
  import opened Catalogues
  import A = AcceptedSources

  // ---------------------------------------------------------------- tags and scenarios

  lemma {:induction false} TagsStayRejected(list: seq<GoString>, feature: bool, n: nat)
    requires n <= |list| && TagsRead(list[..n], feature).None?
    ensures TagsRead(list, feature).None?
  {
    if n < |list| {
      var front := list[..|list| - 1];
      assert front[..n] == list[..n];
      TagsStayRejected(front, feature, n);
    } else {
      assert list[..n] == list;
    }
  }

  /** `tags`. */
  method ReadTags(list: seq<GoString>, feature: bool) returns (tags: Option<Tags>)
    ensures tags == TagsOf(list, feature)
  {
    var id: GoString, refs: seq<GoString> := "", [];
    for i := 0 to |list|
      invariant TagsRead(list[..i], feature) == Some(Tags(id, refs))
    {
      assert list[..i + 1][..i] == list[..i];
      var tag := list[i];
      if HasPrefix(tag, ID_TAG) {
        if id != "" {
          TagsStayRejected(list, feature, i + 1);
          return None;
        }
        id := tag[|ID_TAG|..];
      } else if feature && HasPrefix(tag, CONCEPT_TAG) {
        refs := refs + [tag[|CONCEPT_TAG|..]];
      } else {
        TagsStayRejected(list, feature, i + 1);
        return None;
      }
    }
    assert list[..|list|] == list;
    if id == "" || (feature && refs == []) {
      return None;
    }
    return Some(Tags(id, refs));
  }

  predicate HasKeyword(steps: seq<StepNode>, n: nat, keyword: GoString)
    requires n <= |steps|
  {
    exists i :: 0 <= i < n && TrimSpace(steps[i].keyword) == keyword
  }

  method ReadSteps(nodes: seq<StepNode>) returns (steps: Option<seq<Step>>)
    ensures steps.Some? <==> forall i :: 0 <= i < |nodes| ==> SupportedStep(nodes[i])
    ensures steps.Some? ==> steps.value == Map(nodes, StepOf)
  {
    hide TrimSpace, ValidKeyword;
    var read: seq<Step> := [];
    for i := 0 to |nodes|
      invariant |read| == i && forall k :: 0 <= k < i ==> SupportedStep(nodes[k]) && read[k] == StepOf(nodes[k])
    {
      var keyword := TrimSpace(nodes[i].keyword);
      if nodes[i].hasArgument || !ValidKeyword(keyword) {
        assert !SupportedStep(nodes[i]);
        return None;
      }
      read := read + [Step(keyword, nodes[i].text, nodes[i].line)];
    }
    return Some(read);
  }

  method ReadScenario(child: ChildNode, featureID: GoString) returns (scenario: Option<Scenario>)
    ensures scenario.Some? <==> SupportedChild(child)
    ensures scenario.Some? ==> scenario.value == ScenarioIn(featureID)(child)
  {
    hide TagsOf, TrimSpace, IsID, SupportedStep;
    if child.OtherChild? {
      return None;
    }
    var node := child.scenario;
    if node.keyword != "Scenario" || node.hasExamples || node.steps == [] {
      return None;
    }
    var tags := ReadTags(node.tags, false);
    if tags.None? || !IsID(SCENARIO_ID, tags.value.id) {
      return None;
    }
    var steps := ReadSteps(node.steps);
    if steps.None? || steps.value[0].keyword != "Given" {
      return None;
    }
    var hasWhen, hasThen := false, false;
    for i := 0 to |node.steps|
      invariant hasWhen == HasKeyword(node.steps, i, "When") && hasThen == HasKeyword(node.steps, i, "Then")
    {
      hasWhen := hasWhen || steps.value[i].keyword == "When";
      hasThen := hasThen || steps.value[i].keyword == "Then";
    }
    if !hasWhen || !hasThen {
      return None;
    }
    return Some(Scenario(tags.value.id, featureID, node.name, node.description, node.line, steps.value));
  }

  // ---------------------------------------------------------------- documents

  /** The table of parsed scenarios holds exactly these, under their ids. */
  ghost predicate Holds(parsed: map<GoString, Scenario>, list: seq<Scenario>) {
    && DistinctBy(list, IDOfScenario) && |parsed| == |list|
    && (forall sc :: sc in list ==> sc.id in parsed && parsed[sc.id] == sc)
    && (forall id :: id in parsed ==> parsed[id].id == id && parsed[id] in list)
  }

  lemma HoldsOneMore(parsed: map<GoString, Scenario>, list: seq<Scenario>, sc: Scenario)
    requires Holds(parsed, list)
    ensures sc.id !in parsed ==> Holds(parsed[sc.id := sc], list + [sc])
    ensures sc.id in parsed ==> !DistinctBy(list + [sc], IDOfScenario)
  {
    if sc.id in parsed {
      var i :| 0 <= i < |list| && list[i] == parsed[sc.id];
      assert IDOfScenario((list + [sc])[i]) == IDOfScenario((list + [sc])[|list|]);
    } else {
      assert parsed[sc.id := sc].Keys == parsed.Keys + {sc.id};
    }
  }

  lemma PrefixDistinct<T, K>(a: seq<T>, b: seq<T>, key: T -> K)
    requires !DistinctBy(a, key)
    ensures !DistinctBy(a + b, key)
  {
    DistinctByConcat(a, b, key);
  }

  /** The scenarios of a feature document, added to the table and the entries. */
  method ReadChildren(lib: Library, d: Document, children: seq<ChildNode>, ghost before: seq<Scenario>,
                      table: map<GoString, Scenario>, found: seq<Entry>)
    returns (ok: bool, parsed: map<GoString, Scenario>, entries: seq<Entry>)
    requires Holds(table, before)
    ensures ok <==> (forall i :: 0 <= i < |children| ==> SupportedChild(children[i]))
                    && DistinctBy(before + Map(children, ScenarioIn(d.id)), IDOfScenario)
    ensures ok ==> Holds(parsed, before + Map(children, ScenarioIn(d.id)))
    ensures ok ==> entries == found + Map(Map(children, ScenarioIn(d.id)), ScenarioEntryIn(lib, d))
  {
    hide SupportedChild, ScenarioIn, ScenarioEntry, Holds, Join;
    parsed, entries := table, found;
    ghost var all := Map(children, ScenarioIn(d.id));
    ghost var mapped := Map(all, ScenarioEntryIn(lib, d));
    assert before + all[..0] == before && found + mapped[..0] == found;
    for i := 0 to |children|
      invariant forall k :: 0 <= k < i ==> SupportedChild(children[k])
      invariant Holds(parsed, before + all[..i]) && entries == found + mapped[..i]
    {
      var scenario := ReadScenario(children[i], d.id);
      if scenario.None? {
        return false, parsed, entries;
      }
      var sc := scenario.value;
      HoldsOneMore(parsed, before + all[..i], sc);
      assert before + all[..i] + [sc] == before + all[..i + 1];
      if sc.id in parsed {
        PrefixDistinct(before + all[..i + 1], all[i + 1..], IDOfScenario);
        assert before + all[..i + 1] + all[i + 1..] == before + all;
        return false, parsed, entries;
      }
      parsed := parsed[sc.id := sc];
      assert mapped[..i + 1] == mapped[..i] + [ScenarioEntry(lib, d, sc)];
      entries := entries + [ScenarioEntry(lib, d, sc)];
    }
    assert all[..|children|] == all && mapped[..|children|] == mapped;
    HoldsIsDistinct(parsed, before + all);
    ok := true;
  }

  lemma HoldsIsDistinct(parsed: map<GoString, Scenario>, list: seq<Scenario>)
    requires Holds(parsed, list)
    ensures DistinctBy(list, IDOfScenario)
  {
  }

  method ReadFeature(lib: Library, d: Document, ghost before: seq<Scenario>, table: map<GoString, Scenario>, found: seq<Entry>)
    returns (ok: bool, parsed: map<GoString, Scenario>, entries: seq<Entry>)
    requires Holds(table, before) && d.kind == FeatureKind
    ensures ok <==> FeatureMatches(lib, d) && DistinctBy(before + ScenariosOf(lib, d), IDOfScenario)
    ensures ok ==> Holds(parsed, before + ScenariosOf(lib, d)) && entries == found + EntriesOf(lib, d)
  {
    hide SupportedChild, ScenarioIn, Holds, TagsOf, IsID, HasSuffix, ScenarioEntryIn, DistinctBy;
    parsed, entries := table, found;
    var document := lib.gherkin(d.content);
    if document.None? {
      return false, parsed, entries;
    }
    var f := document.value;
    if f.language != "en" || f.keyword != "Feature" || f.children == [] || !HasSuffix(d.path, ".feature") {
      return false, parsed, entries;
    }
    var tags := ReadTags(f.tags, true);
    if tags.None? || tags.value.id != d.id || !IsID(FEATURE_ID, tags.value.id) {
      return false, parsed, entries;
    }
    var refs := tags.value.refs;
    ok, parsed, entries := ReadChildren(lib, d.(conceptIDs := refs), f.children, before, parsed, entries);
    if !ok || d.title != f.name || d.description != f.description || d.conceptIDs != refs {
      return false, parsed, entries;
    }
    assert d.(conceptIDs := refs) == d;
    entries := entries + [DocumentEntry(d)];
  }

  method ReadDocument(lib: Library, d: Document, ghost before: seq<Scenario>, table: map<GoString, Scenario>, found: seq<Entry>)
    returns (ok: bool, parsed: map<GoString, Scenario>, entries: seq<Entry>)
    requires Holds(table, before)
    ensures ok <==> SourceMatches(lib, d) && DistinctBy(before + ScenariosOf(lib, d), IDOfScenario)
    ensures ok ==> Holds(parsed, before + ScenariosOf(lib, d)) && entries == found + EntriesOf(lib, d)
  {
    hide Holds, ValidEncoding, ValidPath, IsID, HasSuffix, FeatureMatches, DistinctBy;
    parsed, entries := table, found;
    if !ValidEncoding(lib, d.content) || lib.sha256(d.content) != d.contentHash || !ValidPath(d.path) {
      return false, parsed, entries;
    }
    match d.kind
    case ConceptKind =>
      var source := lib.concept(d.content);
      if source.None? || !IsID(CONCEPT_ID, d.id) || source.value.id != d.id || !HasSuffix(d.path, ".md") {
        return false, parsed, entries;
      }
      if d.title != source.value.title || d.description != "" || d.conceptIDs != source.value.refs {
        return false, parsed, entries;
      }
      NoScenarios(lib, d);
      HoldsIsDistinct(table, before);
      assert before + ScenariosOf(lib, d) == before;
      entries := entries + [DocumentEntry(d)];
      ok := true;
    case FeatureKind =>
      ok, parsed, entries := ReadFeature(lib, d, before, parsed, entries);
    case _ =>
      ok := false;
  }

  lemma NoScenarios(lib: Library, d: Document)
    requires d.kind != FeatureKind
    ensures ScenariosOf(lib, d) == [] && EntriesOf(lib, d) == [DocumentEntry(d)]
  {
    assert Map(ScenariosOf(lib, d), ScenarioEntryIn(lib, d)) == [];
  }

  // ---------------------------------------------------------------- the checks behind the documents

  /** The table of documents by id. */
  ghost predicate Indexes(docs: map<GoString, Document>, documents: seq<Document>) {
    && (forall d :: d in documents ==> d.id in docs && docs[d.id] == d)
    && (forall id :: id in docs ==> docs[id].id == id && docs[id] in documents)
  }

  method RefsAreResolved(docs: map<GoString, Document>, d: Document, ghost documents: seq<Document>) returns (ok: bool)
    requires Indexes(docs, documents)
    ensures ok <==> RefsResolve(documents, d)
  {
    var seen: set<GoString> := {};
    for i := 0 to |d.conceptIDs|
      invariant seen == Elements(d.conceptIDs[..i])
      invariant Distinct(d.conceptIDs[..i]) && forall k :: 0 <= k < i ==> ResolvedIn(documents, d, d.conceptIDs[k])
    {
      var id := d.conceptIDs[i];
      if id !in docs || docs[id].kind != ConceptKind || id in seen || id == d.id {
        if id in seen {
          var k :| 0 <= k < i && d.conceptIDs[..i][k] == id;
          assert d.conceptIDs[k] == d.conceptIDs[i];
        } else {
          assert !ResolvedIn(documents, d, id);
        }
        return false;
      }
      seen := seen + {id};
      assert d.conceptIDs[..i + 1] == d.conceptIDs[..i] + [id];
      assert docs[id] in documents;
    }
    assert d.conceptIDs[..|d.conceptIDs|] == d.conceptIDs;
    ok := true;
  }

  method ScenariosMatch(parsed: map<GoString, Scenario>, scenarios: seq<Scenario>, ghost list: seq<Scenario>) returns (ok: bool)
    requires Holds(parsed, list)
    ensures ok <==> DistinctBy(scenarios, IDOfScenario) && forall sc :: sc in scenarios ==> sc in list
  {
    var seen: set<GoString> := {};
    for i := 0 to |scenarios|
      invariant seen == Elements(Map(scenarios[..i], IDOfScenario))
      invariant DistinctBy(scenarios[..i], IDOfScenario) && forall k :: 0 <= k < i ==> scenarios[k] in list
    {
      var sc := scenarios[i];
      SeenOneMore(scenarios, i, IDOfScenario);
      if sc.id !in parsed || sc.id in seen || sc != parsed[sc.id] {
        assert sc in scenarios;
        return false;
      }
      seen := seen + {sc.id};
    }
    assert scenarios[..|scenarios|] == scenarios;
    ok := true;
  }

  /** Seeing one more key: it is new exactly when the list so far stays free of repetitions. */
  lemma SeenOneMore<T>(list: seq<T>, i: nat, key: T -> GoString)
    requires i < |list| && DistinctBy(list[..i], key)
    ensures Elements(Map(list[..i + 1], key)) == Elements(Map(list[..i], key)) + {key(list[i])}
    ensures key(list[i]) !in Elements(Map(list[..i], key)) ==> DistinctBy(list[..i + 1], key)
    ensures key(list[i]) in Elements(Map(list[..i], key)) ==> !DistinctBy(list, key)
  {
    var seen := Map(list[..i], key);
    assert Map(list[..i + 1], key) == seen + [key(list[i])];
    assert forall k :: 0 <= k < i ==> seen[k] == key(list[k]) && list[..i + 1][k] == list[k];
    if key(list[i]) in seen {
      var k :| 0 <= k < i && seen[k] == key(list[i]);
      assert key(list[k]) == key(list[i]);
    }
  }

  method CasePassesIn(r: Result, sc: Scenario) returns (ok: bool)
    requires r.scenarioID == sc.id
    ensures ok <==> CasePasses(r, sc)
  {
    if r.status != "passed" || |r.steps| != |sc.steps| {
      return false;
    }
    for i := 0 to |r.steps|
      invariant forall k :: 0 <= k < i ==> r.steps[k] == ResultStep(sc.steps[k].text, "passed")
    {
      if r.steps[i].status != "passed" || r.steps[i].text != sc.steps[i].text {
        return false;
      }
    }
    ok := true;
  }

  method CasesMatch(parsed: map<GoString, Scenario>, cases: seq<Result>, ghost list: seq<Scenario>) returns (ok: bool)
    requires Holds(parsed, list)
    ensures ok <==> DistinctBy(cases, IDOfResult) && forall r :: r in cases ==> CaseMatches(list, r)
  {
    hide CasePasses;
    var seen: set<GoString> := {};
    for i := 0 to |cases|
      invariant seen == Elements(Map(cases[..i], IDOfResult))
      invariant DistinctBy(cases[..i], IDOfResult) && forall k :: 0 <= k < i ==> CaseMatches(list, cases[k])
    {
      var r := cases[i];
      SeenOneMore(cases, i, IDOfResult);
      OnlyCandidate(parsed, list, r);
      assert r in cases;
      if r.scenarioID !in parsed || r.scenarioID in seen {
        return false;
      }
      var passes := CasePassesIn(r, parsed[r.scenarioID]);
      if !passes {
        return false;
      }
      seen := seen + {r.scenarioID};
    }
    assert cases[..|cases|] == cases;
    ok := true;
  }

  lemma OnlyCandidate(parsed: map<GoString, Scenario>, list: seq<Scenario>, r: Result)
    requires Holds(parsed, list)
    ensures CaseMatches(list, r) <==> r.scenarioID in parsed && CasePasses(r, parsed[r.scenarioID])
  {
  }

  // ---------------------------------------------------------------- Snapshot.Entries

  lemma RejectedDocument(lib: Library, documents: seq<Document>, i: nat)
    requires i < |documents|
    requires SourceMatches(lib, documents[i]) ==> !DistinctBy(Parsed(lib, documents[..i]) + ScenariosOf(lib, documents[i]), IDOfScenario)
    ensures !DocumentsAcceptable(lib, documents)
  {
    hide SourceMatches, ScenariosOf, DistinctBy, FlatMap;
    var d := documents[i];
    assert d in documents;
    assert documents[..i + 1] == documents[..i] + [d];
    FlatMapOneMore(documents[..i], d, ScenariosIn(lib));
    if SourceMatches(lib, d) {
      ParsedExtends(lib, documents, i + 1);
      var read, all := Parsed(lib, documents[..i + 1]), Parsed(lib, documents);
      assert all == read + all[|read|..];
      PrefixDistinct(read, all[|read|..], IDOfScenario);
    }
  }

  lemma {:induction false} ParsedExtends(lib: Library, documents: seq<Document>, n: nat)
    requires n <= |documents|
    ensures Parsed(lib, documents[..n]) <= Parsed(lib, documents)
  {
    hide ScenariosOf;
    if n < |documents| {
      var front := documents[..|documents| - 1];
      assert front[..n] == documents[..n];
      ParsedExtends(lib, front, n);
    } else {
      assert documents[..n] == documents;
    }
  }

  lemma DocumentsOneMore(lib: Library, documents: seq<Document>, i: nat)
    requires i < |documents|
    ensures Parsed(lib, documents[..i + 1]) == Parsed(lib, documents[..i]) + ScenariosOf(lib, documents[i])
    ensures FlatMap(documents[..i + 1], EntriesIn(lib)) == FlatMap(documents[..i], EntriesIn(lib)) + EntriesOf(lib, documents[i])
  {
    hide ScenariosOf, EntriesOf, FlatMap;
    assert documents[..i + 1] == documents[..i] + [documents[i]];
    FlatMapOneMore(documents[..i], documents[i], ScenariosIn(lib));
    FlatMapOneMore(documents[..i], documents[i], EntriesIn(lib));
  }

  method ReadDocuments(lib: Library, documents: seq<Document>)
    returns (ok: bool, docs: map<GoString, Document>, parsed: map<GoString, Scenario>, entries: seq<Entry>)
    ensures ok <==> DocumentsAcceptable(lib, documents)
    ensures ok ==> Indexes(docs, documents) && Holds(parsed, Parsed(lib, documents)) && entries == FlatMap(documents, EntriesIn(lib))
  {
    hide SourceMatches, ScenariosOf, EntriesOf, FlatMap, Holds, Unrepeated, Indexes, DistinctBy;
    docs, parsed, entries := map[], map[], [];
    var paths: set<GoString> := {};
    NothingRead(lib);
    NothingRepeated(documents);
    for i := 0 to |documents|
      invariant Unrepeated(docs, paths, documents[..i])
      invariant forall k :: 0 <= k < i ==> SourceMatches(lib, documents[k])
      invariant Holds(parsed, Parsed(lib, documents[..i])) && entries == FlatMap(documents[..i], EntriesIn(lib))
    {
      var d := documents[i];
      UnrepeatedOneMore(docs, paths, documents, i);
      if d.id in docs || d.path in paths {
        return false, docs, parsed, entries;
      }
      docs := docs[d.id := d];
      paths := paths + {d.path};
      ok, parsed, entries := ReadDocument(lib, d, Parsed(lib, documents[..i]), parsed, entries);
      if !ok {
        RejectedDocument(lib, documents, i);
        return;
      }
      DocumentsOneMore(lib, documents, i);
    }
    assert documents[..|documents|] == documents;
    HoldsIsDistinct(parsed, Parsed(lib, documents));
    UnrepeatedIsDistinct(docs, paths, documents);
    ok := true;
  }

  /** No id and no path occurs twice, and both tables know them all. */
  ghost predicate Unrepeated(docs: map<GoString, Document>, paths: set<GoString>, documents: seq<Document>) {
    && DistinctBy(documents, DocumentID) && DistinctBy(documents, DocumentPath)
    && docs.Keys == Elements(Map(documents, DocumentID)) && paths == Elements(Map(documents, DocumentPath))
    && Indexes(docs, documents)
  }

  lemma NothingRepeated(documents: seq<Document>)
    ensures Unrepeated(map[], {}, documents[..0])
  {
  }

  lemma UnrepeatedIsDistinct(docs: map<GoString, Document>, paths: set<GoString>, documents: seq<Document>)
    requires Unrepeated(docs, paths, documents)
    ensures DistinctBy(documents, DocumentID) && DistinctBy(documents, DocumentPath) && Indexes(docs, documents)
  {
  }

  lemma UnrepeatedOneMore(docs: map<GoString, Document>, paths: set<GoString>, documents: seq<Document>, i: nat)
    requires i < |documents| && Unrepeated(docs, paths, documents[..i])
    ensures var d := documents[i];
            if d.id in docs || d.path in paths then !DistinctBy(documents, DocumentID) || !DistinctBy(documents, DocumentPath)
            else Unrepeated(docs[d.id := d], paths + {d.path}, documents[..i + 1])
  {
    hide DistinctBy;
    var d := documents[i];
    SeenOneMore(documents, i, DocumentID);
    SeenOneMore(documents, i, DocumentPath);
    if d.id !in docs && d.path !in paths {
      IndexesOneMore(docs, documents, i);
    }
  }

  lemma IndexesOneMore(docs: map<GoString, Document>, documents: seq<Document>, i: nat)
    requires i < |documents| && Indexes(docs, documents[..i]) && documents[i].id !in docs
    ensures Indexes(docs[documents[i].id := documents[i]], documents[..i + 1])
  {
    assert documents[..i + 1] == documents[..i] + [documents[i]];
  }

  lemma NothingRead(lib: Library)
    ensures Holds(map[], Parsed(lib, [])) && FlatMap([], EntriesIn(lib)) == []
  {
  }

  /** `CatalogueHash`. */
  method HashCatalogue(lib: Library, documents: seq<Document>) returns (hash: GoString)
    ensures hash == CatalogueHash(lib, documents)
  {
    hide Sort, Listing;
    var sorted := Sort(documents, DocumentPath);
    var listing := "";
    assert sorted[..0] == [];
    assert Listing([]) == "" by {
      EmptyListing();
    }
    for i := 0 to |sorted|
      invariant listing == Listing(sorted[..i])
    {
      A.ListingOneMore(sorted[..i], sorted[i]);
      assert sorted[..i + 1] == sorted[..i] + [sorted[i]];
      listing := listing + (sorted[i].path + NUL + sorted[i].contentHash + "\n");
    }
    assert sorted[..|sorted|] == sorted;
    hash := lib.sha256(listing);
  }

  lemma EmptyListing()
    ensures Listing([]) == ""
  {
  }

  /** `Snapshot.Entries`: the catalogue of an acceptable snapshot, or nothing. */
  method Entries(lib: Library, s: Snapshot) returns (entries: Option<seq<Entry>>)
    ensures entries == if Acceptable(lib, s) then Some(CatalogueOf(lib, s)) else None
    ensures entries.Some? <==> A.Accepted(lib, s)
    ensures entries.Some? ==> WellFormed(entries.value) && SaysItsSources(lib, s.documents, entries.value)
  {
    A.AcceptedIff(lib, s);
    hide A.Accepted, WellFormed, SaysItsSources;
    hide DocumentsAcceptable, RefsResolve, CaseMatches, CatalogueHash, Holds, FlatMap, DistinctBy, Parsed, Sort;
    if s.documents == [] || s.scenarios == [] {
      return None;
    }
    var hash := HashCatalogue(lib, s.documents);
    if !SameSource(s) || hash != s.source.contentHash {
      return None;
    }
    var ok, docs, parsed, found := ReadDocuments(lib, s.documents);
    if !ok {
      return None;
    }
    for i := 0 to |s.documents|
      invariant forall k :: 0 <= k < i ==> RefsResolve(s.documents, s.documents[k])
    {
      var resolved := RefsAreResolved(docs, s.documents[i], s.documents);
      if !resolved {
        return None;
      }
    }
    ghost var list := Parsed(lib, s.documents);
    HoldsCounts(parsed, list);
    if |s.scenarios| != |parsed| || |s.verification.cases| != |parsed| {
      return None;
    }
    var scenarios := ScenariosMatch(parsed, s.scenarios, list);
    var cases := CasesMatch(parsed, s.verification.cases, list);
    if !scenarios || !cases {
      return None;
    }
    CatalogueIsWellFormed(lib, s);
    CatalogueSaysItsSources(lib, s);
    return Some(Sort(found, ExternalID));
  }

  lemma HoldsCounts(parsed: map<GoString, Scenario>, list: seq<Scenario>)
    requires Holds(parsed, list)
    ensures |parsed| == |list|
  {
  }
}
