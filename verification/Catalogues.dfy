/** What acceptance of a snapshot guarantees about its catalogue, whatever the order of its parts. */
module Catalogues {
  import opened GoStrings
  import opened Options
  import opened Collections
  import opened Snapshots

  // ---------------------------------------------------------------- where an entry comes from

  ghost predicate ComesFrom(lib: Library, d: Document, e: Entry) {
    e == DocumentEntry(d) || exists sc :: sc in ScenariosOf(lib, d) && e == ScenarioEntry(lib, d, sc)
  }

  lemma DocumentYields(lib: Library, d: Document, e: Entry)
    ensures e in EntriesIn(lib)(d) <==> ComesFrom(lib, d, e)
  {
    hide ScenariosOf, ScenarioEntry, DocumentEntry;
    var scenarios := ScenariosOf(lib, d);
    var mapped := Map(scenarios, ScenarioEntryIn(lib, d));
    assert EntriesIn(lib)(d) == mapped + [DocumentEntry(d)];
    if sc :| sc in scenarios && e == ScenarioEntry(lib, d, sc) {
      var i :| 0 <= i < |scenarios| && scenarios[i] == sc;
      assert mapped[i] == e;
    }
    if e in mapped {
      var i :| 0 <= i < |mapped| && mapped[i] == e;
      assert scenarios[i] in scenarios;
    }
    assert (mapped + [DocumentEntry(d)])[|mapped|] == DocumentEntry(d);
  }

  lemma EntrySources(lib: Library, documents: seq<Document>, e: Entry)
    ensures e in FlatMap(documents, EntriesIn(lib)) <==> exists d :: d in documents && ComesFrom(lib, d, e)
  {
    hide ComesFrom, FlatMap;
    InFlatMap(documents, EntriesIn(lib));
    forall d | d in documents
      ensures e in EntriesIn(lib)(d) <==> ComesFrom(lib, d, e)
    {
      DocumentYields(lib, d, e);
    }
  }

  lemma ParsedSources(lib: Library, documents: seq<Document>, sc: Scenario)
    ensures sc in Parsed(lib, documents) <==> exists d :: d in documents && sc in ScenariosOf(lib, d)
  {
    hide FlatMap, ScenariosOf;
    InFlatMap(documents, ScenariosIn(lib));
    if sc in Parsed(lib, documents) {
      var d :| d in documents && sc in ScenariosIn(lib)(d);
      assert sc in ScenariosOf(lib, d);
    }
    if d :| d in documents && sc in ScenariosOf(lib, d) {
      assert sc in ScenariosIn(lib)(d);
    }
  }

  /** A matching document's scenarios carry scenario ids and name it as their feature. */
  lemma ScenarioShape(lib: Library, d: Document, sc: Scenario)
    requires SourceMatches(lib, d) && sc in ScenariosOf(lib, d)
    ensures d.kind == FeatureKind && sc.featureID == d.id && IsID(SCENARIO_ID, sc.id)
    ensures sc.steps != [] && sc.steps[0].keyword == "Given"
  {
    hide ValidEncoding, ValidPath, IsID, TagsOf, SupportedStep, TrimSpace, HasSuffix, ConceptMatches, Index;
    var children := lib.gherkin(d.content).value.children;
    var i :| 0 <= i < |children| && ScenarioIn(d.id)(children[i]) == sc;
    assert SupportedChild(children[i]);
  }

  lemma DocumentShape(lib: Library, d: Document)
    requires SourceMatches(lib, d)
    ensures d.kind == ConceptKind ==> IsID(CONCEPT_ID, d.id)
    ensures d.kind == FeatureKind ==> IsID(FEATURE_ID, d.id)
    ensures d.kind == ConceptKind || d.kind == FeatureKind
  {
    hide ValidEncoding, ValidPath, IsID, SupportedFeature, HasSuffix;
  }

  /** The prefix of an id fixes the kind of its entry. */
  function KindOfID(id: GoString): Kind {
    if HasPrefix(id, CONCEPT_ID) then ConceptKind
    else if HasPrefix(id, FEATURE_ID) then FeatureKind
    else if HasPrefix(id, SCENARIO_ID) then ScenarioKind
    else UnknownKind
  }

  lemma PrefixesDiffer(id: GoString)
    ensures IsID(CONCEPT_ID, id) ==> KindOfID(id) == ConceptKind
    ensures IsID(FEATURE_ID, id) ==> KindOfID(id) == FeatureKind
    ensures IsID(SCENARIO_ID, id) ==> KindOfID(id) == ScenarioKind
  {
    assert HasPrefix(id, CONCEPT_ID) ==> id[4] == CONCEPT_ID[4] && id[..|CONCEPT_ID|][4] == 'C';
    assert HasPrefix(id, FEATURE_ID) ==> id[4] == FEATURE_ID[4] && id[..|FEATURE_ID|][4] == 'F';
    assert HasPrefix(id, SCENARIO_ID) ==> id[4] == SCENARIO_ID[4] && id[..|SCENARIO_ID|][4] == 'S';
  }

  lemma KindIsOfID(lib: Library, d: Document, e: Entry)
    requires SourceMatches(lib, d) && ComesFrom(lib, d, e)
    ensures e.kind == KindOfID(e.externalID) != UnknownKind
  {
    hide SourceMatches, IsID, KindOfID, ScenariosOf;
    DocumentShape(lib, d);
    PrefixesDiffer(e.externalID);
    if e != DocumentEntry(d) {
      var sc :| sc in ScenariosOf(lib, d) && e == ScenarioEntry(lib, d, sc);
      ScenarioShape(lib, d, sc);
    }
  }

  // ---------------------------------------------------------------- distinct entries

  lemma DistinctByConcat<T, K>(a: seq<T>, b: seq<T>, key: T -> K)
    ensures DistinctBy(a + b, key) <==> DistinctBy(a, key) && DistinctBy(b, key) && forall x, y | x in a && y in b :: key(x) != key(y)
  {
    if DistinctBy(a + b, key) {
      forall i, j | 0 <= i < j < |a|
        ensures key(a[i]) != key(a[j])
      {
        assert (a + b)[i] == a[i] && (a + b)[j] == a[j];
      }
      forall i, j | 0 <= i < j < |b|
        ensures key(b[i]) != key(b[j])
      {
        assert (a + b)[|a| + i] == b[i] && (a + b)[|a| + j] == b[j];
      }
      forall x, y | x in a && y in b
        ensures key(x) != key(y)
      {
        var i :| 0 <= i < |a| && a[i] == x;
        var j :| 0 <= j < |b| && b[j] == y;
        assert (a + b)[i] == x && (a + b)[|a| + j] == y;
      }
    }
  }

  lemma EntriesOfOneDocument(lib: Library, d: Document)
    requires SourceMatches(lib, d) && DistinctBy(ScenariosOf(lib, d), IDOfScenario)
    ensures DistinctBy(EntriesIn(lib)(d), ExternalID)
  {
    hide SourceMatches, ScenariosOf, IsID, KindOfID;
    var scenarios := ScenariosOf(lib, d);
    var mapped := Map(scenarios, ScenarioEntryIn(lib, d));
    assert EntriesIn(lib)(d) == mapped + [DocumentEntry(d)];
    forall i, j | 0 <= i < j < |mapped|
      ensures ExternalID(mapped[i]) != ExternalID(mapped[j])
    {
      assert IDOfScenario(scenarios[i]) != IDOfScenario(scenarios[j]);
    }
    forall x | x in mapped
      ensures x.externalID != d.id
    {
      var i :| 0 <= i < |mapped| && mapped[i] == x;
      ScenarioShape(lib, d, scenarios[i]);
      DocumentShape(lib, d);
      PrefixesDiffer(d.id);
      PrefixesDiffer(x.externalID);
    }
    DistinctByConcat(mapped, [DocumentEntry(d)], ExternalID);
  }

  lemma {:induction false} EntriesAreDistinct(lib: Library, documents: seq<Document>)
    requires DocumentsAcceptable(lib, documents)
    ensures DistinctBy(FlatMap(documents, EntriesIn(lib)), ExternalID)
  {
    hide SourceMatches, ScenariosOf, ComesFrom;
    if documents != [] {
      var n := |documents| - 1;
      var rest, d := documents[..n], documents[n];
      DistinctByConcat(Parsed(lib, rest), ScenariosIn(lib)(d), IDOfScenario);
      EntriesAreDistinct(lib, rest);
      EntriesOfOneDocument(lib, d);
      forall x, y | x in FlatMap(rest, EntriesIn(lib)) && y in EntriesIn(lib)(d)
        ensures x.externalID != y.externalID
      {
        EntrySources(lib, rest, x);
        DocumentYields(lib, d, y);
        var c :| c in rest && ComesFrom(lib, c, x);
        OtherDocumentsEntry(lib, rest, d, c, x, y);
      }
      DistinctByConcat(FlatMap(rest, EntriesIn(lib)), EntriesIn(lib)(d), ExternalID);
    }
  }

  lemma OtherDocumentsEntry(lib: Library, rest: seq<Document>, d: Document, c: Document, x: Entry, y: Entry)
    requires SourceMatches(lib, c) && SourceMatches(lib, d) && c in rest && c.id != d.id
    requires forall x, y | x in Parsed(lib, rest) && y in ScenariosOf(lib, d) :: IDOfScenario(x) != IDOfScenario(y)
    requires ComesFrom(lib, c, x) && ComesFrom(lib, d, y)
    ensures x.externalID != y.externalID
  {
    hide SourceMatches, ScenariosOf, KindOfID, Parsed;
    KindIsOfID(lib, c, x);
    KindIsOfID(lib, d, y);
    DocumentShape(lib, c);
    DocumentShape(lib, d);
    if x != DocumentEntry(c) && y != DocumentEntry(d) {
      var sc :| sc in ScenariosOf(lib, c) && x == ScenarioEntry(lib, c, sc);
      ParsedSources(lib, rest, sc);
      var tc :| tc in ScenariosOf(lib, d) && y == ScenarioEntry(lib, d, tc);
      assert IDOfScenario(sc) != IDOfScenario(tc);
    }
  }

  // ---------------------------------------------------------------- the catalogue is well formed

  lemma CatalogueIsIncreasing(lib: Library, s: Snapshot)
    requires Acceptable(lib, s)
    ensures Increasing(CatalogueOf(lib, s), ExternalID)
    ensures Elements(CatalogueOf(lib, s)) == Elements(FlatMap(s.documents, EntriesIn(lib)))
  {
    hide FlatMap, SourceMatches, RefsResolve, ScenariosAcceptable, Sort, Parsed;
    EntriesAreDistinct(lib, s.documents);
    SortIsIncreasing(FlatMap(s.documents, EntriesIn(lib)), ExternalID);
  }

  lemma InCatalogue(lib: Library, s: Snapshot, e: Entry)
    requires Acceptable(lib, s)
    ensures e in CatalogueOf(lib, s) <==> exists d :: d in s.documents && ComesFrom(lib, d, e)
  {
    hide Acceptable, FlatMap, ComesFrom, CatalogueOf;
    CatalogueIsIncreasing(lib, s);
    EntrySources(lib, s.documents, e);
    assert e in CatalogueOf(lib, s) <==> e in Elements(CatalogueOf(lib, s));
    assert e in FlatMap(s.documents, EntriesIn(lib)) <==> e in Elements(FlatMap(s.documents, EntriesIn(lib)));
  }

  ghost predicate HasParent(catalogue: seq<Entry>, e: Entry) {
    exists f :: f in catalogue && f.kind == FeatureKind && f.externalID == e.parentID
  }

  ghost predicate HasConcept(catalogue: seq<Entry>, id: GoString) {
    exists c :: c in catalogue && c.kind == ConceptKind && c.externalID == id
  }

  /** What a reader of an accepted catalogue may rely on. */
  ghost predicate WellFormed(catalogue: seq<Entry>) {
    && Increasing(catalogue, ExternalID)
    && (forall e :: e in catalogue ==> e.kind == KindOfID(e.externalID) != UnknownKind)
    && (forall e :: e in catalogue && e.kind == ScenarioKind ==> HasParent(catalogue, e))
    && (forall e :: e in catalogue && e.kind != ScenarioKind ==> e.parentID == "")
    && (forall e, id :: e in catalogue && id in e.conceptIDs ==> HasConcept(catalogue, id))
  }

  lemma ScenarioHasParent(lib: Library, s: Snapshot, e: Entry)
    requires Acceptable(lib, s) && e in CatalogueOf(lib, s)
    ensures e.kind == KindOfID(e.externalID) != UnknownKind
    ensures if e.kind == ScenarioKind then HasParent(CatalogueOf(lib, s), e) else e.parentID == ""
  {
    hide CatalogueOf, SourceMatches, ScenariosOf, KindOfID, RefsResolve, ScenariosAcceptable, CatalogueHash, SameSource;
    InCatalogue(lib, s, e);
    var d :| d in s.documents && ComesFrom(lib, d, e);
    KindIsOfID(lib, d, e);
    DocumentShape(lib, d);
    if e != DocumentEntry(d) {
      var sc :| sc in ScenariosOf(lib, d) && e == ScenarioEntry(lib, d, sc);
      ScenarioShape(lib, d, sc);
      InCatalogue(lib, s, DocumentEntry(d));
      assert ComesFrom(lib, d, DocumentEntry(d));
      assert DocumentEntry(d) in CatalogueOf(lib, s);
    }
  }

  lemma ConceptsAreListed(lib: Library, s: Snapshot, e: Entry, id: GoString)
    requires Acceptable(lib, s) && e in CatalogueOf(lib, s) && id in e.conceptIDs
    ensures HasConcept(CatalogueOf(lib, s), id)
  {
    hide CatalogueOf, SourceMatches, ScenariosOf, ScenariosAcceptable, CatalogueHash, SameSource, DocumentsAcceptable;
    InCatalogue(lib, s, e);
    var d :| d in s.documents && ComesFrom(lib, d, e);
    assert RefsResolve(s.documents, d) && id in d.conceptIDs;
    var c :| c in s.documents && c.id == id && c.kind == ConceptKind;
    InCatalogue(lib, s, DocumentEntry(c));
    assert ComesFrom(lib, c, DocumentEntry(c));
    assert DocumentEntry(c) in CatalogueOf(lib, s);
  }

  /** The entries of an accepted snapshot are strictly ordered by id, every scenario belongs to a
      listed feature and every referenced concept is listed. */
  lemma CatalogueIsWellFormed(lib: Library, s: Snapshot)
    requires Acceptable(lib, s)
    ensures WellFormed(CatalogueOf(lib, s))
  {
    hide Acceptable, CatalogueOf, HasParent, HasConcept, Increasing, KindOfID;
    CatalogueIsIncreasing(lib, s);
    forall e | e in CatalogueOf(lib, s)
      ensures e.kind == KindOfID(e.externalID) != UnknownKind
      ensures if e.kind == ScenarioKind then HasParent(CatalogueOf(lib, s), e) else e.parentID == ""
    {
      ScenarioHasParent(lib, s, e);
    }
    forall e, id | e in CatalogueOf(lib, s) && id in e.conceptIDs
      ensures HasConcept(CatalogueOf(lib, s), id)
    {
      ConceptsAreListed(lib, s, e, id);
    }
  }

  // ---------------------------------------------------------------- one scenario, one entry, one case

  /** A list without repetitions inside a list no longer than itself covers it. */
  lemma ListOnto<T>(s: seq<T>, t: seq<T>)
    requires Distinct(s) && |s| == |t| && forall x :: x in s ==> x in t
    ensures Elements(s) == Elements(t) && Distinct(t)
  {
    ElementsSize(s);
    ElementsSize(t);
    SubsetSize(Elements(s), Elements(t));
  }

  lemma ScenariosCoverSources(parsed: seq<Scenario>, scenarios: seq<Scenario>, cases: seq<Result>, sc: Scenario)
    requires ScenariosAcceptable(parsed, scenarios, cases) && sc in parsed
    ensures sc in scenarios
  {
    hide CaseMatches;
    ListOnto(scenarios, parsed);
    assert sc in Elements(parsed);
  }

  lemma CasesCoverSources(parsed: seq<Scenario>, scenarios: seq<Scenario>, cases: seq<Result>, sc: Scenario)
    requires ScenariosAcceptable(parsed, scenarios, cases) && DistinctBy(parsed, IDOfScenario) && sc in parsed
    ensures exists r :: r in cases && CasePasses(r, sc)
  {
    hide CasePasses;
    var ids, sources := Map(cases, IDOfResult), Map(parsed, IDOfScenario);
    forall x | x in ids
      ensures x in sources
    {
      var i :| 0 <= i < |cases| && IDOfResult(cases[i]) == x;
      CaseNamesSource(parsed, cases[i]);
    }
    ListOnto(ids, sources);
    var k :| 0 <= k < |parsed| && parsed[k] == sc;
    assert sources[k] in Elements(sources);
    var i :| 0 <= i < |ids| && ids[i] == sc.id;
    assert cases[i] in cases;
    CaseIsOf(parsed, cases[i], sc);
  }

  lemma CaseNamesSource(parsed: seq<Scenario>, r: Result)
    requires CaseMatches(parsed, r)
    ensures r.scenarioID in Map(parsed, IDOfScenario)
  {
    var sc :| sc in parsed && CasePasses(r, sc);
    var k :| 0 <= k < |parsed| && parsed[k] == sc;
    assert Map(parsed, IDOfScenario)[k] == r.scenarioID;
  }

  lemma CaseIsOf(parsed: seq<Scenario>, r: Result, sc: Scenario)
    requires CaseMatches(parsed, r) && DistinctBy(parsed, IDOfScenario) && sc in parsed && sc.id == r.scenarioID
    ensures CasePasses(r, sc)
  {
    var tc :| tc in parsed && CasePasses(r, tc);
    var i :| 0 <= i < |parsed| && parsed[i] == sc;
    var j :| 0 <= j < |parsed| && parsed[j] == tc;
    assert IDOfScenario(parsed[i]) == IDOfScenario(parsed[j]);
  }

  predicate EntryFor(e: Entry, sc: Scenario) {
    && e.kind == ScenarioKind && e.externalID == sc.id && e.parentID == sc.featureID && e.title == sc.name
    && e.body == sc.description && e.steps == sc.steps
  }

  ghost predicate Executed(s: Snapshot, e: Entry) {
    exists sc, r :: sc in s.scenarios && EntryFor(e, sc) && r in s.verification.cases && CasePasses(r, sc)
  }

  lemma ScenarioIsExecuted(lib: Library, s: Snapshot, e: Entry)
    requires Acceptable(lib, s) && e in CatalogueOf(lib, s) && e.kind == ScenarioKind
    ensures Executed(s, e)
  {
    hide SourceMatches, CatalogueOf, Parsed, ScenariosOf, CasePasses, ScenariosAcceptable, CatalogueHash, RefsResolve;
    InCatalogue(lib, s, e);
    var d :| d in s.documents && ComesFrom(lib, d, e);
    DocumentShape(lib, d);
    var sc :| sc in ScenariosOf(lib, d) && e == ScenarioEntry(lib, d, sc);
    ScenarioShape(lib, d, sc);
    ParsedSources(lib, s.documents, sc);
    ScenariosCoverSources(Parsed(lib, s.documents), s.scenarios, s.verification.cases, sc);
    CasesCoverSources(Parsed(lib, s.documents), s.scenarios, s.verification.cases, sc);
  }

  lemma ScenarioIsListed(lib: Library, s: Snapshot, sc: Scenario)
    requires Acceptable(lib, s) && sc in Parsed(lib, s.documents)
    ensures exists e :: e in CatalogueOf(lib, s) && EntryFor(e, sc)
  {
    hide SourceMatches, CatalogueOf, Parsed, ScenariosOf, ScenariosAcceptable, CatalogueHash, RefsResolve;
    ParsedSources(lib, s.documents, sc);
    var d :| d in s.documents && sc in ScenariosOf(lib, d);
    ScenarioShape(lib, d, sc);
    var e := ScenarioEntry(lib, d, sc);
    InCatalogue(lib, s, e);
    assert ComesFrom(lib, d, e);
    assert EntryFor(e, sc);
  }

  /** Scenario entries, wire scenarios and verification cases stand in bijection: the ids in each
      list are distinct, every entry has its scenario and a passing case with the same step texts,
      and every scenario and every case has its entry. */
  lemma EveryScenarioIsExecutedOnce(lib: Library, s: Snapshot)
    requires Acceptable(lib, s)
    ensures DistinctBy(s.scenarios, IDOfScenario) && DistinctBy(s.verification.cases, IDOfResult)
    ensures forall e :: e in CatalogueOf(lib, s) && e.kind == ScenarioKind ==> Executed(s, e)
    ensures forall sc :: sc in s.scenarios ==> exists e :: e in CatalogueOf(lib, s) && EntryFor(e, sc)
    ensures forall r :: r in s.verification.cases ==>
      exists e :: e in CatalogueOf(lib, s) && e.kind == ScenarioKind && e.externalID == r.scenarioID
  {
    hide CatalogueOf, Parsed, Executed, CatalogueHash, DocumentsAcceptable, RefsResolve;
    forall e | e in CatalogueOf(lib, s) && e.kind == ScenarioKind
      ensures Executed(s, e)
    {
      ScenarioIsExecuted(lib, s, e);
    }
    forall sc | sc in s.scenarios
      ensures exists e :: e in CatalogueOf(lib, s) && EntryFor(e, sc)
    {
      ScenarioIsListed(lib, s, sc);
    }
    forall r | r in s.verification.cases
      ensures exists e :: e in CatalogueOf(lib, s) && e.kind == ScenarioKind && e.externalID == r.scenarioID
    {
      var sc :| sc in Parsed(lib, s.documents) && CasePasses(r, sc);
      ScenarioIsListed(lib, s, sc);
    }
  }

  // ---------------------------------------------------------------- what an entry says

  /** An entry says what the parsed source of its document says: a concept's body is its whole source,
      a feature's its description. */
  predicate SaysDocument(lib: Library, d: Document, e: Entry) {
    && e.externalID == d.id && e.kind == d.kind && e.parentID == "" && e.steps == []
    && e.path == d.path && e.sourceContent == d.content && e.conceptIDs == d.conceptIDs
    && e.documentHash == lib.sha256(d.content) && e.businessHash == lib.sha256(d.content)
    && match d.kind
       case ConceptKind =>
         lib.concept(d.content) == Some(ConceptNode(e.externalID, e.title, e.conceptIDs)) && e.body == d.content
       case FeatureKind =>
         lib.gherkin(d.content).Some? && e.title == lib.gherkin(d.content).value.name
         && e.body == lib.gherkin(d.content).value.description
       case _ => false
  }

  predicate SaysStep(node: StepNode, step: Step) {
    step.keyword == TrimSpace(node.keyword) && step.text == node.text && step.line == node.line
  }

  /** An entry says what a scenario in the parsed source of its feature says. */
  ghost predicate SaysScenario(lib: Library, d: Document, node: ScenarioNode, e: Entry) {
    && e.kind == ScenarioKind && e.parentID == d.id && e.title == node.name && e.body == node.description
    && "@id:" + e.externalID in node.tags
    && |e.steps| == |node.steps| && (forall i :: 0 <= i < |e.steps| ==> SaysStep(node.steps[i], e.steps[i]))
    && e.path == d.path && e.sourceContent == d.content && e.conceptIDs == d.conceptIDs && e.documentHash == lib.sha256(d.content)
  }

  ghost predicate IsScenarioOf(lib: Library, d: Document, node: ScenarioNode) {
    d.kind == FeatureKind && lib.gherkin(d.content).Some? && ScenarioChild(node) in lib.gherkin(d.content).value.children
  }

  /** Every document and every scenario of a feature has exactly one entry, which says what its source
      says, and there are no other entries. */
  ghost predicate SaysItsSources(lib: Library, documents: seq<Document>, entries: seq<Entry>) {
    && (forall i, j :: 0 <= i < j < |entries| ==> entries[i].externalID != entries[j].externalID)
    && (forall d :: d in documents ==> exists e :: e in entries && SaysDocument(lib, d, e))
    && (forall d, node | d in documents && IsScenarioOf(lib, d, node) :: exists e :: e in entries && SaysScenario(lib, d, node, e))
    && (forall e :: e in entries ==>
          (exists d :: d in documents && SaysDocument(lib, d, e))
          || (exists d, node :: d in documents && IsScenarioOf(lib, d, node) && SaysScenario(lib, d, node, e)))
  }

  lemma DocumentIsSaid(lib: Library, d: Document)
    requires SourceMatches(lib, d)
    ensures SaysDocument(lib, d, DocumentEntry(d))
  {
    hide ValidEncoding, ValidPath, IsID, SupportedFeature, HasSuffix;
  }

  lemma {:induction false} IDIsTagged(list: seq<GoString>, feature: bool)
    requires TagsRead(list, feature).Some? && TagsRead(list, feature).value.id != ""
    ensures "@id:" + TagsRead(list, feature).value.id in list
  {
    if list != [] {
      var n := |list| - 1;
      var before := TagsRead(list[..n], feature).value;
      if before.id != "" {
        IDIsTagged(list[..n], feature);
        assert list == list[..n] + [list[n]];
      } else {
        assert list[n] == list[n][..|ID_TAG|] + list[n][|ID_TAG|..];
      }
    }
  }

  lemma ScenarioIsSaid(lib: Library, d: Document, node: ScenarioNode)
    requires SourceMatches(lib, d) && IsScenarioOf(lib, d, node)
    ensures SaysScenario(lib, d, node, ScenarioEntry(lib, d, ScenarioOf(node, d.id)))
    ensures ScenarioOf(node, d.id) in ScenariosOf(lib, d)
  {
    hide ValidEncoding, ValidPath, IsID, HasSuffix, TrimSpace, BusinessFields, TagsRead;
    var children := lib.gherkin(d.content).value.children;
    var i :| 0 <= i < |children| && children[i] == ScenarioChild(node);
    assert SupportedChild(children[i]);
    IDIsTagged(node.tags, false);
    assert ScenariosOf(lib, d)[i] == ScenarioOf(node, d.id);
  }

  lemma ScenarioHasNode(lib: Library, d: Document, sc: Scenario) returns (node: ScenarioNode)
    requires SourceMatches(lib, d) && sc in ScenariosOf(lib, d)
    ensures IsScenarioOf(lib, d, node) && sc == ScenarioOf(node, d.id)
  {
    hide ValidEncoding, ValidPath, IsID, HasSuffix, TagsOf, SupportedScenario, ScenarioOf, ConceptMatches;
    var children := lib.gherkin(d.content).value.children;
    var i :| 0 <= i < |children| && ScenarioIn(d.id)(children[i]) == sc;
    assert SupportedChild(children[i]);
    node := children[i].scenario;
  }

  lemma EntryIsSaid(lib: Library, d: Document, e: Entry)
    requires SourceMatches(lib, d) && ComesFrom(lib, d, e)
    ensures SaysDocument(lib, d, e) || exists node :: IsScenarioOf(lib, d, node) && SaysScenario(lib, d, node, e)
  {
    hide SourceMatches, SaysDocument, SaysScenario, IsScenarioOf, ScenariosOf, DocumentEntry, ScenarioEntry, ScenarioOf;
    if e == DocumentEntry(d) {
      DocumentIsSaid(lib, d);
    } else {
      var sc :| sc in ScenariosOf(lib, d) && e == ScenarioEntry(lib, d, sc);
      var node := ScenarioHasNode(lib, d, sc);
      ScenarioIsSaid(lib, d, node);
    }
  }

  lemma DocumentHasEntries(lib: Library, s: Snapshot, d: Document)
    requires Acceptable(lib, s) && d in s.documents
    ensures exists e :: e in CatalogueOf(lib, s) && SaysDocument(lib, d, e)
    ensures forall node | IsScenarioOf(lib, d, node) :: exists e :: e in CatalogueOf(lib, s) && SaysScenario(lib, d, node, e)
  {
    hide CatalogueOf, SourceMatches, SaysDocument, SaysScenario, IsScenarioOf, DocumentEntry, ScenarioEntry, ScenariosOf, ScenarioOf;
    hide CatalogueHash, RefsResolve, ScenariosAcceptable, SameSource, Parsed;
    DocumentIsSaid(lib, d);
    InCatalogue(lib, s, DocumentEntry(d));
    assert ComesFrom(lib, d, DocumentEntry(d));
    forall node | IsScenarioOf(lib, d, node)
      ensures exists e :: e in CatalogueOf(lib, s) && SaysScenario(lib, d, node, e)
    {
      ScenarioIsSaid(lib, d, node);
      var e := ScenarioEntry(lib, d, ScenarioOf(node, d.id));
      InCatalogue(lib, s, e);
      assert ComesFrom(lib, d, e);
    }
  }

  /** The catalogue of an accepted snapshot says what the sources of its documents say. */
  lemma CatalogueSaysItsSources(lib: Library, s: Snapshot)
    requires Acceptable(lib, s)
    ensures SaysItsSources(lib, s.documents, CatalogueOf(lib, s))
  {
    hide CatalogueOf, SourceMatches, SaysDocument, SaysScenario, IsScenarioOf, ComesFrom;
    hide CatalogueHash, RefsResolve, ScenariosAcceptable, SameSource, Parsed;
    CatalogueIsIncreasing(lib, s);
    var entries := CatalogueOf(lib, s);
    IncreasingIsDistinct(entries, ExternalID);
    assert forall i, j | 0 <= i < j < |entries| :: ExternalID(entries[i]) != ExternalID(entries[j]);
    forall d | d in s.documents
      ensures exists e :: e in entries && SaysDocument(lib, d, e)
      ensures forall node | IsScenarioOf(lib, d, node) :: exists e :: e in entries && SaysScenario(lib, d, node, e)
    {
      DocumentHasEntries(lib, s, d);
    }
    forall e | e in entries
      ensures (exists d :: d in s.documents && SaysDocument(lib, d, e))
              || (exists d, node :: d in s.documents && IsScenarioOf(lib, d, node) && SaysScenario(lib, d, node, e))
    {
      InCatalogue(lib, s, e);
      var d :| d in s.documents && ComesFrom(lib, d, e);
      EntryIsSaid(lib, d, e);
    }
  }

  // ---------------------------------------------------------------- order does not matter

  /** The same snapshot with documents, scenarios and cases in some other order. */
  ghost predicate Reordered(s: Snapshot, t: Snapshot) {
    && multiset(s.documents) == multiset(t.documents) && multiset(s.scenarios) == multiset(t.scenarios)
    && multiset(s.verification.cases) == multiset(t.verification.cases)
    && t == s.(documents := t.documents, scenarios := t.scenarios,
               verification := s.verification.(cases := t.verification.cases))
  }

  lemma SameMembers<T>(s: seq<T>, t: seq<T>)
    requires multiset(s) == multiset(t)
    ensures |s| == |t| && forall x :: x in s <==> x in t
  {
    PermutedElements(s, t);
    assert forall x :: x in s <==> x in Elements(s);
    assert forall x :: x in t <==> x in Elements(t);
  }

  lemma ReorderedDocuments(lib: Library, a: seq<Document>, b: seq<Document>)
    requires multiset(a) == multiset(b) && DocumentsAcceptable(lib, a)
    ensures DocumentsAcceptable(lib, b) && multiset(Parsed(lib, a)) == multiset(Parsed(lib, b))
    ensures CatalogueHash(lib, a) == CatalogueHash(lib, b)
  {
    hide SourceMatches, FlatMap, Sort, Listing;
    SameMembers(a, b);
    PermutedFlatMap(a, b, ScenariosIn(lib));
    PermutedDistinctBy(a, b, DocumentID);
    PermutedDistinctBy(a, b, DocumentPath);
    PermutedDistinctBy(Parsed(lib, a), Parsed(lib, b), IDOfScenario);
    SortIsOrderFree(a, b, DocumentPath);
  }

  lemma ReorderedScenarios(p: seq<Scenario>, q: seq<Scenario>, a: seq<Scenario>, b: seq<Scenario>, c: seq<Result>, d: seq<Result>)
    requires multiset(p) == multiset(q) && multiset(a) == multiset(b) && multiset(c) == multiset(d)
    requires ScenariosAcceptable(p, a, c)
    ensures ScenariosAcceptable(q, b, d)
  {
    hide CasePasses;
    SameMembers(p, q);
    SameMembers(a, b);
    SameMembers(c, d);
    PermutedDistinctBy(a, b, IDOfScenario);
    PermutedDistinctBy(c, d, IDOfResult);
  }

  lemma ReorderedRefs(a: seq<Document>, b: seq<Document>, d: Document)
    requires multiset(a) == multiset(b) && RefsResolve(a, d)
    ensures RefsResolve(b, d)
  {
    SameMembers(a, b);
  }

  /** Permuting documents, scenarios or cases changes neither whether a snapshot is accepted nor
      its content hash nor the resulting catalogue. */
  lemma CatalogueIsOrderFree(lib: Library, s: Snapshot, t: Snapshot)
    requires Reordered(s, t) && Acceptable(lib, s)
    ensures Acceptable(lib, t) && CatalogueOf(lib, t) == CatalogueOf(lib, s)
    ensures CatalogueHash(lib, s.documents) == CatalogueHash(lib, t.documents)
  {
    hide FlatMap, Sort, SourceMatches, RefsResolve, ScenariosAcceptable, CatalogueHash, Parsed;
    SameMembers(s.documents, t.documents);
    SameMembers(s.scenarios, t.scenarios);
    ReorderedDocuments(lib, s.documents, t.documents);
    ReorderedScenarios(Parsed(lib, s.documents), Parsed(lib, t.documents), s.scenarios, t.scenarios,
                       s.verification.cases, t.verification.cases);
    forall d | d in t.documents
      ensures RefsResolve(t.documents, d)
    {
      ReorderedRefs(s.documents, t.documents, d);
    }
    EntriesAreDistinct(lib, s.documents);
    PermutedFlatMap(s.documents, t.documents, EntriesIn(lib));
    SortIsOrderFree(FlatMap(s.documents, EntriesIn(lib)), FlatMap(t.documents, EntriesIn(lib)), ExternalID);
  }
}
