/** When a snapshot is accepted, read off the text of its fields and of its parsed sources. */
module AcceptedSources {
  import opened GoStrings
  import opened Options
  import opened Collections
  import opened Snapshots
  import opened Catalogues

  // ---------------------------------------------------------------- ids and paths

  predicate IsIDChar(c: char) {
    'A' <= c <= 'Z' || '0' <= c <= '9' || c == '-'
  }

  ghost predicate Named(prefix: GoString, id: GoString) {
    exists rest: GoString :: rest != "" && id == prefix + rest && forall i :: 0 <= i < |rest| ==> IsIDChar(rest[i])
  }

  lemma NamedIff(prefix: GoString, id: GoString)
    ensures IsID(prefix, id) <==> Named(prefix, id)
  {
    if IsID(prefix, id) {
      var rest := id[|prefix|..];
      assert id == id[..|prefix|] + rest;
      assert rest != "" && id == prefix + rest && forall i :: 0 <= i < |rest| ==> IsIDChar(rest[i]);
    }
    if Named(prefix, id) {
      var rest: GoString :| rest != "" && id == prefix + rest && forall i :: 0 <= i < |rest| ==> IsIDChar(rest[i]);
      forall i | |prefix| <= i < |id|
        ensures IsIDChar(id[i])
      {
        assert id[i] == rest[i - |prefix|];
      }
    }
  }

  ghost predicate EndsWith(s: GoString, suffix: GoString) {
    exists stem: GoString :: s == stem + suffix
  }

  lemma EndsWithIff(s: GoString, suffix: GoString)
    ensures HasSuffix(s, suffix) <==> EndsWith(s, suffix)
  {
    if HasSuffix(s, suffix) {
      assert s == s[..|s| - |suffix|] + suffix;
    }
  }

  /** The text between two slashes, or between a slash and an end of the path. */
  predicate IsSegment(path: GoString, a: nat, b: nat) {
    && a <= b <= |path| && (a == 0 || path[a - 1] == '/') && (b == |path| || path[b] == '/')
    && forall i :: a <= i < b ==> path[i] != '/'
  }

  /** No segment is empty, the directory itself or its parent. */
  ghost predicate CleanPath(path: GoString) {
    forall a: nat, b: nat :: IsSegment(path, a, b) ==> path[a..b] != "" && path[a..b] != "." && path[a..b] != ".."
  }

  lemma FirstSlash(s: GoString)
    ensures var i := Index(s, "/"); -1 <= i < |s| && (i >= 0 ==> s[i] == '/') && forall k :: 0 <= k < (if i < 0 then |s| else i) ==> s[k] != '/'
  {
    var i := Index(s, "/");
    assert i >= 0 ==> OccursAt(s, "/", i);
    forall k | 0 <= k < if i < 0 then |s| else i
      ensures s[k] != '/'
    {
      assert OccursAt(s, "/", k) <==> s[k] == '/';
    }
  }

  lemma SegmentInRest(path: GoString, slash: nat, a: nat, b: nat)
    requires slash < |path| && path[slash] == '/' && a <= b <= |path| - slash - 1
    ensures IsSegment(path[slash + 1..], a, b) <==> IsSegment(path, a + slash + 1, b + slash + 1)
    ensures path[slash + 1..][a..b] == path[a + slash + 1..b + slash + 1]
  {
    var rest := path[slash + 1..];
    assert forall i :: 0 <= i < |rest| ==> rest[i] == path[i + slash + 1];
    assert forall i :: slash + 1 <= i < |path| ==> path[i] == rest[i - slash - 1];
  }

  /** A segment lies wholly behind the first slash, or is all that stands before it. */
  lemma FirstSegment(path: GoString, a: nat, b: nat)
    requires IsSegment(path, a, b)
    ensures var slash := Index(path, "/"); if slash < 0 then a == 0 && b == |path| else if a > slash then path[slash] == '/' else a == 0 && b == slash
  {
    FirstSlash(path);
  }

  lemma SegmentsUnfold(path: GoString)
    ensures var slash := Index(path, "/");
            && slash < |path| && (slash >= 0 ==> path[slash] == '/')
            && Segments(path) == if slash < 0 then [path] else [path[..slash]] + Segments(path[slash + 1..])
    ensures var slash := Index(path, "/"); IsSegment(path, 0, if slash < 0 then |path| else slash)
  {
    FirstSlash(path);
  }

  lemma {:induction false} SegmentIsListed(path: GoString, a: nat, b: nat)
    requires a <= b <= |path| && IsSegment(path, a, b)
    ensures path[a..b] in Segments(path)
    decreases |path|
  {
    hide IsSegment, Segments, Index;
    FirstSegment(path, a, b);
    SegmentsUnfold(path);
    var slash := Index(path, "/");
    if slash >= 0 && a > slash {
      SegmentInRest(path, slash, a - slash - 1, b - slash - 1);
      SegmentIsListed(path[slash + 1..], a - slash - 1, b - slash - 1);
      InConcat([path[..slash]], Segments(path[slash + 1..]), path[a..b]);
    } else if slash >= 0 {
      assert Segments(path)[0] == path[a..b];
    } else {
      assert path[a..b] == path;
    }
  }

  lemma InConcat(list: seq<GoString>, rest: seq<GoString>, s: GoString)
    requires s in rest
    ensures s in list + rest
  {
  }

  lemma {:induction false} ListedIsSegment(path: GoString, segment: GoString) returns (a: nat, b: nat)
    requires segment in Segments(path)
    ensures a <= b <= |path| && IsSegment(path, a, b) && path[a..b] == segment
    decreases |path|
  {
    SegmentsUnfold(path);
    hide IsSegment, Segments;
    var slash := Index(path, "/");
    if slash < 0 {
      a, b := 0, |path|;
    } else if segment == path[..slash] {
      a, b := 0, slash;
    } else {
      var i, j := ListedIsSegment(path[slash + 1..], segment);
      SegmentInRest(path, slash, i, j);
      a, b := i + slash + 1, j + slash + 1;
    }
  }

  lemma SegmentIsWithin(path: GoString, a: nat, b: nat)
    requires IsSegment(path, a, b)
    ensures a <= b <= |path|
  {
  }

  lemma CleanPathIff(path: GoString)
    ensures ValidPath(path) <==> CleanPath(path)
  {
    hide IsSegment;
    if ValidPath(path) {
      forall a: nat, b: nat | IsSegment(path, a, b)
        ensures a <= b <= |path| && path[a..b] != "" && path[a..b] != "." && path[a..b] != ".."
      {
        SegmentIsWithin(path, a, b);
        SegmentIsListed(path, a, b);
      }
    }
    if CleanPath(path) {
      forall segment | segment in Segments(path)
        ensures segment !in ["..", ".", ""]
      {
        var a, b := ListedIsSegment(path, segment);
      }
    }
  }

  // ---------------------------------------------------------------- tags

  function RefIn(tag: GoString): seq<GoString> {
    if |tag| >= 9 && tag[..9] == "@concept:" then [tag[9..]] else []
  }

  predicate IsRefTag(tag: GoString, feature: bool) {
    feature && RefIn(tag) != []
  }

  /** The tag that names the id stands at `k`; before it an empty id may be given, after it none. */
  ghost predicate NamedAt(list: seq<GoString>, feature: bool, id: GoString, k: nat) {
    && k < |list| && list[k] == "@id:" + id
    && forall i :: 0 <= i < |list| && i != k ==> IsRefTag(list[i], feature) || (i < k && list[i] == "@id:")
  }

  /** The tags name exactly one id, and the concepts referred to, in their order; a feature refers to
      some, a scenario to none. */
  ghost predicate TagsSay(list: seq<GoString>, feature: bool, id: GoString, refs: seq<GoString>) {
    id != "" && (exists k :: NamedAt(list, feature, id, k)) && refs == FlatMap(list, RefIn) && (feature <==> refs != [])
  }

  ghost predicate Unnamed(list: seq<GoString>, feature: bool) {
    forall i :: 0 <= i < |list| ==> IsRefTag(list[i], feature) || list[i] == "@id:"
  }

  /** What the tags read so far amount to. */
  ghost predicate ReadAs(list: seq<GoString>, feature: bool, id: GoString) {
    if id == "" then Unnamed(list, feature) else exists k :: NamedAt(list, feature, id, k)
  }

  lemma TagKinds(tag: GoString)
    ensures HasPrefix(tag, ID_TAG) ==> RefIn(tag) == [] && tag == "@id:" + tag[|ID_TAG|..]
    ensures forall id: GoString :: tag == "@id:" + id ==> HasPrefix(tag, ID_TAG) && tag[|ID_TAG|..] == id
    ensures HasPrefix(tag, CONCEPT_TAG) <==> RefIn(tag) != []
    ensures HasPrefix(tag, CONCEPT_TAG) ==> RefIn(tag) == [tag[|CONCEPT_TAG|..]]
  {
    assert HasPrefix(tag, ID_TAG) ==> tag == tag[..4] + tag[4..] && tag[1] == 'i';
    assert HasPrefix(tag, CONCEPT_TAG) ==> tag[1] == tag[..9][1] == 'c';
    assert RefIn(tag) != [] ==> tag[1] == tag[..9][1] == 'c';
    forall id: GoString | tag == "@id:" + id
      ensures HasPrefix(tag, ID_TAG) && tag[|ID_TAG|..] == id
    {
    }
  }

  lemma NoTags(feature: bool, id: GoString)
    ensures ReadAs([], feature, id) <==> id == ""
  {
  }

  lemma OneMoreTag(list: seq<GoString>, tag: GoString, feature: bool, id: GoString)
    ensures ReadAs(list + [tag], feature, id) <==>
              (IsRefTag(tag, feature) && ReadAs(list, feature, id)) || (ReadAs(list, feature, "") && tag == "@id:" + id)
  {
    var more, n := list + [tag], |list|;
    assert more[n] == tag && forall i :: 0 <= i < n ==> more[i] == list[i];
    TagKinds(tag);
    if id != "" {
      forall k: nat | NamedAt(more, feature, id, k)
        ensures if k < n then NamedAt(list, feature, id, k) && IsRefTag(tag, feature) else Unnamed(list, feature) && tag == "@id:" + id
      {
      }
      forall k: nat | NamedAt(list, feature, id, k) && IsRefTag(tag, feature)
        ensures NamedAt(more, feature, id, k)
      {
      }
      if Unnamed(list, feature) && tag == "@id:" + id {
        assert NamedAt(more, feature, id, n);
      }
    }
  }

  lemma {:induction false} TagsReadIff(list: seq<GoString>, feature: bool, id: GoString)
    ensures (TagsRead(list, feature).Some? && TagsRead(list, feature).value.id == id) <==> ReadAs(list, feature, id)
    ensures TagsRead(list, feature).Some? ==> TagsRead(list, feature).value.refs == FlatMap(list, RefIn) && (!feature ==> FlatMap(list, RefIn) == [])
  {
    hide ReadAs, RefIn;
    if list == [] {
      NoTags(feature, id);
    } else {
      var n := |list| - 1;
      TagsReadIff(list[..n], feature, id);
      TagsReadIff(list[..n], feature, "");
      TagKinds(list[n]);
      OneMoreTag(list[..n], list[n], feature, id);
      assert list == list[..n] + [list[n]];
    }
  }

  lemma TagsIff(list: seq<GoString>, feature: bool, id: GoString, refs: seq<GoString>)
    ensures TagsOf(list, feature) == Some(Tags(id, refs)) <==> TagsSay(list, feature, id, refs)
  {
    TagsReadIff(list, feature, id);
  }

  // ---------------------------------------------------------------- one document

  /** A scenario without examples or step arguments, tagged with one scenario id, whose steps begin with
      `Given` and have a `When` and a `Then`. */
  ghost predicate IsScenario(node: ScenarioNode, id: GoString) {
    && node.keyword == "Scenario" && !node.hasExamples && TagsSay(node.tags, false, id, []) && Named("VOZ-SC-", id)
    && (forall step :: step in node.steps ==>
          !step.hasArgument && TrimSpace(step.keyword) in {"Given", "When", "Then", "And", "But"})
    && node.steps != [] && TrimSpace(node.steps[0].keyword) == "Given"
    && (exists step :: step in node.steps && TrimSpace(step.keyword) == "When")
    && (exists step :: step in node.steps && TrimSpace(step.keyword) == "Then")
  }

  ghost predicate IsFeature(f: FeatureNode, d: Document) {
    && f.language == "en" && f.keyword == "Feature" && f.children != []
    && (forall child :: child in f.children ==> child.ScenarioChild? && exists id :: IsScenario(child.scenario, id))
    && TagsSay(f.tags, true, d.id, d.conceptIDs) && Named("VOZ-FEAT-", d.id) && EndsWith(d.path, ".feature")
    && d.title == f.name && d.description == f.description
  }

  ghost predicate IsConcept(lib: Library, d: Document) {
    && lib.concept(d.content) == Some(ConceptNode(d.id, d.title, d.conceptIDs)) && d.description == ""
    && Named("VOZ-CON-", d.id) && EndsWith(d.path, ".md")
  }

  /** UTF-8 without a byte order mark, zero bytes or carriage returns. */
  ghost predicate IsText(lib: Library, content: GoString) {
    && lib.validUTF8(content) && (forall c :: c in content ==> c as int != 0 && c as int != 13)
    && !(|content| >= 3 && content[0] as int == 0xEF && content[1] as int == 0xBB && content[2] as int == 0xBF)
  }

  /** The fields of a document say what its hashed content, parsed, says. */
  ghost predicate IsSource(lib: Library, d: Document) {
    && IsText(lib, d.content) && d.contentHash == lib.sha256(d.content) && CleanPath(d.path)
    && ((d.kind == ConceptKind && IsConcept(lib, d))
        || (d.kind == FeatureKind && lib.gherkin(d.content).Some? && IsFeature(lib.gherkin(d.content).value, d)))
  }

  lemma IsScenarioIff(node: ScenarioNode, id: GoString)
    ensures IsScenario(node, id) <==> SupportedScenario(node) && ScenarioID(node) == id
  {
    hide TagsSay, TagsOf, Named, IsID, TrimSpace;
    NamedIff(SCENARIO_ID, id);
    TagsIff(node.tags, false, id, []);
    if TagsOf(node.tags, false).Some? {
      var tags := TagsOf(node.tags, false).value;
      TagsIff(node.tags, false, tags.id, tags.refs);
      NoRefs(node.tags, tags.id, tags.refs);
    }
  }

  lemma NoRefs(list: seq<GoString>, id: GoString, refs: seq<GoString>)
    requires TagsSay(list, false, id, refs)
    ensures refs == []
  {
  }

  lemma IsFeatureIff(f: FeatureNode, d: Document)
    ensures IsFeature(f, d) <==>
              && SupportedFeature(f) && IsID(FEATURE_ID, d.id) && HasSuffix(d.path, ".feature")
              && TagsOf(f.tags, true) == Some(Tags(d.id, d.conceptIDs)) && d.title == f.name && d.description == f.description
    ensures SupportedFeature(f) ==> TagsOf(f.tags, true).Some?
  {
    hide TagsSay, TagsOf, Named, IsID, IsScenario, SupportedScenario, EndsWith, HasSuffix, ScenarioID;
    NamedIff(FEATURE_ID, d.id);
    EndsWithIff(d.path, ".feature");
    TagsIff(f.tags, true, d.id, d.conceptIDs);
    forall child | child in f.children && child.ScenarioChild?
      ensures SupportedScenario(child.scenario) <==> exists id :: IsScenario(child.scenario, id)
    {
      IsScenarioIff(child.scenario, ScenarioID(child.scenario));
      if id :| IsScenario(child.scenario, id) {
        IsScenarioIff(child.scenario, id);
      }
    }
    assert (forall i :: 0 <= i < |f.children| ==> SupportedChild(f.children[i])) <==> forall child :: child in f.children ==> SupportedChild(child);
  }

  lemma IsTextIff(lib: Library, content: GoString)
    ensures ValidEncoding(lib, content) <==> IsText(lib, content)
  {
    assert HasPrefix(content, BYTE_ORDER_MARK) <==>
             |content| >= 3 && content[0] as int == 0xEF && content[1] as int == 0xBB && content[2] as int == 0xBF;
    assert forall i :: 0 <= i < |content| ==> content[i] in content;
    assert '\0' in content ==> !NulFree(content);
  }

  lemma IsSourceIff(lib: Library, d: Document)
    ensures SourceMatches(lib, d) <==> IsSource(lib, d)
  {
    hide ValidEncoding, IsText, ValidPath, CleanPath, IsFeature, SupportedFeature, TagsOf, Named, IsID, EndsWith, HasSuffix;
    IsTextIff(lib, d.content);
    CleanPathIff(d.path);
    NamedIff(CONCEPT_ID, d.id);
    EndsWithIff(d.path, ".md");
    if lib.gherkin(d.content).Some? {
      IsFeatureIff(lib.gherkin(d.content).value, d);
    }
  }

  // ---------------------------------------------------------------- the scenarios of a document

  ghost predicate SaysNode(d: Document, node: ScenarioNode, sc: Scenario) {
    && IsScenario(node, sc.id) && sc.featureID == d.id && sc.name == node.name && sc.description == node.description
    && sc.line == node.line && |sc.steps| == |node.steps| && forall i :: 0 <= i < |sc.steps| ==> SaysStep(node.steps[i], sc.steps[i])
  }

  /** The scenario is one that the document's content, parsed, holds. */
  ghost predicate IsRead(lib: Library, d: Document, sc: Scenario) {
    exists node :: IsScenarioOf(lib, d, node) && SaysNode(d, node, sc)
  }

  lemma SaysNodeIff(d: Document, node: ScenarioNode, sc: Scenario)
    requires SupportedScenario(node)
    ensures SaysNode(d, node, sc) <==> sc == ScenarioOf(node, d.id)
  {
    hide IsScenario, SupportedScenario, ScenarioID, TrimSpace;
    IsScenarioIff(node, sc.id);
    IsScenarioIff(node, ScenarioID(node));
    if SaysNode(d, node, sc) {
      assert sc.steps == Map(node.steps, StepOf);
    }
  }

  lemma IsReadIff(lib: Library, d: Document, sc: Scenario)
    requires SourceMatches(lib, d)
    ensures sc in ScenariosOf(lib, d) <==> IsRead(lib, d, sc)
  {
    hide ValidEncoding, ValidPath, IsID, HasSuffix, ConceptMatches, SaysNode, ScenarioOf, SupportedScenario, TagsOf;
    if sc in ScenariosOf(lib, d) {
      var node := ScenarioHasNode(lib, d, sc);
      ChildIsSupported(lib, d, node);
      SaysNodeIff(d, node, sc);
    }
    if IsRead(lib, d, sc) {
      var node :| IsScenarioOf(lib, d, node) && SaysNode(d, node, sc);
      ChildIsSupported(lib, d, node);
      SaysNodeIff(d, node, sc);
      var children := lib.gherkin(d.content).value.children;
      var i :| 0 <= i < |children| && children[i] == ScenarioChild(node);
      assert ScenariosOf(lib, d)[i] == sc;
    }
  }

  lemma ChildIsSupported(lib: Library, d: Document, node: ScenarioNode)
    requires SourceMatches(lib, d) && IsScenarioOf(lib, d, node)
    ensures SupportedScenario(node)
  {
    hide ValidEncoding, ValidPath, IsID, HasSuffix, ConceptMatches, SupportedScenario, TagsOf;
    var children := lib.gherkin(d.content).value.children;
    var i :| 0 <= i < |children| && children[i] == ScenarioChild(node);
    assert SupportedChild(children[i]);
  }

  ghost predicate ShareID(a: ChildNode, b: ChildNode) {
    a.ScenarioChild? && b.ScenarioChild? && exists id :: IsScenario(a.scenario, id) && IsScenario(b.scenario, id)
  }

  /** No two scenarios of the document have the same id. */
  ghost predicate NoIDTwice(lib: Library, d: Document) {
    d.kind == FeatureKind && lib.gherkin(d.content).Some? ==>
      var children := lib.gherkin(d.content).value.children;
      forall i, j :: 0 <= i < j < |children| ==> !ShareID(children[i], children[j])
  }

  lemma NoIDTwiceIff(lib: Library, d: Document)
    requires SourceMatches(lib, d)
    ensures NoIDTwice(lib, d) <==> DistinctBy(ScenariosOf(lib, d), IDOfScenario)
  {
    hide ValidEncoding, ValidPath, IsID, HasSuffix, ConceptMatches, SupportedScenario, TagsOf, IsScenario, ShareID, ScenarioID;
    if d.kind == FeatureKind {
      var children, read := lib.gherkin(d.content).value.children, ScenariosOf(lib, d);
      forall i, j | 0 <= i < j < |children|
        ensures ShareID(children[i], children[j]) <==> IDOfScenario(read[i]) == IDOfScenario(read[j])
      {
        assert SupportedChild(children[i]) && SupportedChild(children[j]);
        ShareIDIff(children[i].scenario, children[j].scenario);
      }
    }
  }

  lemma ShareIDIff(a: ScenarioNode, b: ScenarioNode)
    requires SupportedScenario(a) && SupportedScenario(b)
    ensures ShareID(ScenarioChild(a), ScenarioChild(b)) <==> ScenarioID(a) == ScenarioID(b)
  {
    hide IsScenario, SupportedScenario, ScenarioID;
    IsScenarioIff(a, ScenarioID(a));
    IsScenarioIff(b, ScenarioID(a));
    if ShareID(ScenarioChild(a), ScenarioChild(b)) {
      var id :| IsScenario(a, id) && IsScenario(b, id);
      IsScenarioIff(a, id);
      IsScenarioIff(b, id);
    }
  }

  // ---------------------------------------------------------------- the content hash

  function Line(d: Document): GoString {
    d.path + "\0" + d.contentHash + "\n"
  }

  ghost predicate ByPath(documents: seq<Document>, sorted: seq<Document>) {
    multiset(sorted) == multiset(documents) && forall i, j :: 0 <= i < j < |sorted| ==> Less(sorted[i].path, sorted[j].path)
  }

  /** The hash is that of the lines for the documents, in the order of their paths. */
  ghost predicate HashesTo(lib: Library, documents: seq<Document>, hash: GoString) {
    exists sorted :: ByPath(documents, sorted) && hash == lib.sha256(FlatMap(sorted, Line))
  }

  lemma {:induction false} ListingOneMore(documents: seq<Document>, d: Document)
    ensures Listing(documents + [d]) == Listing(documents) + Line(d)
  {
    if documents != [] {
      ListingOneMore(documents[1..], d);
      assert (documents + [d])[1..] == documents[1..] + [d];
    }
  }

  lemma {:induction false} ListingIsLines(documents: seq<Document>)
    ensures Listing(documents) == FlatMap(documents, Line)
  {
    if documents != [] {
      var n := |documents| - 1;
      ListingIsLines(documents[..n]);
      ListingOneMore(documents[..n], documents[n]);
      assert documents == documents[..n] + [documents[n]];
    }
  }

  lemma HashIff(lib: Library, documents: seq<Document>, hash: GoString)
    requires DistinctBy(documents, DocumentPath)
    ensures hash == CatalogueHash(lib, documents) <==> HashesTo(lib, documents, hash)
  {
    hide FlatMap, Sort, Listing;
    var sorted := Sort(documents, DocumentPath);
    SortSorts(documents, DocumentPath);
    SortIsIncreasing(documents, DocumentPath);
    ListingIsLines(sorted);
    assert ByPath(documents, sorted);
    forall other | ByPath(documents, other)
      ensures other == sorted
    {
      PermutedElements(documents, other);
      IncreasingIsUnique(sorted, other, DocumentPath);
    }
  }

  // ---------------------------------------------------------------- the whole snapshot

  /** The references of a document are different concepts of the snapshot other than itself. */
  ghost predicate RefersToConcepts(documents: seq<Document>, d: Document) {
    && (forall i, j :: 0 <= i < j < |d.conceptIDs| ==> d.conceptIDs[i] != d.conceptIDs[j])
    && forall id :: id in d.conceptIDs ==> id != d.id && exists c :: c in documents && c.kind == ConceptKind && c.id == id
  }

  ghost predicate DocumentsAccepted(lib: Library, documents: seq<Document>) {
    && (forall i, j :: 0 <= i < j < |documents| ==> documents[i].id != documents[j].id && documents[i].path != documents[j].path)
    && (forall d :: d in documents ==> IsSource(lib, d) && NoIDTwice(lib, d) && RefersToConcepts(documents, d))
  }

  ghost predicate SomewhereRead(lib: Library, documents: seq<Document>, sc: Scenario) {
    exists d :: d in documents && IsRead(lib, d, sc)
  }

  /** The scenarios have different ids and are exactly those of the documents' contents. */
  ghost predicate ScenariosAreRead(lib: Library, documents: seq<Document>, scenarios: seq<Scenario>) {
    && (forall i, j :: 0 <= i < j < |scenarios| ==> scenarios[i].id != scenarios[j].id)
    && forall sc :: sc in scenarios <==> SomewhereRead(lib, documents, sc)
  }

  predicate Passed(r: Result, sc: Scenario) {
    && r.scenarioID == sc.id && r.status == "passed" && |sc.steps| == |r.steps|
    && forall i :: 0 <= i < |sc.steps| ==> r.steps[i].text == sc.steps[i].text && r.steps[i].status == "passed"
  }

  /** Every scenario has exactly one case, which passed, and there are no other cases. */
  ghost predicate AllPassed(scenarios: seq<Scenario>, cases: seq<Result>) {
    && (forall i, j :: 0 <= i < j < |cases| ==> cases[i].scenarioID != cases[j].scenarioID)
    && (forall sc :: sc in scenarios ==> exists r :: r in cases && Passed(r, sc))
    && (forall r :: r in cases ==> exists sc :: sc in scenarios && Passed(r, sc))
  }

  predicate IsOneRun(s: Snapshot) {
    && s.verification.sourceCommit == s.source.commit && s.verification.sourceContentHash == s.source.contentHash
    && match (s.verification.startedAt, s.verification.finishedAt)
       case (Some(started), Some(finished)) => !(finished < started)
       case _ => false
  }

  ghost predicate Accepted(lib: Library, s: Snapshot) {
    && s.documents != [] && s.scenarios != [] && IsOneRun(s)
    && DocumentsAccepted(lib, s.documents) && HashesTo(lib, s.documents, s.source.contentHash)
    && ScenariosAreRead(lib, s.documents, s.scenarios) && AllPassed(s.scenarios, s.verification.cases)
  }

  lemma InParsed(lib: Library, documents: seq<Document>, sc: Scenario)
    requires forall d :: d in documents ==> SourceMatches(lib, d)
    ensures sc in Parsed(lib, documents) <==> SomewhereRead(lib, documents, sc)
  {
    hide Parsed, SourceMatches, ScenariosOf, IsRead;
    ParsedSources(lib, documents, sc);
    forall d | d in documents
      ensures sc in ScenariosOf(lib, d) <==> IsRead(lib, d, sc)
    {
      IsReadIff(lib, d, sc);
    }
  }

  /** Scenarios that are told apart within each document, and named once over all of them, have
      different ids. */
  lemma {:induction false} ParsedAreDistinct(lib: Library, documents: seq<Document>)
    requires forall d :: d in documents ==> SourceMatches(lib, d) && DistinctBy(ScenariosOf(lib, d), IDOfScenario)
    requires DistinctBy(documents, DocumentID)
    requires forall x, y :: x in Parsed(lib, documents) && y in Parsed(lib, documents) && x.id == y.id ==> x == y
    ensures DistinctBy(Parsed(lib, documents), IDOfScenario)
  {
    hide SourceMatches, ScenariosOf;
    if documents != [] {
      var n := |documents| - 1;
      var rest, d := documents[..n], documents[n];
      ParsedAreDistinct(lib, rest);
      assert Parsed(lib, documents) == Parsed(lib, rest) + ScenariosIn(lib)(d);
      hide Parsed;
      forall x, y | x in Parsed(lib, rest) && y in ScenariosIn(lib)(d)
        ensures IDOfScenario(x) != IDOfScenario(y)
      {
        ParsedSources(lib, rest, x);
        var c :| c in rest && x in ScenariosOf(lib, c);
        assert DocumentID(c) != DocumentID(d);
        ScenarioShape(lib, c, x);
        ScenarioShape(lib, d, y);
      }
      DistinctByConcat(Parsed(lib, rest), ScenariosIn(lib)(d), IDOfScenario);
    }
  }

  lemma {:induction false} PartsAreDistinct(lib: Library, documents: seq<Document>, d: Document)
    requires DistinctBy(Parsed(lib, documents), IDOfScenario) && d in documents
    ensures DistinctBy(ScenariosOf(lib, d), IDOfScenario)
  {
    hide ScenariosOf;
    var n := |documents| - 1;
    DistinctByConcat(Parsed(lib, documents[..n]), ScenariosIn(lib)(documents[n]), IDOfScenario);
    if d != documents[n] {
      PartsAreDistinct(lib, documents[..n], d);
    }
  }

  lemma PassedIff(r: Result, sc: Scenario)
    ensures CasePasses(r, sc) <==> Passed(r, sc)
  {
  }

  lemma AcceptedMeans(lib: Library, s: Snapshot)
    requires Acceptable(lib, s)
    ensures Accepted(lib, s)
  {
    hide SourceMatches, IsSource, NoIDTwice, CatalogueHash, HashesTo, Parsed, SomewhereRead, CasePasses, Passed;
    HashIff(lib, s.documents, s.source.contentHash);
    assert forall i, j :: 0 <= i < j < |s.documents| ==> DocumentID(s.documents[i]) != DocumentID(s.documents[j])
                                                         && DocumentPath(s.documents[i]) != DocumentPath(s.documents[j]);
    forall d | d in s.documents
      ensures IsSource(lib, d) && NoIDTwice(lib, d) && RefersToConcepts(s.documents, d)
    {
      IsSourceIff(lib, d);
      PartsAreDistinct(lib, s.documents, d);
      NoIDTwiceIff(lib, d);
      assert RefsResolve(s.documents, d);
    }
    ScenariosMean(lib, s);
  }

  lemma ScenariosMean(lib: Library, s: Snapshot)
    requires Acceptable(lib, s)
    ensures ScenariosAreRead(lib, s.documents, s.scenarios) && AllPassed(s.scenarios, s.verification.cases)
  {
    hide SourceMatches, CatalogueHash, Parsed, SomewhereRead, CasePasses, Passed, RefsResolve;
    var parsed, cases := Parsed(lib, s.documents), s.verification.cases;
    assert forall i, j :: 0 <= i < j < |s.scenarios| ==> IDOfScenario(s.scenarios[i]) != IDOfScenario(s.scenarios[j]);
    assert forall i, j :: 0 <= i < j < |cases| ==> IDOfResult(cases[i]) != IDOfResult(cases[j]);
    forall sc
      ensures sc in s.scenarios <==> SomewhereRead(lib, s.documents, sc)
    {
      InParsed(lib, s.documents, sc);
      if sc in parsed {
        ScenariosCoverSources(parsed, s.scenarios, cases, sc);
      }
    }
    forall sc | sc in s.scenarios
      ensures exists r :: r in cases && Passed(r, sc)
    {
      CasesCoverSources(parsed, s.scenarios, cases, sc);
      var r :| r in cases && CasePasses(r, sc);
      PassedIff(r, sc);
    }
    forall r | r in cases
      ensures exists sc :: sc in s.scenarios && Passed(r, sc)
    {
      assert CaseMatches(parsed, r);
      var sc :| sc in parsed && CasePasses(r, sc);
      PassedIff(r, sc);
      InParsed(lib, s.documents, sc);
    }
  }

  lemma DocumentSuffices(lib: Library, documents: seq<Document>, d: Document)
    requires DocumentsAccepted(lib, documents) && d in documents
    ensures SourceMatches(lib, d) && DistinctBy(ScenariosOf(lib, d), IDOfScenario) && RefsResolve(documents, d)
  {
    hide SourceMatches, IsSource, NoIDTwice, ScenariosOf, DistinctBy;
    IsSourceIff(lib, d);
    NoIDTwiceIff(lib, d);
  }

  lemma SameIDIsSame(lib: Library, documents: seq<Document>, scenarios: seq<Scenario>, x: Scenario, y: Scenario)
    requires ScenariosAreRead(lib, documents, scenarios) && forall d :: d in documents ==> SourceMatches(lib, d)
    requires x in Parsed(lib, documents) && y in Parsed(lib, documents) && x.id == y.id
    ensures x == y
  {
    hide SourceMatches, Parsed, SomewhereRead;
    InParsed(lib, documents, x);
    InParsed(lib, documents, y);
  }

  lemma PlacesDiffer(lib: Library, documents: seq<Document>)
    requires DocumentsAccepted(lib, documents)
    ensures DistinctBy(documents, DocumentID) && DistinctBy(documents, DocumentPath)
  {
    hide IsSource, NoIDTwice, RefersToConcepts;
  }

  lemma DocumentsSuffice(lib: Library, s: Snapshot)
    requires Accepted(lib, s)
    ensures DocumentsAcceptable(lib, s.documents)
    ensures forall d :: d in s.documents ==> RefsResolve(s.documents, d)
  {
    hide SourceMatches, DocumentsAccepted, HashesTo, Parsed, ScenariosAreRead, AllPassed, ScenariosOf, RefsResolve, DistinctBy, IsOneRun;
    forall d | d in s.documents
      ensures SourceMatches(lib, d) && DistinctBy(ScenariosOf(lib, d), IDOfScenario) && RefsResolve(s.documents, d)
    {
      DocumentSuffices(lib, s.documents, d);
    }
    forall x, y | x in Parsed(lib, s.documents) && y in Parsed(lib, s.documents) && x.id == y.id
      ensures x == y
    {
      SameIDIsSame(lib, s.documents, s.scenarios, x, y);
    }
    PlacesDiffer(lib, s.documents);
    ParsedAreDistinct(lib, s.documents);
  }

  lemma InMap<T>(s: seq<T>, key: T -> GoString, x: T)
    requires x in s
    ensures key(x) in Map(s, key)
  {
    var i :| 0 <= i < |s| && s[i] == x;
    assert Map(s, key)[i] == key(x);
  }

  /** A list without repeated keys is no longer than one that has all of them. */
  lemma NoLonger<T, U>(s: seq<T>, f: T -> GoString, t: seq<U>, g: U -> GoString)
    requires DistinctBy(s, f) && forall x :: x in s ==> f(x) in Map(t, g)
    ensures |s| <= |t|
  {
    var a, b := Map(s, f), Map(t, g);
    forall k | k in Elements(a)
      ensures k in Elements(b)
    {
      var i :| 0 <= i < |a| && a[i] == k;
      assert s[i] in s;
    }
    ElementsSize(a);
    ElementsSize(b);
    SubsetSize(Elements(a), Elements(b));
  }

  lemma CaseHasScenario(scenarios: seq<Scenario>, cases: seq<Result>, r: Result)
    requires AllPassed(scenarios, cases) && r in cases
    ensures CaseMatches(scenarios, r) && IDOfResult(r) in Map(scenarios, IDOfScenario)
  {
    hide Passed, CasePasses;
    var sc :| sc in scenarios && Passed(r, sc);
    PassedIff(r, sc);
    CaseNamesSource(scenarios, r);
  }

  lemma ScenarioHasCase(scenarios: seq<Scenario>, cases: seq<Result>, sc: Scenario)
    requires AllPassed(scenarios, cases) && sc in scenarios
    ensures IDOfScenario(sc) in Map(cases, IDOfResult)
  {
    hide Passed;
    var r :| r in cases && Passed(r, sc);
    PassedNames(r, sc);
    InMap(cases, IDOfResult, r);
  }

  lemma CasesDiffer(scenarios: seq<Scenario>, cases: seq<Result>)
    requires AllPassed(scenarios, cases)
    ensures DistinctBy(cases, IDOfResult)
  {
    hide Passed;
  }

  lemma CasesSuffice(scenarios: seq<Scenario>, cases: seq<Result>)
    requires DistinctBy(scenarios, IDOfScenario) && AllPassed(scenarios, cases)
    ensures |cases| == |scenarios| && DistinctBy(cases, IDOfResult)
    ensures forall r :: r in cases ==> CaseMatches(scenarios, r)
  {
    hide AllPassed, CaseMatches, DistinctBy;
    CasesDiffer(scenarios, cases);
    forall r | r in cases
      ensures CaseMatches(scenarios, r) && IDOfResult(r) in Map(scenarios, IDOfScenario)
    {
      CaseHasScenario(scenarios, cases, r);
    }
    forall sc | sc in scenarios
      ensures IDOfScenario(sc) in Map(cases, IDOfResult)
    {
      ScenarioHasCase(scenarios, cases, sc);
    }
    NoLonger(cases, IDOfResult, scenarios, IDOfScenario);
    NoLonger(scenarios, IDOfScenario, cases, IDOfResult);
  }

  lemma PassedNames(r: Result, sc: Scenario)
    requires Passed(r, sc)
    ensures IDOfResult(r) == IDOfScenario(sc)
  {
  }

  lemma ScenariosSuffice(lib: Library, s: Snapshot)
    requires Accepted(lib, s) && DocumentsAcceptable(lib, s.documents)
    ensures ScenariosAcceptable(Parsed(lib, s.documents), s.scenarios, s.verification.cases)
  {
    hide SourceMatches, IsSource, DocumentsAccepted, HashesTo, Parsed, SomewhereRead, CasePasses, AllPassed;
    var parsed, cases := Parsed(lib, s.documents), s.verification.cases;
    forall sc
      ensures sc in s.scenarios <==> sc in parsed
    {
      InParsed(lib, s.documents, sc);
    }
    assert DistinctBy(s.scenarios, IDOfScenario);
    forall sc | sc in parsed
      ensures IDOfScenario(sc) in Map(s.scenarios, IDOfScenario) && IDOfScenario(sc) in Map(parsed, IDOfScenario)
    {
      InMap(s.scenarios, IDOfScenario, sc);
      InMap(parsed, IDOfScenario, sc);
    }
    NoLonger(s.scenarios, IDOfScenario, parsed, IDOfScenario);
    NoLonger(parsed, IDOfScenario, s.scenarios, IDOfScenario);
    CasesSuffice(s.scenarios, cases);
    forall r | r in cases
      ensures CaseMatches(parsed, r)
    {
      assert CaseMatches(s.scenarios, r);
      var sc :| sc in s.scenarios && CasePasses(r, sc);
    }
  }

  /** A snapshot is accepted exactly when every field says what its content says: the documents are
      well-formed sources with different ids and paths and refer to one another's concepts, the content
      hash is theirs, the scenarios are the ones their contents hold, and each has passed once in the
      verification of the same content. */
  lemma AcceptedIff(lib: Library, s: Snapshot)
    ensures Acceptable(lib, s) <==> Accepted(lib, s)
  {
    hide DocumentsAcceptable, RefsResolve, ScenariosAcceptable, CatalogueHash, DocumentsAccepted, HashesTo, ScenariosAreRead, AllPassed;
    if Acceptable(lib, s) {
      AcceptedMeans(lib, s);
    }
    if Accepted(lib, s) {
      DocumentsSuffice(lib, s);
      PathsDiffer(lib, s.documents);
      HashIff(lib, s.documents, s.source.contentHash);
      ScenariosSuffice(lib, s);
    }
  }

  lemma PathsDiffer(lib: Library, documents: seq<Document>)
    requires DocumentsAcceptable(lib, documents)
    ensures DistinctBy(documents, DocumentPath)
  {
  }

  // ---------------------------------------------------------------- eligibility

  predicate IsZeros(s: GoString) {
    forall i :: 0 <= i < |s| ==> s[i] == '0'
  }

  /** A clean build of a commit pushed to the main branch of the repository by its verification
      workflow, whose run number is a positive 64-bit number and whose message stream has a hash. */
  ghost predicate IsMainBuild(s: Snapshot) {
    && s.source.repository == "https://github.com/matk0/vozokany" && !s.source.dirty
    && !(|s.source.commit| == 40 && IsZeros(s.source.commit))
    && s.publication.kind == "main" && s.publication.event == "push" && s.publication.ref == "refs/heads/main"
    && s.publication.workflow == ".github/workflows/verify.yml" && s.publication.eligible
    && s.publication.runAttempt > 0 && s.publication.runID.Some? && s.publication.runID.value > 0
    && forall digest: GoString :: s.verification.messagesHash == "sha256:" + digest && |digest| == 64 ==> !IsZeros(digest)
  }

  lemma IsZerosIff(s: GoString, n: nat)
    ensures s == Zeros(n) <==> |s| == n && IsZeros(s)
  {
  }

  lemma EligibleIff(s: Snapshot)
    ensures Eligible(s) <==> IsMainBuild(s)
  {
    hide IsZeros;
    IsZerosIff(s.source.commit, 40);
    IsZerosIff(Zeros(64), 64);
    var hash := s.verification.messagesHash;
    forall digest: GoString | hash == "sha256:" + digest && |digest| == 64
      ensures IsZeros(digest) <==> hash == "sha256:" + Zeros(64)
    {
      IsZerosIff(digest, 64);
      assert ("sha256:" + digest)[7..] == digest && ("sha256:" + Zeros(64))[7..] == Zeros(64);
    }
  }
}
