/** A repository snapshot: the wire data, and when its documents, scenarios and verification cases
    make an acceptable catalogue.

    The Gherkin parser, the regular expressions over concept sources, UTF-8 validation and SHA-256
    are functions of a `Library`; nothing is known about them but what a lemma asks for. */
module Snapshots {
  import opened GoStrings
  import opened Options
  import opened Collections

  const REPOSITORY: GoString := "https://github.com/matk0/vozokany"
  const WORKFLOW: GoString := ".github/workflows/verify.yml"

  // ---------------------------------------------------------------- wire data

  datatype Kind = ConceptKind | FeatureKind | ScenarioKind | UnknownKind

  datatype Source = Source(repository: GoString, commit: GoString, dirty: bool, contentHash: GoString)

  /** `runID` is the parsed run id, `None` if it is no 64-bit number. */
  datatype Publication = Publication(
    kind: GoString, event: GoString, ref: GoString, workflow: GoString, runID: Option<int>, runAttempt: int, eligible: bool)

  datatype Document = Document(
    id: GoString, kind: Kind, path: GoString, title: GoString, description: GoString, content: GoString,
    contentHash: GoString, conceptIDs: seq<GoString>)

  datatype Step = Step(keyword: GoString, text: GoString, line: int)

  datatype Scenario = Scenario(
    id: GoString, featureID: GoString, name: GoString, description: GoString, line: int, steps: seq<Step>)

  datatype ResultStep = ResultStep(text: GoString, status: GoString)

  datatype Result = Result(scenarioID: GoString, status: GoString, duration: GoString, steps: seq<ResultStep>)

  /** The times are instants, `None` if malformed; `other` stands for the members nothing reads. */
  datatype Verification = Verification(
    sourceCommit: GoString, sourceContentHash: GoString, startedAt: Option<int>, finishedAt: Option<int>,
    messagesHash: GoString, cases: seq<Result>, other: GoString)

  datatype Snapshot = Snapshot(
    source: Source, publication: Publication, documents: seq<Document>, scenarios: seq<Scenario>, verification: Verification)

  /** What a document or scenario becomes once its source has been checked. */
  datatype Entry = Entry(
    externalID: GoString, kind: Kind, parentID: GoString, title: GoString, body: GoString, steps: seq<Step>,
    conceptIDs: seq<GoString>, path: GoString, sourceContent: GoString, documentHash: GoString, businessHash: GoString)

  // ---------------------------------------------------------------- parsed sources

  datatype StepNode = StepNode(keyword: GoString, text: GoString, line: int, hasArgument: bool)

  datatype ScenarioNode = ScenarioNode(
    keyword: GoString, tags: seq<GoString>, name: GoString, description: GoString, line: int, hasExamples: bool, steps: seq<StepNode>)

  datatype ChildNode = ScenarioChild(scenario: ScenarioNode) | OtherChild

  datatype FeatureNode = FeatureNode(
    language: GoString, keyword: GoString, tags: seq<GoString>, name: GoString, description: GoString, children: seq<ChildNode>)

  /** The business id of the first line, the title and the related concepts of a concept source. */
  datatype ConceptNode = ConceptNode(id: GoString, title: GoString, refs: seq<GoString>)

  datatype Library = Library(
    sha256: GoString -> GoString,
    validUTF8: GoString -> bool,
    gherkin: GoString -> Option<FeatureNode>,
    concept: GoString -> Option<ConceptNode>)

  // ---------------------------------------------------------------- identifiers and text

  predicate HasSuffix(s: GoString, suffix: GoString) {
    |suffix| <= |s| && s[|s| - |suffix|..] == suffix
  }

  /** The prefix followed by one or more upper-case letters, digits and hyphens. */
  predicate IsID(prefix: GoString, id: GoString) {
    && HasPrefix(id, prefix) && |id| > |prefix|
    && forall i :: |prefix| <= i < |id| ==> 'A' <= id[i] <= 'Z' || '0' <= id[i] <= '9' || id[i] == '-'
  }

  const CONCEPT_ID: GoString := "VOZ-CON-"
  const FEATURE_ID: GoString := "VOZ-FEAT-"
  const SCENARIO_ID: GoString := "VOZ-SC-"

  predicate NulFree(s: GoString) {
    forall i :: 0 <= i < |s| ==> s[i] != '\0'
  }

  const BYTE_ORDER_MARK: GoString := [239 as char, 187 as char, 191 as char]

  predicate ValidEncoding(lib: Library, content: GoString) {
    lib.validUTF8(content) && NulFree(content) && '\r' !in content && !HasPrefix(content, BYTE_ORDER_MARK)
  }

  /** `strings.Split(s, "/")`. */
  function Segments(s: GoString): seq<GoString>
    decreases |s|
  {
    var slash := Index(s, "/");
    if slash < 0 then [s] else [s[..slash]] + Segments(s[slash + 1..])
  }

  predicate ValidPath(path: GoString) {
    forall segment :: segment in Segments(path) ==> segment !in ["..", ".", ""]
  }

  predicate ValidKeyword(s: GoString) {
    s in ["Given", "When", "Then", "And", "But"]
  }

  // ---------------------------------------------------------------- tags

  datatype Tags = Tags(id: GoString, refs: seq<GoString>)

  const ID_TAG: GoString := "@id:"
  const CONCEPT_TAG: GoString := "@concept:"

  /** The tags read so far, or `None` after a duplicate id or an unsupported tag. */
  function TagsRead(list: seq<GoString>, feature: bool): Option<Tags> {
    if list == [] then Some(Tags("", []))
    else
      var before := TagsRead(list[..|list| - 1], feature);
      var tag := list[|list| - 1];
      if before.None? then None
      else if HasPrefix(tag, ID_TAG) then
        if before.value.id != "" then None else Some(before.value.(id := tag[|ID_TAG|..]))
      else if feature && HasPrefix(tag, CONCEPT_TAG) then
        Some(before.value.(refs := before.value.refs + [tag[|CONCEPT_TAG|..]]))
      else None
  }

  function TagsOf(list: seq<GoString>, feature: bool): Option<Tags> {
    var read := TagsRead(list, feature);
    if read.None? || read.value.id == "" || (feature && read.value.refs == []) then None else read
  }

  // ---------------------------------------------------------------- scenarios of a feature

  function StepOf(node: StepNode): Step {
    Step(TrimSpace(node.keyword), node.text, node.line)
  }

  predicate SupportedStep(node: StepNode) {
    !node.hasArgument && ValidKeyword(TrimSpace(node.keyword))
  }

  function ScenarioID(node: ScenarioNode): GoString {
    match TagsOf(node.tags, false)
    case Some(tags) => tags.id
    case None => ""
  }

  predicate SupportedScenario(node: ScenarioNode) {
    && node.keyword == "Scenario" && !node.hasExamples && node.steps != []
    && TagsOf(node.tags, false).Some? && IsID(SCENARIO_ID, ScenarioID(node))
    && (forall i :: 0 <= i < |node.steps| ==> SupportedStep(node.steps[i]))
    && TrimSpace(node.steps[0].keyword) == "Given"
    && (exists i :: 0 <= i < |node.steps| && TrimSpace(node.steps[i].keyword) == "When")
    && (exists i :: 0 <= i < |node.steps| && TrimSpace(node.steps[i].keyword) == "Then")
  }

  predicate SupportedChild(child: ChildNode) {
    child.ScenarioChild? && SupportedScenario(child.scenario)
  }

  function ScenarioOf(node: ScenarioNode, featureID: GoString): Scenario {
    Scenario(ScenarioID(node), featureID, node.name, node.description, node.line, Map(node.steps, StepOf))
  }

  function ScenarioIn(featureID: GoString): ChildNode -> Scenario {
    (child: ChildNode) =>
      match child
      case ScenarioChild(node) => ScenarioOf(node, featureID)
      case OtherChild => Scenario("", featureID, "", "", 0, [])
  }

  predicate SupportedFeature(f: FeatureNode) {
    && f.language == "en" && f.keyword == "Feature" && f.children != []
    && TagsOf(f.tags, true).Some?
    && forall i :: 0 <= i < |f.children| ==> SupportedChild(f.children[i])
  }

  /** The scenarios a document's source defines, in order. */
  function ScenariosOf(lib: Library, d: Document): seq<Scenario> {
    match lib.gherkin(d.content)
    case Some(f) => if d.kind == FeatureKind then Map(f.children, ScenarioIn(d.id)) else []
    case None => []
  }

  // ---------------------------------------------------------------- entries

  const NUL: GoString := ['\0']

  /** `strings.Join(fields, "\x00")`. */
  function Join(fields: seq<GoString>): GoString {
    if fields == [] then "" else if |fields| == 1 then fields[0] else fields[0] + NUL + Join(fields[1..])
  }

  function StepFields(steps: seq<Step>): seq<GoString> {
    if steps == [] then [] else [steps[0].keyword, steps[0].text] + StepFields(steps[1..])
  }

  /** The fields of a scenario whose digest is its business identity. */
  function BusinessFields(sc: Scenario, refs: seq<GoString>): seq<GoString> {
    [sc.id, sc.featureID, sc.name, sc.description] + refs + StepFields(sc.steps)
  }

  function ScenarioEntry(lib: Library, d: Document, sc: Scenario): Entry {
    Entry(sc.id, ScenarioKind, d.id, sc.name, sc.description, sc.steps, d.conceptIDs, d.path, d.content, d.contentHash,
          lib.sha256(Join(BusinessFields(sc, d.conceptIDs))))
  }

  function DocumentEntry(d: Document): Entry {
    Entry(d.id, d.kind, "", d.title, if d.kind == FeatureKind then d.description else d.content, [], d.conceptIDs, d.path,
          d.content, d.contentHash, d.contentHash)
  }

  /** A document's scenarios, then the document itself. */
  function EntriesOf(lib: Library, d: Document): seq<Entry> {
    Map(ScenariosOf(lib, d), ScenarioEntryIn(lib, d)) + [DocumentEntry(d)]
  }

  function ScenarioEntryIn(lib: Library, d: Document): Scenario -> Entry {
    sc => ScenarioEntry(lib, d, sc)
  }

  function ScenariosIn(lib: Library): Document -> seq<Scenario> {
    d => ScenariosOf(lib, d)
  }

  function EntriesIn(lib: Library): Document -> seq<Entry> {
    d => EntriesOf(lib, d)
  }

  function Parsed(lib: Library, documents: seq<Document>): seq<Scenario> {
    FlatMap(documents, ScenariosIn(lib))
  }

  // ---------------------------------------------------------------- keys

  function DocumentID(d: Document): GoString { d.id }
  function DocumentPath(d: Document): GoString { d.path }
  function IDOfScenario(sc: Scenario): GoString { sc.id }
  function IDOfResult(r: Result): GoString { r.scenarioID }
  function ExternalID(e: Entry): GoString { e.externalID }

  // ---------------------------------------------------------------- acceptance

  /** The listing of paths and content hashes, sorted by path. */
  function Listing(documents: seq<Document>): GoString {
    if documents == [] then ""
    else documents[0].path + NUL + documents[0].contentHash + "\n" + Listing(documents[1..])
  }

  function CatalogueHash(lib: Library, documents: seq<Document>): GoString {
    lib.sha256(Listing(Sort(documents, DocumentPath)))
  }

  predicate ConceptMatches(lib: Library, d: Document) {
    && IsID(CONCEPT_ID, d.id) && HasSuffix(d.path, ".md")
    && lib.concept(d.content) == Some(ConceptNode(d.id, d.title, d.conceptIDs)) && d.description == ""
  }

  predicate FeatureMatches(lib: Library, d: Document) {
    && lib.gherkin(d.content).Some? && SupportedFeature(lib.gherkin(d.content).value)
    && IsID(FEATURE_ID, d.id) && HasSuffix(d.path, ".feature")
    && var f := lib.gherkin(d.content).value;
       TagsOf(f.tags, true).value == Tags(d.id, d.conceptIDs) && d.title == f.name && d.description == f.description
  }

  /** The wire fields of a document are what its hashed source says. */
  predicate SourceMatches(lib: Library, d: Document) {
    && ValidEncoding(lib, d.content) && lib.sha256(d.content) == d.contentHash && ValidPath(d.path)
    && match d.kind
       case ConceptKind => ConceptMatches(lib, d)
       case FeatureKind => FeatureMatches(lib, d)
       case _ => false
  }

  ghost predicate ResolvedIn(documents: seq<Document>, owner: Document, id: GoString) {
    id != owner.id && exists c :: c in documents && c.id == id && c.kind == ConceptKind
  }

  ghost predicate RefsResolve(documents: seq<Document>, d: Document) {
    Distinct(d.conceptIDs) && forall id :: id in d.conceptIDs ==> ResolvedIn(documents, d, id)
  }

  /** A verification case reports that every step of the scenario passed. */
  predicate CasePasses(r: Result, sc: Scenario) {
    && r.scenarioID == sc.id && r.status == "passed" && |r.steps| == |sc.steps|
    && forall i :: 0 <= i < |r.steps| ==> r.steps[i] == ResultStep(sc.steps[i].text, "passed")
  }

  ghost predicate CaseMatches(parsed: seq<Scenario>, r: Result) {
    exists sc :: sc in parsed && CasePasses(r, sc)
  }

  predicate SameSource(s: Snapshot) {
    && s.source.commit == s.verification.sourceCommit && s.source.contentHash == s.verification.sourceContentHash
    && s.verification.startedAt.Some? && s.verification.finishedAt.Some?
    && s.verification.startedAt.value <= s.verification.finishedAt.value
  }

  ghost predicate DocumentsAcceptable(lib: Library, documents: seq<Document>) {
    && DistinctBy(documents, DocumentID) && DistinctBy(documents, DocumentPath)
    && (forall d :: d in documents ==> SourceMatches(lib, d))
    && DistinctBy(Parsed(lib, documents), IDOfScenario)
  }

  ghost predicate ScenariosAcceptable(parsed: seq<Scenario>, scenarios: seq<Scenario>, cases: seq<Result>) {
    && |scenarios| == |parsed| && |cases| == |parsed|
    && DistinctBy(scenarios, IDOfScenario) && (forall sc :: sc in scenarios ==> sc in parsed)
    && DistinctBy(cases, IDOfResult) && (forall r :: r in cases ==> CaseMatches(parsed, r))
  }

  ghost predicate Acceptable(lib: Library, s: Snapshot) {
    && s.documents != [] && s.scenarios != []
    && SameSource(s) && CatalogueHash(lib, s.documents) == s.source.contentHash
    && DocumentsAcceptable(lib, s.documents)
    && (forall d :: d in s.documents ==> RefsResolve(s.documents, d))
    && ScenariosAcceptable(Parsed(lib, s.documents), s.scenarios, s.verification.cases)
  }

  /** The catalogue an acceptable snapshot stands for, sorted by external id. */
  function CatalogueOf(lib: Library, s: Snapshot): seq<Entry> {
    Sort(FlatMap(s.documents, EntriesIn(lib)), ExternalID)
  }

  function Zeros(n: nat): GoString {
    seq(n, _ => '0')
  }

  /** `Snapshot.Eligible`. */
  predicate Eligible(s: Snapshot) {
    && s.publication.runID.Some? && s.publication.runID.value > 0
    && s.source.repository == REPOSITORY && !s.source.dirty && s.source.commit != Zeros(40)
    && s.publication.kind == "main" && s.publication.event == "push" && s.publication.ref == "refs/heads/main"
    && s.publication.workflow == WORKFLOW && s.publication.runAttempt >= 1 && s.publication.eligible
    && s.verification.messagesHash != "sha256:" + Zeros(64)
  }
}
