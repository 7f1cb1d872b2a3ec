/** When a message stream proves that every scenario of a snapshot was executed and passed. */
module ExecutionEvidence {
  import opened GoStrings
  import opened Options
  import opened Collections
  import opened Snapshots
  import opened ExecutionStream

  // ---------------------------------------------------------------- lookups

  const SCENARIO_TAG: GoString := "@id:VOZ-SC-"

  function ScenarioTag(tag: GoString): seq<GoString> {
    if HasPrefix(tag, SCENARIO_TAG) then [tag[|ID_TAG|..]] else []
  }

  function ScenarioTags(tags: seq<GoString>): seq<GoString> {
    FlatMap(tags, ScenarioTag)
  }

  function FeatureIn(d: Document): seq<Document> {
    if d.kind == FeatureKind then [d] else []
  }

  /** The feature documents by path. */
  function FeaturePaths(documents: seq<Document>): map<GoString, Document> {
    ByKey(FlatMap(documents, FeatureIn), DocumentPath)
  }

  /** The snapshot's scenarios by id. */
  function Expected(scenarios: seq<Scenario>): map<GoString, Scenario> {
    ByKey(scenarios, IDOfScenario)
  }

  function Present(step: Option<PickleStep>): seq<PickleStep> {
    if step.Some? then [step.value] else []
  }

  function PickleStepID(step: PickleStep): GoString { step.id }
  function TestStepID(step: TestStep): GoString { step.id }

  function PickleSteps(p: Pickle): seq<PickleStep> {
    FlatMap(p.steps, Present)
  }

  function PickleStepTable(p: Pickle): map<GoString, PickleStep> {
    ByKey(PickleSteps(p), PickleStepID)
  }

  /** The steps of a run that have a result. */
  function StepNames(c: Stream, run: GoString): set<GoString> {
    set k | k in c.steps && k.run == run :: k.step
  }

  function CaseOf(c: Stream, run: GoString): Option<TestCase> {
    if run in c.runs && c.runs[run].testCaseID in c.cases then Some(c.cases[c.runs[run].testCaseID]) else None
  }

  function PickleOf(c: Stream, run: GoString): Option<Pickle> {
    match CaseOf(c, run)
    case Some(tc) => if tc.pickleID in c.pickles then Some(c.pickles[tc.pickleID]) else None
    case None => None
  }

  /** The one scenario id a run's pickle is tagged with. */
  function ScenarioIDOf(c: Stream, run: GoString): Option<GoString> {
    match PickleOf(c, run)
    case Some(p) => if |ScenarioTags(p.tags)| == 1 then Some(ScenarioTags(p.tags)[0]) else None
    case None => None
  }

  // ---------------------------------------------------------------- one run

  predicate SourcesMatch(c: Stream, documents: seq<Document>) {
    && (forall d :: d in documents && d.kind == FeatureKind ==> d.path in c.sources && c.sources[d.path].data == d.content)
    && |c.sources| == |FeaturePaths(documents)|
  }

  predicate PickleStepFits(step: Option<PickleStep>, source: Step) {
    step.Some? && !step.value.hasArgument && step.value.text == source.text
  }

  ghost predicate PickleFits(p: Pickle, paths: map<GoString, Document>, sc: Scenario) {
    && p.uri in paths && paths[p.uri].id == sc.featureID && p.name == sc.name && p.language == "en" && |p.steps| == |sc.steps|
    && (forall i :: 0 <= i < |p.steps| ==> PickleStepFits(p.steps[i], sc.steps[i]))
    && DistinctBy(PickleSteps(p), PickleStepID)
  }

  predicate ValidDuration(d: Option<Duration>) {
    d.Some? && d.value.seconds >= 0 && 0 <= d.value.nanos < 1_000_000_000
  }

  function DurationOf(c: Stream, run: GoString, step: TestStep): Option<Duration> {
    var key := StepKey(run, step.id);
    if key in c.steps && c.steps[key].result.Some? then c.steps[key].result.value.duration else None
  }

  /** A test step has a result and is either one known step of the pickle or a hook. */
  predicate TestStepFits(c: Stream, run: GoString, p: Pickle, step: TestStep) {
    && StepKey(run, step.id) in c.steps && ValidDuration(DurationOf(c, run, step))
    && if step.pickleStepID != ""
       then |step.definitionIDs| == 1 && step.definitionIDs[0] in c.definitions && step.pickleStepID in PickleStepTable(p)
       else step.hookID != ""
  }

  function SourceStep(p: Pickle): TestStep -> seq<ResultStep> {
    (step: TestStep) =>
      if step.pickleStepID != "" && step.pickleStepID in PickleStepTable(p)
      then [ResultStep(PickleStepTable(p)[step.pickleStepID].text, "passed")] else []
  }

  /** The executed source steps of a case, in order. */
  function SourceSteps(p: Pickle, steps: seq<TestStep>): seq<ResultStep> {
    FlatMap(steps, SourceStep(p))
  }

  function PassedStep(step: Step): ResultStep {
    ResultStep(step.text, "passed")
  }

  function StepNanos(c: Stream, run: GoString, step: TestStep): nat {
    var d := DurationOf(c, run, step);
    if ValidDuration(d) then d.value.seconds * 1_000_000_000 + d.value.nanos else 0
  }

  /** The summed durations in nanoseconds; steps without a valid one count nothing. */
  function Nanos(c: Stream, run: GoString, steps: seq<TestStep>): nat {
    if steps == [] then 0 else Nanos(c, run, steps[..|steps| - 1]) + StepNanos(c, run, steps[|steps| - 1])
  }

  /** Exactly one fixture receipt, from the Rust backend. */
  predicate AttestedOnce(receipts: multiset<Receipt>, run: GoString) {
    && receipts[Receipt(run, Some("rust"))] == 1
    && forall r :: r in receipts && r.run == run ==> r.backend == Some("rust")
  }

  ghost predicate CaseFits(c: Stream, run: GoString, tc: TestCase, p: Pickle, sc: Scenario) {
    && |StepNames(c, run)| == |tc.steps| && DistinctBy(tc.steps, TestStepID)
    && (forall step :: step in tc.steps ==> TestStepFits(c, run, p, step))
    && SourceSteps(p, tc.steps) == Map(sc.steps, PassedStep)
  }

  ghost predicate RunFits(c: Stream, s: Snapshot, run: GoString) {
    && PickleOf(c, run).Some? && run in c.finished
    && ScenarioIDOf(c, run).Some? && ScenarioIDOf(c, run).value in Expected(s.scenarios)
    && var tc, p, sc := CaseOf(c, run).value, PickleOf(c, run).value, Expected(s.scenarios)[ScenarioIDOf(c, run).value];
       && PickleFits(p, FeaturePaths(s.documents), sc) && CaseFits(c, run, tc, p, sc)
       && AttestedOnce(c.receipts, run)
  }

  function ResultOf(c: Stream, run: GoString): Result
    requires PickleOf(c, run).Some? && ScenarioIDOf(c, run).Some?
  {
    var tc, p := CaseOf(c, run).value, PickleOf(c, run).value;
    Result(ScenarioIDOf(c, run).value, "passed", Decimal(Nanos(c, run, tc.steps)), SourceSteps(p, tc.steps))
  }

  // ---------------------------------------------------------------- the whole stream

  predicate Complete(c: Stream, s: Snapshot) {
    && c.starts == 1 && c.ends == 1 && |c.pickles| == |s.scenarios| && |c.cases| == |c.pickles|
    && |c.runs| == |c.cases| && |c.finished| == |c.runs|
  }

  ghost predicate RunsFit(c: Stream, s: Snapshot) {
    && (forall run :: run in c.runs ==> RunFits(c, s, run))
    && (forall q, r :: q in c.runs && r in c.runs && ScenarioIDOf(c, q) == ScenarioIDOf(c, r) ==> q == r)
  }

  ghost predicate ResultsMatch(c: Stream, cases: seq<Result>) {
    && |cases| == |c.runs|
    && (forall run :: run in c.runs && ScenarioIDOf(c, run).Some? ==> ResultOf(c, run) in cases)
  }

  ghost predicate Accepted(c: Stream, s: Snapshot) {
    Complete(c, s) && SourcesMatch(c, s.documents) && RunsFit(c, s) && ResultsMatch(c, s.verification.cases)
  }

  ghost predicate Validates(messages: seq<Envelope>, s: Snapshot) {
    Readable(messages) && Accepted(StreamOf(messages), s)
  }

  /** Whether a stream validates a snapshot does not depend on the order of its messages. */
  lemma ValidationIsOrderFree(a: seq<Envelope>, b: seq<Envelope>, s: Snapshot)
    requires multiset(a) == multiset(b)
    ensures Validates(a, s) <==> Validates(b, s)
  {
    hide Readable, StreamOf, Accepted;
    if Readable(a) {
      ReadingIsOrderFree(a, b);
    } else if Readable(b) {
      ReadingIsOrderFree(b, a);
    }
  }

  // ---------------------------------------------------------------- bijections

  function CaseIDs(c: Stream): map<GoString, GoString> {
    map run | run in c.runs :: c.runs[run].testCaseID
  }

  function PickleIDs(c: Stream): map<GoString, GoString> {
    map run | run in c.runs && CaseOf(c, run).Some? :: CaseOf(c, run).value.pickleID
  }

  function ScenarioIDs(c: Stream): map<GoString, GoString> {
    map run | run in c.runs && ScenarioIDOf(c, run).Some? :: ScenarioIDOf(c, run).value
  }

  /** A one-to-one map from the runs onto a set. */
  ghost predicate Bijects(c: Stream, m: map<GoString, GoString>, target: set<GoString>) {
    m.Keys == c.runs.Keys && m.Values == target && forall q, r :: q in m && r in m && m[q] == m[r] ==> q == r
  }

  lemma RunsHaveEverything(c: Stream, s: Snapshot, run: GoString)
    requires RunsFit(c, s) && run in c.runs
    ensures CaseOf(c, run).Some? && PickleOf(c, run).Some? && ScenarioIDOf(c, run).Some? && run in c.finished
    ensures c.runs[run].testCaseID in c.cases && CaseOf(c, run).value.pickleID in c.pickles
    ensures ScenarioIDOf(c, run).value in Expected(s.scenarios)
  {
    hide PickleFits, CaseFits, AttestedOnce;
    assert RunFits(c, s, run);
  }

  lemma SamePickleSameScenario(c: Stream, q: GoString, r: GoString)
    requires CaseOf(c, q).Some? && CaseOf(c, r).Some? && CaseOf(c, q).value.pickleID == CaseOf(c, r).value.pickleID
    ensures ScenarioIDOf(c, q) == ScenarioIDOf(c, r)
  {
  }

  /** Pigeonhole: equal counts and the distinct scenario ids make runs, cases, pickles, completions
      and scenarios correspond one to one, and no scenario id of the snapshot is repeated. */
  lemma RunsBiject(c: Stream, s: Snapshot)
    requires Complete(c, s) && RunsFit(c, s)
    ensures DistinctBy(s.scenarios, IDOfScenario)
    ensures Bijects(c, CaseIDs(c), c.cases.Keys) && Bijects(c, PickleIDs(c), c.pickles.Keys)
    ensures Bijects(c, ScenarioIDs(c), Elements(Map(s.scenarios, IDOfScenario)))
    ensures c.finished.Keys == c.runs.Keys
  {
    hide RunsFit, Complete, Bijects, CaseIDs, PickleIDs, ScenarioIDs;
    CasesBiject(c, s);
    PicklesBiject(c, s);
    ScenariosBiject(c, s);
    EveryRunFinished(c, s);
  }

  lemma EveryRunFinished(c: Stream, s: Snapshot)
    requires Complete(c, s) && RunsFit(c, s)
    ensures c.finished.Keys == c.runs.Keys
  {
    hide RunsFit;
    forall run | run in c.runs
      ensures run in c.finished
    {
      RunsHaveEverything(c, s, run);
    }
    SubsetSize(c.runs.Keys, c.finished.Keys);
  }

  lemma CasesBiject(c: Stream, s: Snapshot)
    requires Complete(c, s) && RunsFit(c, s)
    ensures Bijects(c, CaseIDs(c), c.cases.Keys)
  {
    hide RunFits, ScenarioIDOf;
    var m := CaseIDs(c);
    assert m.Keys == c.runs.Keys;
    forall run | run in m
      ensures m[run] in c.cases
    {
      RunsHaveEverything(c, s, run);
    }
    forall q, r | q in m && r in m && m[q] == m[r]
      ensures q == r
    {
      RunsHaveEverything(c, s, q);
      RunsHaveEverything(c, s, r);
      SamePickleSameScenario(c, q, r);
    }
    Onto(m, c.cases.Keys);
  }

  lemma PicklesBiject(c: Stream, s: Snapshot)
    requires Complete(c, s) && RunsFit(c, s)
    ensures Bijects(c, PickleIDs(c), c.pickles.Keys)
  {
    hide RunFits, ScenarioIDOf, CaseOf;
    var m := PickleIDs(c);
    forall run | run in c.runs
      ensures CaseOf(c, run).Some? && CaseOf(c, run).value.pickleID in c.pickles
    {
      RunsHaveEverything(c, s, run);
    }
    assert m.Keys == c.runs.Keys;
    forall q, r | q in m && r in m && m[q] == m[r]
      ensures q == r
    {
      SamePickleSameScenario(c, q, r);
    }
    Onto(m, c.pickles.Keys);
  }

  lemma ScenariosBiject(c: Stream, s: Snapshot)
    requires Complete(c, s) && RunsFit(c, s)
    ensures Bijects(c, ScenarioIDs(c), Elements(Map(s.scenarios, IDOfScenario))) && DistinctBy(s.scenarios, IDOfScenario)
  {
    hide RunFits, ScenarioIDOf, Bijects;
    var m, ids := ScenarioIDs(c), Map(s.scenarios, IDOfScenario);
    forall run | run in c.runs
      ensures ScenarioIDOf(c, run).Some? && ScenarioIDOf(c, run).value in Elements(ids)
    {
      RunsHaveEverything(c, s, run);
      ExpectedIsListed(s.scenarios, ScenarioIDOf(c, run).value);
    }
    assert m.Keys == c.runs.Keys;
    ElementsSize(ids);
    Onto(m, Elements(ids));
    assert Bijects(c, m, Elements(ids)) by {
      BijectsFrom(c, m, Elements(ids));
    }
    forall i, j | 0 <= i < j < |s.scenarios|
      ensures IDOfScenario(s.scenarios[i]) != IDOfScenario(s.scenarios[j])
    {
      assert ids[i] != ids[j];
    }
  }

  lemma BijectsFrom(c: Stream, m: map<GoString, GoString>, target: set<GoString>)
    requires m.Keys == c.runs.Keys && m.Values == target && forall q, r :: q in m && r in m && m[q] == m[r] ==> q == r
    ensures Bijects(c, m, target)
  {
  }

  lemma ExpectedIsListed(scenarios: seq<Scenario>, id: GoString)
    requires id in Expected(scenarios)
    ensures id in Elements(Map(scenarios, IDOfScenario))
  {
    ByKeyLists(scenarios, IDOfScenario);
    var sc := Expected(scenarios)[id];
    var i :| 0 <= i < |scenarios| && scenarios[i] == sc;
    assert Map(scenarios, IDOfScenario)[i] == id;
  }

  // ---------------------------------------------------------------- every step ran and passed

  /** A run's results are for exactly the steps of its case, all passed, and the source steps among
      them are the scenario's texts in order. */
  ghost predicate RunIsEvidence(c: Stream, s: Snapshot, run: GoString) {
    exists sc :: sc in s.scenarios && ScenarioIDOf(c, run) == Some(sc.id)
      && CaseOf(c, run).Some? && PickleOf(c, run).Some?
      && var tc := CaseOf(c, run).value;
         && StepNames(c, run) == Elements(Map(tc.steps, TestStepID)) && DistinctBy(tc.steps, TestStepID)
         && (forall step :: step in StepNames(c, run) ==> Passed(c.steps[StepKey(run, step)].result))
         && Map(sc.steps, PassedStep) == SourceSteps(PickleOf(c, run).value, tc.steps)
         && exists r :: r in s.verification.cases && r == Result(sc.id, "passed", Decimal(Nanos(c, run, tc.steps)), Map(sc.steps, PassedStep))
  }

  lemma StepsAreCovered(c: Stream, run: GoString, tc: TestCase, p: Pickle, sc: Scenario)
    requires CaseFits(c, run, tc, p, sc)
    ensures StepNames(c, run) == Elements(Map(tc.steps, TestStepID))
  {
    hide TestStepFits, SourceSteps;
    var ids := Map(tc.steps, TestStepID);
    forall i | 0 <= i < |ids|
      ensures ids[i] in StepNames(c, run)
    {
      FitsHasResult(c, run, p, tc.steps[i]);
    }
    assert Distinct(ids);
    ElementsSize(ids);
    SubsetSize(Elements(ids), StepNames(c, run));
  }

  lemma FitsHasResult(c: Stream, run: GoString, p: Pickle, step: TestStep)
    requires TestStepFits(c, run, p, step)
    ensures step.id in StepNames(c, run)
  {
  }

  lemma EveryRunIsEvidence(messages: seq<Envelope>, s: Snapshot, run: GoString)
    requires Validates(messages, s) && run in StreamOf(messages).runs
    ensures RunIsEvidence(StreamOf(messages), s, run)
  {
    hide Readable, StreamOf, PickleFits, SourcesMatch, AttestedOnce, ScenarioIDOf, CaseOf, PickleOf, SourceSteps, Nanos;
    var c := StreamOf(messages);
    assert RunFits(c, s, run);
    RunsHaveEverything(c, s, run);
    var tc, p, sc := CaseOf(c, run).value, PickleOf(c, run).value, Expected(s.scenarios)[ScenarioIDOf(c, run).value];
    ByKeyLists(s.scenarios, IDOfScenario);
    StepsAreCovered(c, run, tc, p, sc);
    forall step | step in StepNames(c, run)
      ensures Passed(c.steps[StepKey(run, step)].result)
    {
      CollectedStepsPassed(messages, StepKey(run, step));
    }
    assert ResultOf(c, run) in s.verification.cases;
  }

  /** An accepted stream is complete evidence: runs, cases, pickles, completions and scenarios stand
      in bijection, every run covers exactly its case's steps, all passed, with the scenario's texts
      in order, and the snapshot's verification cases are the results of the runs, one each. */
  lemma EvidenceIsComplete(messages: seq<Envelope>, s: Snapshot)
    requires Validates(messages, s)
    ensures var c := StreamOf(messages);
            && DistinctBy(s.scenarios, IDOfScenario)
            && Bijects(c, CaseIDs(c), c.cases.Keys) && Bijects(c, PickleIDs(c), c.pickles.Keys)
            && Bijects(c, ScenarioIDs(c), Elements(Map(s.scenarios, IDOfScenario)))
            && c.finished.Keys == c.runs.Keys
            && (forall run :: run in c.runs ==> RunIsEvidence(c, s, run))
            && DistinctBy(s.verification.cases, IDOfResult)
            && Elements(Map(s.verification.cases, IDOfResult)) == Elements(Map(s.scenarios, IDOfScenario))
  {
    hide Readable, StreamOf, RunFits, RunIsEvidence, Bijects, SourcesMatch, ScenarioIDOf, CaseOf, PickleOf;
    var c := StreamOf(messages);
    RunsBiject(c, s);
    forall run | run in c.runs
      ensures RunIsEvidence(c, s, run)
    {
      EveryRunIsEvidence(messages, s, run);
    }
    CasesAreResults(c, s);
  }

  lemma CasesAreResults(c: Stream, s: Snapshot)
    requires Accepted(c, s)
    ensures DistinctBy(s.verification.cases, IDOfResult)
    ensures Elements(Map(s.verification.cases, IDOfResult)) == Elements(Map(s.scenarios, IDOfScenario))
  {
    hide RunsFit, SourcesMatch, ScenarioIDOf, CaseOf, PickleOf, ResultOf;
    ScenariosBiject(c, s);
    var cases, m := s.verification.cases, ScenarioIDs(c);
    forall run | run in c.runs
      ensures run in m && m[run] in Elements(Map(cases, IDOfResult))
    {
      RunsHaveEverything(c, s, run);
      ResultNames(c, run);
    }
    KeysAreDistinct(cases, IDOfResult, m);
  }

  lemma ResultNames(c: Stream, run: GoString)
    requires PickleOf(c, run).Some? && ScenarioIDOf(c, run).Some?
    ensures ResultOf(c, run).scenarioID == ScenarioIDOf(c, run).value
  {
  }

  /** A list whose keys include as many different ones as it has positions repeats none. */
  lemma KeysAreDistinct<T>(list: seq<T>, key: T -> GoString, m: map<GoString, GoString>)
    requires |m| == |list| && m.Values <= Elements(Map(list, key))
    requires forall q, r :: q in m && r in m && m[q] == m[r] ==> q == r
    ensures DistinctBy(list, key) && Elements(Map(list, key)) == m.Values
  {
    var keys := Map(list, key);
    ElementsSize(keys);
    Onto(m, Elements(keys));
    forall i, j | 0 <= i < j < |list|
      ensures key(list[i]) != key(list[j])
    {
      assert keys[i] != keys[j];
    }
  }
}
