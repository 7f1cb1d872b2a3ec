/** `ValidateMessages`: one scan fills the tables, then every run is checked against the snapshot,
    in whatever order the table of runs yields them. */
module ExecutionValidator {
  import opened GoStrings
  import opened Options
  import opened Collections
  import opened Snapshots
  import opened Catalogues
  import opened ExecutionStream
  import opened ExecutionEvidence
  import opened EvidenceFacts

  // ---------------------------------------------------------------- one message

  /** Whether a message ends the scan, given what has been collected. */
  predicate Refused(c: Stream, m: Envelope) {
    Fatal(m) ||
    match m
    case SourceRead(file) => file.uri in c.sources
    case PickleMade(pickle) => pickle.id in c.pickles
    case CaseMade(testCase) => testCase.id in c.cases
    case CaseStarted(started) => started.id in c.runs
    case CaseFinished(id, _) => id in c.finished
    case DefinitionMade(id) => id in c.definitions
    case StepFinished(step) => step.key in c.steps
    case _ => false
  }

  function Collect(c: Stream, m: Envelope): Stream {
    Stream(
      if m.SourceRead? then c.sources[m.file.uri := m.file] else c.sources,
      if m.PickleMade? then c.pickles[m.pickle.id := m.pickle] else c.pickles,
      if m.CaseMade? then c.cases[m.testCase.id := m.testCase] else c.cases,
      if m.CaseStarted? then c.runs[m.started.id := m.started] else c.runs,
      if m.CaseFinished? then c.finished[m.startedID := m.startedID] else c.finished,
      if m.DefinitionMade? then c.definitions[m.definitionID := m.definitionID] else c.definitions,
      if m.StepFinished? then c.steps[m.step.key := m.step] else c.steps,
      if m.Attached? && m.mediaType == FIXTURE then c.receipts + multiset{m.receipt} else c.receipts,
      if m.RunStarted? then c.starts + 1 else c.starts,
      if m.RunFinished? then c.ends + 1 else c.ends)
  }

  /** One more message adds at most one row, which is new or ends the scan. */
  lemma RowAdded<T, K>(messages: seq<Envelope>, m: Envelope, f: Envelope -> seq<T>, key: T -> K)
    requires |f(m)| <= 1 && DistinctBy(FlatMap(messages, f), key)
    ensures var before, after := FlatMap(messages, f), FlatMap(messages + [m], f);
            if f(m) == [] then after == before
            else ByKey(after, key) == ByKey(before, key)[key(f(m)[0]) := f(m)[0]]
                 && (DistinctBy(after, key) <==> key(f(m)[0]) !in ByKey(before, key))
  {
    FlatMapOneMore(messages, m, f);
    if f(m) != [] {
      assert f(m) == [f(m)[0]];
      ByKeyOneMore(FlatMap(messages, f), f(m)[0], key);
      DistinctByOneMore(FlatMap(messages, f), f(m)[0], key);
    }
  }

  lemma CountAdded<T>(messages: seq<Envelope>, m: Envelope, f: Envelope -> seq<T>)
    ensures FlatMap(messages + [m], f) == FlatMap(messages, f) + f(m)
  {
    FlatMapOneMore(messages, m, f);
  }

  lemma NextIsReadable(messages: seq<Envelope>, m: Envelope)
    requires Readable(messages)
    ensures Readable(messages + [m]) <==> !Refused(StreamOf(messages), m)
  {
    hide FlatMap, ByKey, DistinctBy, Fatal;
    RowAdded(messages, m, SourceIn, SourceURI);
    RowAdded(messages, m, PickleIn, PickleID);
    RowAdded(messages, m, CaseIn, CaseID);
    RowAdded(messages, m, StartedIn, StartedID);
    RowAdded(messages, m, FinishedIn, Itself);
    RowAdded(messages, m, DefinitionIn, Itself);
    RowAdded(messages, m, StepIn, StepDoneKey);
    assert m in messages + [m];
  }

  lemma TableAdded<T, K>(messages: seq<Envelope>, m: Envelope, f: Envelope -> seq<T>, key: T -> K)
    requires |f(m)| <= 1
    ensures var before, after := ByKey(FlatMap(messages, f), key), ByKey(FlatMap(messages + [m], f), key);
            after == if f(m) == [] then before else before[key(f(m)[0]) := f(m)[0]]
  {
    hide FlatMap, ByKey;
    FlatMapOneMore(messages, m, f);
    if f(m) == [] {
      assert FlatMap(messages, f) + f(m) == FlatMap(messages, f);
    } else {
      assert f(m) == [f(m)[0]];
      ByKeyOneMore(FlatMap(messages, f), f(m)[0], key);
    }
  }

  lemma NextSourceTables(messages: seq<Envelope>, m: Envelope)
    ensures var c, d := Collect(StreamOf(messages), m), StreamOf(messages + [m]);
            d.sources == c.sources && d.pickles == c.pickles && d.cases == c.cases
  {
    hide FlatMap, ByKey;
    TableAdded(messages, m, SourceIn, SourceURI);
    TableAdded(messages, m, PickleIn, PickleID);
    TableAdded(messages, m, CaseIn, CaseID);
  }

  lemma NextRunTables(messages: seq<Envelope>, m: Envelope)
    ensures var c, d := Collect(StreamOf(messages), m), StreamOf(messages + [m]);
            d.runs == c.runs && d.finished == c.finished && d.definitions == c.definitions && d.steps == c.steps
  {
    hide FlatMap, ByKey;
    TableAdded(messages, m, StartedIn, StartedID);
    TableAdded(messages, m, FinishedIn, Itself);
    TableAdded(messages, m, DefinitionIn, Itself);
    TableAdded(messages, m, StepIn, StepDoneKey);
  }

  lemma NextCounts(messages: seq<Envelope>, m: Envelope)
    ensures var c, d := Collect(StreamOf(messages), m), StreamOf(messages + [m]);
            d.receipts == c.receipts && d.starts == c.starts && d.ends == c.ends
  {
    hide FlatMap, ByKey;
    CountAdded(messages, m, ReceiptIn);
    CountAdded(messages, m, StartIn);
    CountAdded(messages, m, EndIn);
  }

  lemma NextStream(messages: seq<Envelope>, m: Envelope)
    ensures StreamOf(messages + [m]) == Collect(StreamOf(messages), m)
  {
    hide StreamOf, Collect;
    NextSourceTables(messages, m);
    NextRunTables(messages, m);
    NextCounts(messages, m);
  }

  lemma FrontDistinct<T, K>(messages: seq<Envelope>, m: Envelope, f: Envelope -> seq<T>, key: T -> K)
    requires DistinctBy(FlatMap(messages + [m], f), key)
    ensures DistinctBy(FlatMap(messages, f), key)
  {
    FlatMapOneMore(messages, m, f);
    DistinctByConcat(FlatMap(messages, f), f(m), key);
  }

  lemma ReadableFront(messages: seq<Envelope>, m: Envelope)
    requires Readable(messages + [m])
    ensures Readable(messages)
  {
    hide FlatMap, ByKey, DistinctBy, Fatal;
    FrontDistinct(messages, m, SourceIn, SourceURI);
    FrontDistinct(messages, m, PickleIn, PickleID);
    FrontDistinct(messages, m, CaseIn, CaseID);
    FrontDistinct(messages, m, StartedIn, StartedID);
    FrontDistinct(messages, m, FinishedIn, Itself);
    FrontDistinct(messages, m, DefinitionIn, Itself);
    FrontDistinct(messages, m, StepIn, StepDoneKey);
    assert forall x :: x in messages ==> x in messages + [m];
  }

  lemma {:induction false} ReadableSoFar(messages: seq<Envelope>, n: nat)
    requires n <= |messages|
    ensures Readable(messages) ==> Readable(messages[..n])
  {
    hide Readable;
    if n < |messages| {
      var front := messages[..|messages| - 1];
      assert front[..n] == messages[..n];
      ReadableSoFar(front, n);
      assert messages == front + [messages[|messages| - 1]];
      if Readable(messages) {
        ReadableFront(front, messages[|messages| - 1]);
      }
    } else {
      assert messages[..n] == messages;
    }
  }

  lemma NothingIsReadable()
    ensures Readable([]) && StreamOf([]) == Stream(map[], map[], map[], map[], map[], map[], map[], multiset{}, 0, 0)
  {
  }

  method ScanMessages(decode: GoString -> Envelope, lines: seq<GoString>) returns (ok: bool, c: Stream)
    ensures ok <==> Readable(Envelopes(decode, lines))
    ensures ok ==> c == StreamOf(Envelopes(decode, lines))
  {
    hide Readable, StreamOf, Fatal, LineRead;
    ghost var messages := Envelopes(decode, lines);
    c := Stream(map[], map[], map[], map[], map[], map[], map[], multiset{}, 0, 0);
    NothingIsReadable();
    assert messages[..0] == [];
    for i := 0 to |lines|
      invariant Readable(messages[..i]) && c == StreamOf(messages[..i])
    {
      var m := LineRead(decode, lines[i]);
      assert messages[..i + 1] == messages[..i] + [m];
      NextIsReadable(messages[..i], m);
      if Refused(c, m) {
        ReadableSoFar(messages, i + 1);
        return false, c;
      }
      NextStream(messages[..i], m);
      c := Collect(c, m);
    }
    assert messages[..|messages|] == messages;
    ok := true;
  }

  // ---------------------------------------------------------------- one run

  method ReadScenarioTag(tags: seq<GoString>) returns (id: Option<GoString>)
    ensures id == if |ScenarioTags(tags)| == 1 then Some(ScenarioTags(tags)[0]) else None
  {
    hide HasPrefix;
    var ids: seq<GoString> := [];
    for i := 0 to |tags|
      invariant ids == ScenarioTags(tags[..i])
    {
      assert tags[..i + 1] == tags[..i] + [tags[i]];
      FlatMapOneMore(tags[..i], tags[i], ScenarioTag);
      if HasPrefix(tags[i], SCENARIO_TAG) {
        TagIsLonger(tags[i]);
        ids := ids + [tags[i][|ID_TAG|..]];
      }
    }
    assert tags[..|tags|] == tags;
    if |ids| != 1 {
      return None;
    }
    return Some(ids[0]);
  }

  lemma TagIsLonger(tag: GoString)
    requires HasPrefix(tag, SCENARIO_TAG)
    ensures |ID_TAG| <= |tag|
  {
  }

  method CheckPickle(p: Pickle, paths: map<GoString, Document>, sc: Scenario) returns (ok: bool, steps: map<GoString, PickleStep>)
    ensures ok <==> PickleFits(p, paths, sc)
    ensures ok ==> steps == PickleStepTable(p)
  {
    hide ByKey, FlatMap, DistinctBy;
    steps := map[];
    if p.uri !in paths || paths[p.uri].id != sc.featureID || p.name != sc.name || p.language != "en" || |p.steps| != |sc.steps| {
      return false, steps;
    }
    NoPickleSteps(p);
    for i := 0 to |p.steps|
      invariant forall k :: 0 <= k < i ==> PickleStepFits(p.steps[k], sc.steps[k])
      invariant DistinctBy(FlatMap(p.steps[..i], Present), PickleStepID)
      invariant steps == ByKey(FlatMap(p.steps[..i], Present), PickleStepID)
    {
      if !PickleStepFits(p.steps[i], sc.steps[i]) {
        return false, steps;
      }
      var step := p.steps[i].value;
      PickleStepAdded(p, i);
      if step.id in steps {
        return false, steps;
      }
      steps := steps[step.id := step];
    }
    assert p.steps[..|p.steps|] == p.steps;
    ok := true;
  }

  lemma NoPickleSteps(p: Pickle)
    ensures DistinctBy(FlatMap(p.steps[..0], Present), PickleStepID) && ByKey(FlatMap(p.steps[..0], Present), PickleStepID) == map[]
  {
  }

  lemma PickleStepAdded(p: Pickle, i: nat)
    requires i < |p.steps| && p.steps[i].Some? && DistinctBy(FlatMap(p.steps[..i], Present), PickleStepID)
    ensures var before, after, step := FlatMap(p.steps[..i], Present), FlatMap(p.steps[..i + 1], Present), p.steps[i].value;
            && ByKey(after, PickleStepID) == ByKey(before, PickleStepID)[step.id := step]
            && (if step.id in ByKey(before, PickleStepID) then !DistinctBy(PickleSteps(p), PickleStepID) else DistinctBy(after, PickleStepID))
  {
    hide ByKey;
    assert p.steps[..i + 1] == p.steps[..i] + [p.steps[i]];
    FlatMapOneMore(p.steps[..i], p.steps[i], Present);
    ByKeyOneMore(FlatMap(p.steps[..i], Present), p.steps[i].value, PickleStepID);
    DistinctByOneMore(FlatMap(p.steps[..i], Present), p.steps[i].value, PickleStepID);
    FlatMapPrefix(p.steps, i + 1, Present);
    if p.steps[i].value.id in ByKey(FlatMap(p.steps[..i], Present), PickleStepID) {
      var after := FlatMap(p.steps[..i + 1], Present);
      assert PickleSteps(p) == after + PickleSteps(p)[|after|..];
      DistinctByConcat(after, PickleSteps(p)[|after|..], PickleStepID);
    }
  }

  lemma {:induction false} FlatMapPrefix<T, U>(s: seq<T>, n: nat, f: T -> seq<U>)
    requires n <= |s|
    ensures FlatMap(s[..n], f) <= FlatMap(s, f)
  {
    if n < |s| {
      var front := s[..|s| - 1];
      assert front[..n] == s[..n];
      FlatMapPrefix(front, n, f);
    } else {
      assert s[..n] == s;
    }
  }

  method CheckStep(c: Stream, run: GoString, p: Pickle, pickleSteps: map<GoString, PickleStep>, step: TestStep)
    returns (ok: bool, source: seq<ResultStep>, nanos: nat)
    requires pickleSteps == PickleStepTable(p)
    ensures ok <==> TestStepFits(c, run, p, step)
    ensures ok ==> source == SourceStep(p)(step) && nanos == StepNanos(c, run, step)
  {
    hide PickleStepTable;
    var duration := DurationOf(c, run, step);
    if StepKey(run, step.id) !in c.steps || !ValidDuration(duration) {
      return false, [], 0;
    }
    nanos := duration.value.seconds * 1_000_000_000 + duration.value.nanos;
    if step.pickleStepID != "" {
      if |step.definitionIDs| != 1 || step.definitionIDs[0] !in c.definitions || step.pickleStepID !in pickleSteps {
        return false, [], 0;
      }
      return true, [ResultStep(pickleSteps[step.pickleStepID].text, "passed")], nanos;
    }
    return step.hookID != "", [], nanos;
  }

  method CheckSteps(c: Stream, run: GoString, tc: TestCase, p: Pickle, pickleSteps: map<GoString, PickleStep>)
    returns (ok: bool, steps: seq<ResultStep>, nanos: nat)
    requires pickleSteps == PickleStepTable(p)
    ensures ok <==> DistinctBy(tc.steps, TestStepID) && forall step :: step in tc.steps ==> TestStepFits(c, run, p, step)
    ensures ok ==> steps == SourceSteps(p, tc.steps) && nanos == Nanos(c, run, tc.steps)
  {
    hide DistinctBy, Elements, PickleStepTable, TestStepFits, SourceStep, StepNanos, FlatMap;
    steps, nanos := [], 0;
    var seen: set<GoString> := {};
    NoSteps(c, run, p, tc.steps);
    for i := 0 to |tc.steps|
      invariant seen == Elements(Map(tc.steps[..i], TestStepID)) && DistinctBy(tc.steps[..i], TestStepID)
      invariant forall k :: 0 <= k < i ==> TestStepFits(c, run, p, tc.steps[k])
      invariant steps == SourceSteps(p, tc.steps[..i]) && nanos == Nanos(c, run, tc.steps[..i])
    {
      var step := tc.steps[i];
      SeenKeyOneMore(tc.steps, i);
      assert tc.steps[..i + 1] == tc.steps[..i] + [step];
      FlatMapOneMore(tc.steps[..i], step, SourceStep(p));
      assert tc.steps[..i + 1][..i] == tc.steps[..i];
      assert step in tc.steps;
      var fits, source, time := CheckStep(c, run, p, pickleSteps, step);
      if !fits || step.id in seen {
        return false, steps, nanos;
      }
      seen := seen + {step.id};
      nanos := nanos + time;
      steps := steps + source;
    }
    assert tc.steps[..|tc.steps|] == tc.steps;
    ok := true;
  }

  lemma NoSteps(c: Stream, run: GoString, p: Pickle, steps: seq<TestStep>)
    ensures Elements(Map(steps[..0], TestStepID)) == {} && DistinctBy(steps[..0], TestStepID)
    ensures SourceSteps(p, steps[..0]) == [] && Nanos(c, run, steps[..0]) == 0
  {
  }

  lemma SeenKeyOneMore(steps: seq<TestStep>, i: nat)
    requires i < |steps| && DistinctBy(steps[..i], TestStepID)
    ensures Elements(Map(steps[..i + 1], TestStepID)) == Elements(Map(steps[..i], TestStepID)) + {steps[i].id}
    ensures if steps[i].id in Elements(Map(steps[..i], TestStepID)) then !DistinctBy(steps, TestStepID)
            else DistinctBy(steps[..i + 1], TestStepID)
  {
    var seen := Map(steps[..i], TestStepID);
    assert Map(steps[..i + 1], TestStepID) == seen + [steps[i].id];
    if steps[i].id in seen {
      var k :| 0 <= k < i && seen[k] == steps[i].id;
      assert TestStepID(steps[k]) == TestStepID(steps[i]);
    } else {
      assert forall k :: 0 <= k < i ==> seen[k] == TestStepID(steps[k]);
    }
  }

  method SameTexts(steps: seq<ResultStep>, sc: Scenario) returns (ok: bool)
    requires forall step :: step in steps ==> step.status == "passed"
    ensures ok <==> steps == Map(sc.steps, PassedStep)
  {
    if |steps| != |sc.steps| {
      return false;
    }
    for i := 0 to |steps|
      invariant forall k :: 0 <= k < i ==> steps[k] == PassedStep(sc.steps[k])
    {
      assert steps[i].status == "passed";
      if steps[i].text != sc.steps[i].text {
        assert steps[i] != Map(sc.steps, PassedStep)[i];
        return false;
      }
    }
    ok := true;
  }

  lemma {:induction false} SourceStepsPassed(p: Pickle, steps: seq<TestStep>)
    ensures forall step :: step in SourceSteps(p, steps) ==> step.status == "passed"
  {
    hide PickleStepTable;
    if steps != [] {
      SourceStepsPassed(p, steps[..|steps| - 1]);
    }
  }

  /** Checks one run and builds its result. */
  method CheckRun(c: Stream, s: Snapshot, run: GoString, paths: map<GoString, Document>, expected: map<GoString, Scenario>)
    returns (ok: bool, result: Result)
    requires run in c.runs && paths == FeaturePaths(s.documents) && expected == Expected(s.scenarios)
    ensures ok <==> RunFits(c, s, run)
    ensures ok ==> PickleOf(c, run).Some? && ScenarioIDOf(c, run).Some? && result == ResultOf(c, run)
  {
    hide PickleFits, CaseFits, AttestedOnce, FeaturePaths, Expected, Nanos, Decimal, SourceSteps, TestStepFits, DistinctBy, StepNames, ScenarioTags;
    result := Result("", "", "", []);
    if c.runs[run].testCaseID !in c.cases || run !in c.finished {
      return false, result;
    }
    var tc := c.cases[c.runs[run].testCaseID];
    if tc.pickleID !in c.pickles {
      return false, result;
    }
    var p := c.pickles[tc.pickleID];
    var id := ReadScenarioTag(p.tags);
    if id.None? || id.value !in expected {
      return false, result;
    }
    var sc := expected[id.value];
    var fits, pickleSteps := CheckPickle(p, paths, sc);
    if !fits {
      return false, result;
    }
    var steps, nanos;
    fits, steps, nanos := CheckCase(c, run, tc, p, pickleSteps, sc);
    if !fits || !AttestedOnce(c.receipts, run) {
      return false, result;
    }
    ok, result := true, Result(id.value, "passed", Decimal(nanos), steps);
  }

  method CheckCase(c: Stream, run: GoString, tc: TestCase, p: Pickle, pickleSteps: map<GoString, PickleStep>, sc: Scenario)
    returns (ok: bool, steps: seq<ResultStep>, nanos: nat)
    requires pickleSteps == PickleStepTable(p)
    ensures ok <==> CaseFits(c, run, tc, p, sc)
    ensures ok ==> steps == SourceSteps(p, tc.steps) && nanos == Nanos(c, run, tc.steps)
  {
    hide TestStepFits, DistinctBy, StepNames, SourceSteps, Nanos, PickleStepTable;
    if |StepNames(c, run)| != |tc.steps| {
      return false, [], 0;
    }
    ok, steps, nanos := CheckSteps(c, run, tc, p, pickleSteps);
    if ok {
      SourceStepsPassed(p, tc.steps);
      ok := SameTexts(steps, sc);
    }
  }

  // ---------------------------------------------------------------- all runs

  /** The checked runs fit and have distinct scenarios. */
  ghost predicate DoneFit(c: Stream, s: Snapshot, done: set<GoString>) {
    && done <= c.runs.Keys
    && (forall run :: run in done ==> RunFits(c, s, run) && ScenarioIDOf(c, run).Some? && PickleOf(c, run).Some?)
    && (forall q, r :: q in done && r in done && ScenarioIDOf(c, q) == ScenarioIDOf(c, r) ==> q == r)
  }

  /** Exactly their scenario ids have been seen. */
  ghost predicate SeenAre(c: Stream, done: set<GoString>, seen: set<GoString>) {
    && (forall run :: run in done ==> ScenarioIDOf(c, run).Some? && ScenarioIDOf(c, run).value in seen)
    && (forall id :: id in seen ==> exists run :: run in done && ScenarioIDOf(c, run) == Some(id))
  }

  /** Exactly their results have been collected. */
  ghost predicate ResultsAre(c: Stream, done: set<GoString>, seen: set<GoString>, results: seq<Result>) {
    && |results| == |done| && DistinctBy(results, IDOfResult)
    && (forall run :: run in done ==> PickleOf(c, run).Some? && ScenarioIDOf(c, run).Some? && ResultOf(c, run) in results)
    && (forall r :: r in results ==> r.scenarioID in seen)
  }

  /** What has been established once the runs of `done` have been checked. */
  ghost predicate Checked(c: Stream, s: Snapshot, done: set<GoString>, seen: set<GoString>, results: seq<Result>) {
    DoneFit(c, s, done) && SeenAre(c, done, seen) && ResultsAre(c, done, seen, results)
  }

  lemma ResultsOneMore(c: Stream, done: set<GoString>, seen: set<GoString>, results: seq<Result>, run: GoString)
    requires ResultsAre(c, done, seen, results) && run !in done
    requires PickleOf(c, run).Some? && ScenarioIDOf(c, run).Some? && ScenarioIDOf(c, run).value !in seen
    ensures ResultsAre(c, done + {run}, seen + {ScenarioIDOf(c, run).value}, results + [ResultOf(c, run)])
  {
    hide ScenarioIDOf, PickleOf, ResultOf, DistinctBy;
    ResultNames(c, run);
    DistinctByConcat(results, [ResultOf(c, run)], IDOfResult);
    assert DistinctBy([ResultOf(c, run)], IDOfResult) by {
      SingletonIsDistinct(ResultOf(c, run));
    }
  }

  lemma SingletonIsDistinct(r: Result)
    ensures DistinctBy([r], IDOfResult)
  {
  }

  lemma CheckedOneMore(c: Stream, s: Snapshot, done: set<GoString>, seen: set<GoString>, results: seq<Result>, run: GoString)
    requires Checked(c, s, done, seen, results) && run in c.runs && run !in done && RunFits(c, s, run)
    requires PickleOf(c, run).Some? && ScenarioIDOf(c, run).Some? && ScenarioIDOf(c, run).value !in seen
    ensures Checked(c, s, done + {run}, seen + {ScenarioIDOf(c, run).value}, results + [ResultOf(c, run)])
  {
    hide RunFits, ScenarioIDOf, PickleOf, ResultOf, ResultsAre;
    ResultsOneMore(c, done, seen, results, run);
  }

  /** Two lists without repeated keys sort to the same list exactly when they have the same elements. */
  lemma SortedAlike(results: seq<Result>, cases: seq<Result>)
    requires DistinctBy(results, IDOfResult)
    ensures Sort(results, IDOfResult) == Sort(cases, IDOfResult) <==>
              |cases| == |results| && forall r :: r in results ==> r in cases
  {
    hide Sort;
    SortSorts(results, IDOfResult);
    SortSorts(cases, IDOfResult);
    if Sort(results, IDOfResult) == Sort(cases, IDOfResult) {
      SameMembers(results, cases);
    }
    if |cases| == |results| && forall r :: r in results ==> r in cases {
      SameElementsSameCounts(results, cases);
      SortIsOrderFree(results, cases, IDOfResult);
    }
  }

  lemma SameElementsSameCounts(results: seq<Result>, cases: seq<Result>)
    requires DistinctBy(results, IDOfResult) && |cases| == |results| && forall r :: r in results ==> r in cases
    ensures multiset(results) == multiset(cases)
  {
    assert Distinct(results);
    ListOnto(results, cases);
    CountOnce(results);
    CountOnce(cases);
    forall x
      ensures multiset(results)[x] == multiset(cases)[x]
    {
      assert x in results <==> x in Elements(results);
      assert x in cases <==> x in Elements(cases);
      assert x in results <==> x in multiset(results);
      assert x in cases <==> x in multiset(cases);
    }
  }

  method CheckRuns(c: Stream, s: Snapshot) returns (ok: bool, results: seq<Result>)
    ensures ok <==> RunsFit(c, s)
    ensures ok ==> exists seen :: Checked(c, s, c.runs.Keys, seen, results)
  {
    hide RunFits, ScenarioIDOf, PickleOf, Checked, FeaturePaths, Expected;
    var paths, expected := FeaturePaths(s.documents), Expected(s.scenarios);
    var remaining, seen: set<GoString> := c.runs.Keys, {};
    results := [];
    NothingChecked(c, s);
    ghost var done: set<GoString> := {};
    while remaining != {}
      invariant done + remaining == c.runs.Keys && done !! remaining
      invariant Checked(c, s, done, seen, results)
      decreases |remaining|
    {
      var run :| run in remaining;
      var fits, result := CheckRun(c, s, run, paths, expected);
      if !fits {
        return false, results;
      }
      ResultNames(c, run);
      if result.scenarioID in seen {
        SeenTwice(c, s, done, seen, results, run);
        return false, results;
      }
      CheckedOneMore(c, s, done, seen, results, run);
      seen := seen + {result.scenarioID};
      results := results + [result];
      remaining := remaining - {run};
      done := done + {run};
    }
    assert done == c.runs.Keys;
    CheckedAll(c, s, seen, results);
    ok := true;
  }

  lemma NothingChecked(c: Stream, s: Snapshot)
    ensures Checked(c, s, {}, {}, [])
  {
  }

  lemma SeenTwice(c: Stream, s: Snapshot, done: set<GoString>, seen: set<GoString>, results: seq<Result>, run: GoString)
    requires Checked(c, s, done, seen, results) && run in c.runs && run !in done && ScenarioIDOf(c, run).Some?
    requires ScenarioIDOf(c, run).value in seen
    ensures !RunsFit(c, s)
  {
    hide RunFits, ScenarioIDOf, PickleOf;
  }

  lemma CheckedAll(c: Stream, s: Snapshot, seen: set<GoString>, results: seq<Result>)
    requires Checked(c, s, c.runs.Keys, seen, results)
    ensures RunsFit(c, s)
  {
    hide RunFits, ScenarioIDOf, PickleOf;
  }

  lemma ResultIsOfRun(c: Stream, s: Snapshot, seen: set<GoString>, results: seq<Result>, r: Result) returns (run: GoString)
    requires Checked(c, s, c.runs.Keys, seen, results) && r in results
    ensures run in c.runs && ScenarioIDOf(c, run).Some? && PickleOf(c, run).Some? && r == ResultOf(c, run)
  {
    hide RunFits, ScenarioIDOf, PickleOf, ResultOf;
    run :| run in c.runs && ScenarioIDOf(c, run) == Some(r.scenarioID);
    ResultNames(c, run);
    SameKeySameElement(results, r, ResultOf(c, run));
  }

  lemma SameKeySameElement(results: seq<Result>, q: Result, r: Result)
    requires DistinctBy(results, IDOfResult) && q in results && r in results && q.scenarioID == r.scenarioID
    ensures q == r
  {
    var i :| 0 <= i < |results| && results[i] == q;
    var j :| 0 <= j < |results| && results[j] == r;
    assert IDOfResult(results[i]) == IDOfResult(results[j]);
  }

  lemma CheckedMatches(c: Stream, s: Snapshot, seen: set<GoString>, results: seq<Result>, cases: seq<Result>)
    requires Checked(c, s, c.runs.Keys, seen, results)
    ensures ResultsMatch(c, cases) <==> |cases| == |results| && forall r :: r in results ==> r in cases
  {
    hide Checked, ScenarioIDOf, PickleOf, ResultOf;
    CheckedCounts(c, s, seen, results);
    if ResultsMatch(c, cases) {
      forall r | r in results
        ensures r in cases
      {
        var run := ResultIsOfRun(c, s, seen, results, r);
      }
    }
    if forall r :: r in results ==> r in cases {
      forall run | run in c.runs && ScenarioIDOf(c, run).Some?
        ensures ResultOf(c, run) in cases
      {
        ResultIsCollected(c, s, seen, results, run);
      }
    }
  }

  lemma CheckedCounts(c: Stream, s: Snapshot, seen: set<GoString>, results: seq<Result>)
    requires Checked(c, s, c.runs.Keys, seen, results)
    ensures |results| == |c.runs|
    ensures forall run :: run in c.runs ==> PickleOf(c, run).Some? && ScenarioIDOf(c, run).Some?
  {
    hide RunFits, ScenarioIDOf, PickleOf, ResultOf, DistinctBy, SeenAre;
  }

  lemma ResultIsCollected(c: Stream, s: Snapshot, seen: set<GoString>, results: seq<Result>, run: GoString)
    requires Checked(c, s, c.runs.Keys, seen, results) && run in c.runs
    ensures PickleOf(c, run).Some? && ScenarioIDOf(c, run).Some? && ResultOf(c, run) in results
  {
    hide DoneFit, SeenAre, ScenarioIDOf, PickleOf, ResultOf, DistinctBy;
  }

  method SourcesMatchIn(c: Stream, documents: seq<Document>) returns (ok: bool)
    ensures ok <==> SourcesMatch(c, documents)
  {
    for i := 0 to |documents|
      invariant forall k :: 0 <= k < i && documents[k].kind == FeatureKind ==>
                  documents[k].path in c.sources && c.sources[documents[k].path].data == documents[k].content
    {
      var d := documents[i];
      if d.kind == FeatureKind && (d.path !in c.sources || c.sources[d.path].data != d.content) {
        return false;
      }
    }
    ok := |c.sources| == |FeaturePaths(documents)|;
  }

  method ValidateMessages(decode: GoString -> Envelope, lines: seq<GoString>, s: Snapshot) returns (ok: bool)
    ensures ok <==> Validates(Envelopes(decode, lines), s)
    ensures ok <==> Evidence(Envelopes(decode, lines), s)
    ensures ok ==> forall i :: 0 <= i < |lines| ==> |lines[i]| < 4_194_304
  {
    AcceptedIffEvidence(Envelopes(decode, lines), s);
    EvidenceFitsBuffer(decode, lines, s);
    hide Evidence, Readable, StreamOf, SourcesMatch, RunsFit, ResultsMatch, Checked;
    var read, c := ScanMessages(decode, lines);
    if !read || !Complete(c, s) {
      return false;
    }
    var sources := SourcesMatchIn(c, s.documents);
    if !sources {
      return false;
    }
    var fit, results := CheckRuns(c, s);
    if !fit {
      return false;
    }
    ghost var seen :| Checked(c, s, c.runs.Keys, seen, results);
    CheckedMatches(c, s, seen, results, s.verification.cases);
    CheckedIsDistinct(c, s, seen, results);
    SortedAlike(results, s.verification.cases);
    ok := Sort(results, IDOfResult) == Sort(s.verification.cases, IDOfResult);
  }

  /** A line that fills the scanner's buffer is refused; any other that is not blank is the message it
      decodes to. */
  lemma EvidenceFitsBuffer(decode: GoString -> Envelope, lines: seq<GoString>, s: Snapshot)
    ensures Evidence(Envelopes(decode, lines), s) ==> forall i :: 0 <= i < |lines| ==> |lines[i]| < 4_194_304
    ensures forall i :: 0 <= i < |lines| && |lines[i]| < 4_194_304 ==>
              Envelopes(decode, lines)[i] == if TrimSpace(lines[i]) == "" then Unread else decode(TrimSpace(lines[i]))
  {
    hide TrimSpace, NoClash, CountsAgree, SourcesHold, RunHolds, Runs;
    var messages := Envelopes(decode, lines);
    if Evidence(messages, s) {
      forall i | 0 <= i < |lines|
        ensures |lines[i]| < 4_194_304
      {
        assert Harmless(messages[i]) by {
          assert messages[i] in messages;
        }
      }
    }
  }

  lemma CheckedIsDistinct(c: Stream, s: Snapshot, seen: set<GoString>, results: seq<Result>)
    requires Checked(c, s, c.runs.Keys, seen, results)
    ensures DistinctBy(results, IDOfResult)
  {
  }
}
