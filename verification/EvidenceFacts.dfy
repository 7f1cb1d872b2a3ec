/** What an accepted execution stream says, read off its messages: the facts that are necessary and
    sufficient for a stream to validate a snapshot. */
module EvidenceFacts {
  import opened GoStrings
  import opened Options
  import opened Collections
  import opened Snapshots
  import opened Catalogues
  import opened ExecutionStream
  import opened ExecutionEvidence

  // ---------------------------------------------------------------- counting and single positions

  /** How many messages have the property. */
  function NumberOf<T>(list: seq<T>, p: T -> bool): nat {
    if list == [] then 0 else NumberOf(list[..|list| - 1], p) + if p(list[|list| - 1]) then 1 else 0
  }

  ghost predicate OnlyAt<T>(list: seq<T>, p: T -> bool, i: int) {
    0 <= i < |list| && p(list[i]) && forall j :: 0 <= j < |list| && p(list[j]) ==> j == i
  }

  lemma {:induction false} NoneIff<T>(list: seq<T>, p: T -> bool)
    ensures NumberOf(list, p) == 0 <==> forall j :: 0 <= j < |list| ==> !p(list[j])
  {
    if list != [] {
      NoneIff(list[..|list| - 1], p);
    }
  }

  /** One message has the property exactly when there is one position for it. */
  lemma {:induction false} OneIff<T>(list: seq<T>, p: T -> bool)
    ensures NumberOf(list, p) == 1 <==> exists i :: OnlyAt(list, p, i)
  {
    if list != [] {
      var n := |list| - 1;
      var front := list[..n];
      if p(list[n]) {
        NoneIff(front, p);
        if NumberOf(list, p) == 1 {
          assert OnlyAt(list, p, n);
        }
        if i :| OnlyAt(list, p, i) {
          assert i == n;
        }
      } else {
        OneIff(front, p);
        if i :| OnlyAt(front, p, i) {
          assert OnlyAt(list, p, i);
        }
        if i :| OnlyAt(list, p, i) {
          assert OnlyAt(front, p, i);
        }
      }
    }
  }

  /** What is flattened from elements that yield one thing or nothing is as long as they are many. */
  lemma {:induction false} FlatMapCounts<T, U>(list: seq<T>, f: T -> seq<U>, p: T -> bool)
    requires forall x :: |f(x)| == if p(x) then 1 else 0
    ensures |FlatMap(list, f)| == NumberOf(list, p)
  {
    if list != [] {
      FlatMapCounts(list[..|list| - 1], f, p);
    }
  }

  lemma {:induction false} FlatMapOfNone<T, U>(list: seq<T>, f: T -> seq<U>)
    requires forall j :: 0 <= j < |list| ==> f(list[j]) == []
    ensures FlatMap(list, f) == []
  {
    if list != [] {
      FlatMapOfNone(list[..|list| - 1], f);
    }
  }

  /** If only one element yields something, that is all there is. */
  lemma {:induction false} FlatMapOfOne<T, U>(list: seq<T>, f: T -> seq<U>, i: nat)
    requires i < |list| && forall j :: 0 <= j < |list| && j != i ==> f(list[j]) == []
    ensures FlatMap(list, f) == f(list[i])
  {
    var n := |list| - 1;
    if i < n {
      FlatMapOfOne(list[..n], f, i);
    } else {
      FlatMapOfNone(list[..n], f);
    }
  }

  /** Positions that yield something have different keys. */
  ghost predicate DifferAt<T, U, K>(list: seq<T>, f: T -> seq<U>, key: U -> K) {
    forall i, j :: 0 <= i < j < |list| && f(list[i]) != [] && f(list[j]) != [] ==> key(f(list[i])[0]) != key(f(list[j])[0])
  }

  /** Nothing yielded has the key. */
  ghost predicate Avoids<T, U, K>(list: seq<T>, f: T -> seq<U>, key: U -> K, k: K) {
    forall i :: 0 <= i < |list| && f(list[i]) != [] ==> key(f(list[i])[0]) != k
  }

  lemma {:induction false} AvoidsIff<T, U, K>(list: seq<T>, f: T -> seq<U>, key: U -> K, k: K)
    requires forall x :: |f(x)| <= 1
    ensures Avoids(list, f, key, k) <==> forall u :: u in FlatMap(list, f) ==> key(u) != k
  {
    if list != [] {
      var n := |list| - 1;
      AvoidsIff(list[..n], f, key, k);
      assert f(list[n]) != [] ==> f(list[n]) == [f(list[n])[0]];
    }
  }

  lemma DifferOneMore<T, U, K>(list: seq<T>, f: T -> seq<U>, key: U -> K)
    requires list != []
    ensures var n := |list| - 1;
            DifferAt(list, f, key) <==>
            DifferAt(list[..n], f, key) && (f(list[n]) != [] ==> Avoids(list[..n], f, key, key(f(list[n])[0])))
  {
  }

  lemma {:induction false} DistinctIffDifferAt<T, U, K>(list: seq<T>, f: T -> seq<U>, key: U -> K)
    requires forall x :: |f(x)| <= 1
    ensures DistinctBy(FlatMap(list, f), key) <==> DifferAt(list, f, key)
  {
    hide DifferAt, Avoids, DistinctBy;
    if list == [] {
      NothingDiffers(list, f, key);
    } else {
      var n := |list| - 1;
      var front, last := list[..n], f(list[n]);
      DistinctIffDifferAt(front, f, key);
      DifferOneMore(list, f, key);
      if last == [] {
        assert FlatMap(front, f) + [] == FlatMap(front, f);
      } else {
        assert last == [last[0]];
        AvoidsIff(front, f, key, key(last[0]));
        OneIsDistinct(last[0], key);
        DistinctByConcat(FlatMap(front, f), [last[0]], key);
      }
    }
  }

  lemma NothingDiffers<T, U, K>(list: seq<T>, f: T -> seq<U>, key: U -> K)
    requires list == []
    ensures DistinctBy(FlatMap(list, f), key) && DifferAt(list, f, key)
  {
  }

  lemma OneIsDistinct<U, K>(u: U, key: U -> K)
    ensures DistinctBy([u], key)
  {
  }

  // ---------------------------------------------------------------- the messages themselves

  predicate ResultPassed(result: Option<StepResult>) {
    result.Some? && result.value.status == "PASSED" && !result.value.exception
  }

  predicate Harmless(m: Envelope) {
    match m
    case Undecodable => false
    case InvalidSource => false
    case RunFinished(success, failed) => success && !failed
    case CaseStarted(started) => started.attempt == 0
    case CaseFinished(_, retried) => !retried
    case StepFinished(step) => ResultPassed(step.result)
    case RunHookFinished(result) => ResultPassed(result)
    case _ => true
  }

  /** Two messages that announce the same thing under the same id. */
  predicate Clash(a: Envelope, b: Envelope) {
    || (a.SourceRead? && b.SourceRead? && a.file.uri == b.file.uri)
    || (a.PickleMade? && b.PickleMade? && a.pickle.id == b.pickle.id)
    || (a.CaseMade? && b.CaseMade? && a.testCase.id == b.testCase.id)
    || (a.CaseStarted? && b.CaseStarted? && a.started.id == b.started.id)
    || (a.CaseFinished? && b.CaseFinished? && a.startedID == b.startedID)
    || (a.DefinitionMade? && b.DefinitionMade? && a.definitionID == b.definitionID)
    || (a.StepFinished? && b.StepFinished? && a.step.key == b.step.key)
  }

  ghost predicate NoClash(messages: seq<Envelope>) {
    forall i, j :: 0 <= i < j < |messages| ==> !Clash(messages[i], messages[j])
  }

  lemma ReadableIff(messages: seq<Envelope>)
    ensures Readable(messages) <==> (forall m :: m in messages ==> Harmless(m)) && NoClash(messages)
  {
    hide DistinctBy, FlatMap;
    DistinctIffDifferAt(messages, SourceIn, SourceURI);
    DistinctIffDifferAt(messages, PickleIn, PickleID);
    DistinctIffDifferAt(messages, CaseIn, CaseID);
    DistinctIffDifferAt(messages, StartedIn, StartedID);
    DistinctIffDifferAt(messages, FinishedIn, Itself);
    DistinctIffDifferAt(messages, DefinitionIn, Itself);
    DistinctIffDifferAt(messages, StepIn, StepDoneKey);
    HarmlessIff(messages);
    ClashIff(messages);
  }

  lemma HarmlessIff(messages: seq<Envelope>)
    ensures (forall m :: m in messages ==> !Fatal(m)) <==> (forall m :: m in messages ==> Harmless(m))
  {
    assert forall m :: Harmless(m) <==> !Fatal(m);
  }

  lemma ClashIff(messages: seq<Envelope>)
    ensures NoClash(messages) <==>
            && DifferAt(messages, SourceIn, SourceURI) && DifferAt(messages, PickleIn, PickleID)
            && DifferAt(messages, CaseIn, CaseID) && DifferAt(messages, StartedIn, StartedID)
            && DifferAt(messages, FinishedIn, Itself) && DifferAt(messages, DefinitionIn, Itself)
            && DifferAt(messages, StepIn, StepDoneKey)
  {
  }

  // ---------------------------------------------------------------- what is looked up in the messages

  lemma RowIs<T, K>(messages: seq<Envelope>, f: Envelope -> seq<T>, key: T -> K, k: K, x: T)
    requires DistinctBy(FlatMap(messages, f), key)
    ensures var table := ByKey(FlatMap(messages, f), key);
            k in table && table[k] == x <==> key(x) == k && exists m :: m in messages && x in f(m)
  {
    hide FlatMap, ByKey, DistinctBy;
    ByKeyLists(FlatMap(messages, f), key);
    InFlatMap(messages, f);
  }

  lemma SourceRow(messages: seq<Envelope>, uri: GoString, file: SourceFile)
    requires Readable(messages)
    ensures var c := StreamOf(messages); uri in c.sources && c.sources[uri] == file <==> file.uri == uri && SourceRead(file) in messages
  {
    hide FlatMap, ByKey, DistinctBy, Fatal;
    RowIs(messages, SourceIn, SourceURI, uri, file);
    assert SourceRead(file) in messages ==> file in SourceIn(SourceRead(file));
  }

  lemma PickleRow(messages: seq<Envelope>, id: GoString, p: Pickle)
    requires Readable(messages)
    ensures var c := StreamOf(messages); id in c.pickles && c.pickles[id] == p <==> p.id == id && PickleMade(p) in messages
  {
    hide FlatMap, ByKey, DistinctBy, Fatal;
    RowIs(messages, PickleIn, PickleID, id, p);
    assert PickleMade(p) in messages ==> p in PickleIn(PickleMade(p));
  }

  lemma CaseRow(messages: seq<Envelope>, id: GoString, tc: TestCase)
    requires Readable(messages)
    ensures var c := StreamOf(messages); id in c.cases && c.cases[id] == tc <==> tc.id == id && CaseMade(tc) in messages
  {
    hide FlatMap, ByKey, DistinctBy, Fatal;
    RowIs(messages, CaseIn, CaseID, id, tc);
    assert CaseMade(tc) in messages ==> tc in CaseIn(CaseMade(tc));
  }

  lemma RunRow(messages: seq<Envelope>, id: GoString, started: Started)
    requires Readable(messages)
    ensures var c := StreamOf(messages); id in c.runs && c.runs[id] == started <==> started.id == id && CaseStarted(started) in messages
  {
    hide FlatMap, ByKey, DistinctBy, Fatal;
    RowIs(messages, StartedIn, StartedID, id, started);
    assert CaseStarted(started) in messages ==> started in StartedIn(CaseStarted(started));
  }

  ghost predicate IsFinished(messages: seq<Envelope>, run: GoString) {
    exists m :: m in messages && m.CaseFinished? && m.startedID == run
  }

  lemma FinishedRow(messages: seq<Envelope>, run: GoString)
    requires Readable(messages)
    ensures run in StreamOf(messages).finished <==> IsFinished(messages, run)
  {
    hide FlatMap, ByKey, DistinctBy, Fatal;
    RowIs(messages, FinishedIn, Itself, run, run);
    ByKeyLists(FlatMap(messages, FinishedIn), Itself);
  }

  lemma DefinitionRow(messages: seq<Envelope>, id: GoString)
    requires Readable(messages)
    ensures id in StreamOf(messages).definitions <==> DefinitionMade(id) in messages
  {
    hide FlatMap, ByKey, DistinctBy, Fatal;
    RowIs(messages, DefinitionIn, Itself, id, id);
    ByKeyLists(FlatMap(messages, DefinitionIn), Itself);
    assert DefinitionMade(id) in messages ==> id in DefinitionIn(DefinitionMade(id));
  }

  lemma StepRow(messages: seq<Envelope>, key: StepKey, done: StepDone)
    requires Readable(messages)
    ensures var c := StreamOf(messages); key in c.steps && c.steps[key] == done <==> done.key == key && StepFinished(done) in messages
  {
    hide FlatMap, ByKey, DistinctBy, Fatal;
    RowIs(messages, StepIn, StepDoneKey, key, done);
    assert StepFinished(done) in messages ==> done in StepIn(StepFinished(done));
  }

  // ---------------------------------------------------------------- counts and sources

  predicate IsPickle(m: Envelope) { m.PickleMade? }
  predicate IsCase(m: Envelope) { m.CaseMade? }
  predicate IsStart(m: Envelope) { m.CaseStarted? }
  predicate IsFinish(m: Envelope) { m.CaseFinished? }
  predicate IsRunStart(m: Envelope) { m.RunStarted? }
  predicate IsRunEnd(m: Envelope) { m.RunFinished? }

  /** One run, and as many pickles, cases, starts and finishes as the snapshot has scenarios. */
  ghost predicate CountsAgree(messages: seq<Envelope>, scenarios: nat) {
    && (exists i :: OnlyAt(messages, IsRunStart, i)) && (exists i :: OnlyAt(messages, IsRunEnd, i))
    && NumberOf(messages, IsPickle) == scenarios && NumberOf(messages, IsCase) == scenarios
    && NumberOf(messages, IsStart) == scenarios && NumberOf(messages, IsFinish) == scenarios
  }

  lemma CountsAre(messages: seq<Envelope>, s: Snapshot)
    requires Readable(messages)
    ensures Complete(StreamOf(messages), s) <==> CountsAgree(messages, |s.scenarios|)
    ensures |StreamOf(messages).runs| == NumberOf(messages, IsStart)
  {
    hide FlatMap, ByKey, DistinctBy, NumberOf, OnlyAt;
    FlatMapCounts(messages, PickleIn, IsPickle);
    FlatMapCounts(messages, CaseIn, IsCase);
    FlatMapCounts(messages, StartedIn, IsStart);
    FlatMapCounts(messages, FinishedIn, IsFinish);
    FlatMapCounts(messages, StartIn, IsRunStart);
    FlatMapCounts(messages, EndIn, IsRunEnd);
    ByKeySize(FlatMap(messages, PickleIn), PickleID);
    ByKeySize(FlatMap(messages, CaseIn), CaseID);
    ByKeySize(FlatMap(messages, StartedIn), StartedID);
    ByKeySize(FlatMap(messages, FinishedIn), Itself);
    OneIff(messages, IsRunStart);
    OneIff(messages, IsRunEnd);
  }

  predicate IsFeatureAt(d: Document, path: GoString) {
    d.kind == FeatureKind && d.path == path
  }

  ghost predicate LastAt(documents: seq<Document>, path: GoString, d: Document, k: int) {
    0 <= k < |documents| && documents[k] == d && IsFeatureAt(d, path)
    && forall j :: k < j < |documents| ==> !IsFeatureAt(documents[j], path)
  }

  /** The last feature document at a path. */
  ghost predicate FeatureAt(documents: seq<Document>, path: GoString, d: Document) {
    exists k :: LastAt(documents, path, d, k)
  }

  lemma FeatureAtOneMore(documents: seq<Document>, path: GoString, d: Document)
    requires documents != []
    ensures var n := |documents| - 1;
            FeatureAt(documents, path, d) <==>
            if IsFeatureAt(documents[n], path) then d == documents[n] else FeatureAt(documents[..n], path, d)
  {
    var n := |documents| - 1;
    if IsFeatureAt(documents[n], path) {
      if d == documents[n] {
        assert LastAt(documents, path, d, n);
      }
      if k :| LastAt(documents, path, d, k) {
        assert k == n;
      }
    } else {
      if k :| LastAt(documents[..n], path, d, k) {
        assert LastAt(documents, path, d, k);
      }
      if k :| LastAt(documents, path, d, k) {
        assert LastAt(documents[..n], path, d, k);
      }
    }
  }

  lemma {:induction false} FeaturePathIs(documents: seq<Document>, path: GoString, d: Document)
    ensures path in FeaturePaths(documents) && FeaturePaths(documents)[path] == d <==> FeatureAt(documents, path, d)
  {
    if documents != [] {
      hide FeatureAt, FeaturePaths;
      FeaturePathIs(documents[..|documents| - 1], path, d);
      FeaturePathsOneMore(documents);
      FeatureAtOneMore(documents, path, d);
    }
  }

  lemma FeaturePathsOneMore(documents: seq<Document>)
    requires documents != []
    ensures var n := |documents| - 1;
            FeaturePaths(documents) ==
            if documents[n].kind == FeatureKind then FeaturePaths(documents[..n])[documents[n].path := documents[n]]
            else FeaturePaths(documents[..n])
  {
    var n := |documents| - 1;
    var before := FlatMap(documents[..n], FeatureIn);
    if documents[n].kind == FeatureKind {
      ByKeyOneMore(before, documents[n], DocumentPath);
    } else {
      assert before + [] == before;
    }
  }

  /** The executed sources are exactly the feature documents, with their contents. */
  ghost predicate SourcesHold(messages: seq<Envelope>, documents: seq<Document>) {
    && (forall d :: d in documents && d.kind == FeatureKind ==> SourceRead(SourceFile(d.path, d.content)) in messages)
    && (forall m :: m in messages && m.SourceRead? ==> exists d :: d in documents && d.kind == FeatureKind && d.path == m.file.uri)
  }

  lemma FeatureKeys(documents: seq<Document>)
    ensures forall path :: path in FeaturePaths(documents) <==> exists d :: d in documents && d.kind == FeatureKind && d.path == path
  {
    hide FlatMap, ByKey;
    ByKeyLists(FlatMap(documents, FeatureIn), DocumentPath);
    InFlatMap(documents, FeatureIn);
    forall d | d in documents && d.kind == FeatureKind
      ensures d.path in FeaturePaths(documents)
    {
      assert d in FeatureIn(d) && d in FlatMap(documents, FeatureIn);
    }
  }

  lemma SourcesIff(messages: seq<Envelope>, documents: seq<Document>)
    requires Readable(messages)
    ensures SourcesMatch(StreamOf(messages), documents) <==> SourcesHold(messages, documents)
  {
    hide Readable, StreamOf, FeaturePaths, SourcesHold;
    forall uri, file
      ensures var c := StreamOf(messages); uri in c.sources && c.sources[uri] == file <==> file.uri == uri && SourceRead(file) in messages
    {
      SourceRow(messages, uri, file);
    }
    SourceTable(messages, StreamOf(messages).sources);
    FeatureKeys(documents);
    if SourcesMatch(StreamOf(messages), documents) {
      SourcesThere(messages, documents, StreamOf(messages).sources, FeaturePaths(documents));
    }
    if SourcesHold(messages, documents) {
      SourcesBack(messages, documents, StreamOf(messages).sources, FeaturePaths(documents));
    }
  }

  ghost predicate Tabulates(messages: seq<Envelope>, sources: map<GoString, SourceFile>) {
    && (forall uri :: uri in sources ==> sources[uri].uri == uri && SourceRead(sources[uri]) in messages)
    && (forall m :: m in messages && m.SourceRead? ==> m.file.uri in sources && sources[m.file.uri] == m.file)
  }

  lemma SourceTable(messages: seq<Envelope>, sources: map<GoString, SourceFile>)
    requires forall uri, file :: uri in sources && sources[uri] == file <==> file.uri == uri && SourceRead(file) in messages
    ensures Tabulates(messages, sources)
  {
    forall m | m in messages && m.SourceRead?
      ensures m.file.uri in sources && sources[m.file.uri] == m.file
    {
      assert m == SourceRead(m.file);
    }
  }

  lemma SourcesThere(messages: seq<Envelope>, documents: seq<Document>, sources: map<GoString, SourceFile>, paths: map<GoString, Document>)
    requires Tabulates(messages, sources) && |sources| == |paths|
    requires forall path :: path in paths <==> exists d :: d in documents && d.kind == FeatureKind && d.path == path
    requires forall d :: d in documents && d.kind == FeatureKind ==> d.path in sources && sources[d.path].data == d.content
    ensures SourcesHold(messages, documents)
  {
    forall d | d in documents && d.kind == FeatureKind
      ensures SourceRead(SourceFile(d.path, d.content)) in messages
    {
      assert sources[d.path] == SourceFile(d.path, d.content);
    }
    assert paths.Keys <= sources.Keys;
    SubsetSize(paths.Keys, sources.Keys);
    forall m | m in messages && m.SourceRead?
      ensures m.file.uri in paths
    {
      assert m.file.uri in sources.Keys;
    }
  }

  lemma SourcesBack(messages: seq<Envelope>, documents: seq<Document>, sources: map<GoString, SourceFile>, paths: map<GoString, Document>)
    requires Tabulates(messages, sources) && SourcesHold(messages, documents)
    requires forall path :: path in paths <==> exists d :: d in documents && d.kind == FeatureKind && d.path == path
    ensures forall d :: d in documents && d.kind == FeatureKind ==> d.path in sources && sources[d.path].data == d.content
    ensures |sources| == |paths|
  {
    forall uri | uri in sources
      ensures uri in paths
    {
      assert SourceRead(sources[uri]) in messages;
    }
    forall path | path in paths
      ensures path in sources
    {
      var d :| d in documents && d.kind == FeatureKind && d.path == path;
      assert SourceRead(SourceFile(d.path, d.content)) in messages;
    }
    assert sources.Keys == paths.Keys;
  }

  // ---------------------------------------------------------------- one run: its pickle

  predicate IsScenarioTag(tag: GoString) {
    HasPrefix(tag, "@id:VOZ-SC-")
  }

  /** Exactly one of the tags names a scenario, and it is this one. */
  ghost predicate TaggedOnce(tags: seq<GoString>, id: GoString) {
    exists i :: OnlyAt(tags, IsScenarioTag, i) && tags[i] == "@id:" + id
  }

  lemma TagIff(tags: seq<GoString>, id: GoString)
    ensures |ScenarioTags(tags)| == 1 && ScenarioTags(tags)[0] == id <==> TaggedOnce(tags, id)
  {
    hide FlatMap, NumberOf;
    TagCounts();
    FlatMapCounts(tags, ScenarioTag, IsScenarioTag);
    OneIff(tags, IsScenarioTag);
    forall i | OnlyAt(tags, IsScenarioTag, i)
      ensures ScenarioTags(tags) == [tags[i][|ID_TAG|..]] && (tags[i][|ID_TAG|..] == id <==> tags[i] == "@id:" + id)
    {
      FlatMapOfOne(tags, ScenarioTag, i);
      TagSplits(tags[i]);
    }
  }

  lemma TagCounts()
    ensures forall tag :: |ScenarioTag(tag)| == if IsScenarioTag(tag) then 1 else 0
  {
  }

  lemma TagSplits(tag: GoString)
    requires IsScenarioTag(tag)
    ensures ScenarioTag(tag) == [tag[|ID_TAG|..]] && tag == "@id:" + tag[|ID_TAG|..]
  {
    assert tag[..|ID_TAG|] == tag[..|SCENARIO_TAG|][..|ID_TAG|] == "@id:";
  }

  /** A pickle step with this id and text. */
  ghost predicate PickleHas(p: Pickle, id: GoString, text: GoString) {
    exists j :: 0 <= j < |p.steps| && p.steps[j].Some? && p.steps[j].value.id == id && p.steps[j].value.text == text
  }

  predicate StepSays(step: Option<PickleStep>, text: GoString) {
    step.Some? && !step.value.hasArgument && step.value.text == text
  }

  /** The pickle is the scenario's, from the feature document of its file, text by text. */
  ghost predicate PickleHolds(documents: seq<Document>, p: Pickle, sc: Scenario) {
    && (exists d :: FeatureAt(documents, p.uri, d) && d.id == sc.featureID)
    && p.name == sc.name && p.language == "en" && |p.steps| == |sc.steps|
    && (forall i :: 0 <= i < |p.steps| ==> StepSays(p.steps[i], sc.steps[i].text))
    && (forall i, j :: 0 <= i < j < |p.steps| && p.steps[i].Some? && p.steps[j].Some? ==> p.steps[i].value.id != p.steps[j].value.id)
  }

  lemma PickleIff(documents: seq<Document>, p: Pickle, sc: Scenario)
    ensures PickleFits(p, FeaturePaths(documents), sc) <==> PickleHolds(documents, p, sc)
  {
    hide FlatMap, DistinctBy, FeatureAt, FeaturePaths;
    DistinctIffDifferAt(p.steps, Present, PickleStepID);
    forall d
      ensures p.uri in FeaturePaths(documents) && FeaturePaths(documents)[p.uri] == d <==> FeatureAt(documents, p.uri, d)
    {
      FeaturePathIs(documents, p.uri, d);
    }
    PickleStepsDiffer(p);
  }

  lemma PickleStepsDiffer(p: Pickle)
    ensures DifferAt(p.steps, Present, PickleStepID) <==>
            forall i, j :: 0 <= i < j < |p.steps| && p.steps[i].Some? && p.steps[j].Some? ==> p.steps[i].value.id != p.steps[j].value.id
  {
  }

  lemma PickleTable(p: Pickle, id: GoString)
    requires DistinctBy(PickleSteps(p), PickleStepID)
    ensures id in PickleStepTable(p) <==> exists text :: PickleHas(p, id, text)
    ensures id in PickleStepTable(p) ==> forall text :: PickleHas(p, id, text) <==> text == PickleStepTable(p)[id].text
  {
    hide FlatMap, ByKey, DistinctBy;
    ByKeyLists(PickleSteps(p), PickleStepID);
    InFlatMap(p.steps, Present);
    forall text | PickleHas(p, id, text)
      ensures id in PickleStepTable(p) && text == PickleStepTable(p)[id].text
    {
      var j :| 0 <= j < |p.steps| && p.steps[j].Some? && p.steps[j].value.id == id && p.steps[j].value.text == text;
      var x := p.steps[j];
      assert x in p.steps && x.value in Present(x);
      assert x.value in PickleSteps(p);
      assert PickleStepID(x.value) == id;
    }
    if id in PickleStepTable(p) {
      var step := PickleStepTable(p)[id];
      var x :| x in p.steps && step in Present(x);
      var j :| 0 <= j < |p.steps| && p.steps[j] == x;
      assert PickleHas(p, id, step.text);
    }
  }

  // ---------------------------------------------------------------- one run: its steps

  predicate TakesNanos(done: StepDone, n: int) {
    && done.result.Some? && done.result.value.duration.Some?
    && var d := done.result.value.duration.value;
       d.seconds >= 0 && 0 <= d.nanos < 1_000_000_000 && n == d.seconds * 1_000_000_000 + d.nanos
  }

  /** A message says that the run's step took so many nanoseconds. */
  ghost predicate Took(messages: seq<Envelope>, run: GoString, id: GoString, n: nat) {
    exists done :: StepFinished(done) in messages && done.key == StepKey(run, id) && TakesNanos(done, n)
  }

  ghost predicate StepIsDone(messages: seq<Envelope>, run: GoString, id: GoString) {
    exists done :: StepFinished(done) in messages && done.key == StepKey(run, id)
  }

  lemma TookIff(messages: seq<Envelope>, run: GoString, step: TestStep)
    requires Readable(messages)
    ensures var c := StreamOf(messages);
            && (StepKey(run, step.id) in c.steps <==> StepIsDone(messages, run, step.id))
            && (StepKey(run, step.id) in c.steps && ValidDuration(DurationOf(c, run, step)) <==> Took(messages, run, step.id, StepNanos(c, run, step)))
            && forall n :: Took(messages, run, step.id, n) ==> n == StepNanos(c, run, step)
  {
    hide Readable, StreamOf;
    var key := StepKey(run, step.id);
    forall done
      ensures key in StreamOf(messages).steps && StreamOf(messages).steps[key] == done <==> done.key == key && StepFinished(done) in messages
    {
      StepRow(messages, key, done);
    }
    if key in StreamOf(messages).steps {
      var done := StreamOf(messages).steps[key];
      assert StepFinished(done) in messages;
    }
  }

  /** A test step is one step of the pickle, matched by one known definition, or a hook. */
  ghost predicate IsKnown(messages: seq<Envelope>, p: Pickle, step: TestStep) {
    if step.pickleStepID != ""
    then |step.definitionIDs| == 1 && DefinitionMade(step.definitionIDs[0]) in messages && exists text :: PickleHas(p, step.pickleStepID, text)
    else step.hookID != ""
  }

  function ExecutedID(step: TestStep): seq<GoString> {
    if step.pickleStepID != "" then [step.pickleStepID] else []
  }

  /** The case's steps of the pickle, in order, are the scenario's. */
  ghost predicate InOrder(p: Pickle, steps: seq<TestStep>, sc: Scenario) {
    var ids := FlatMap(steps, ExecutedID);
    |ids| == |sc.steps| && forall k :: 0 <= k < |ids| ==> PickleHas(p, ids[k], sc.steps[k].text)
  }

  /** The run finished exactly its case's steps, each of them known and timed, the scenario's among them in
      order. */
  ghost predicate StepsHold(messages: seq<Envelope>, run: GoString, tc: TestCase, p: Pickle, sc: Scenario) {
    && (forall i, j :: 0 <= i < j < |tc.steps| ==> tc.steps[i].id != tc.steps[j].id)
    && (forall step :: step in tc.steps ==> IsKnown(messages, p, step) && exists n :: Took(messages, run, step.id, n))
    && (forall id :: StepIsDone(messages, run, id) ==> exists step :: step in tc.steps && step.id == id)
    && InOrder(p, tc.steps, sc)
  }

  lemma StepFitsIff(messages: seq<Envelope>, run: GoString, p: Pickle, step: TestStep)
    requires Readable(messages) && DistinctBy(PickleSteps(p), PickleStepID)
    ensures TestStepFits(StreamOf(messages), run, p, step) <==>
            IsKnown(messages, p, step) && exists n :: Took(messages, run, step.id, n)
  {
    hide Readable, StreamOf, DistinctBy, PickleSteps, PickleStepTable, PickleHas, Took, ValidDuration, DurationOf;
    TookIff(messages, run, step);
    if step.pickleStepID != "" {
      PickleTable(p, step.pickleStepID);
      if |step.definitionIDs| == 1 {
        DefinitionRow(messages, step.definitionIDs[0]);
      }
    }
  }

  /** The executed source steps are those of the pickle the case names, in order. */
  lemma {:induction false} SourceStepsAre(p: Pickle, steps: seq<TestStep>)
    requires forall step :: step in steps && step.pickleStepID != "" ==> step.pickleStepID in PickleStepTable(p)
    ensures var ids, executed := FlatMap(steps, ExecutedID), SourceSteps(p, steps);
            && |executed| == |ids|
            && forall k :: 0 <= k < |ids| ==>
                 ids[k] in PickleStepTable(p) && executed[k] == ResultStep(PickleStepTable(p)[ids[k]].text, "passed")
  {
    hide PickleStepTable;
    if steps != [] {
      SourceStepsAre(p, steps[..|steps| - 1]);
    }
  }

  lemma OrderIff(p: Pickle, steps: seq<TestStep>, sc: Scenario)
    requires DistinctBy(PickleSteps(p), PickleStepID)
    requires forall step :: step in steps && step.pickleStepID != "" ==> step.pickleStepID in PickleStepTable(p)
    ensures SourceSteps(p, steps) == Map(sc.steps, PassedStep) <==> InOrder(p, steps, sc)
  {
    hide PickleStepTable, PickleSteps, DistinctBy, PickleHas, FlatMap;
    SourceStepsAre(p, steps);
    var ids, executed, wanted := FlatMap(steps, ExecutedID), SourceSteps(p, steps), Map(sc.steps, PassedStep);
    forall k | 0 <= k < |ids| && k < |sc.steps|
      ensures executed[k] == wanted[k] <==> PickleHas(p, ids[k], sc.steps[k].text)
    {
      PickleTable(p, ids[k]);
    }
  }

  lemma NamesAre(messages: seq<Envelope>, run: GoString)
    requires Readable(messages)
    ensures forall id :: id in StepNames(StreamOf(messages), run) <==> StepIsDone(messages, run, id)
  {
    hide Readable, StreamOf;
    forall id
      ensures id in StepNames(StreamOf(messages), run) <==> StepIsDone(messages, run, id)
    {
      NameIs(messages, run, id);
    }
  }

  lemma NameIs(messages: seq<Envelope>, run: GoString, id: GoString)
    requires Readable(messages)
    ensures id in StepNames(StreamOf(messages), run) <==> StepIsDone(messages, run, id)
  {
    hide Readable, StreamOf, Took, ValidDuration, DurationOf;
    TookIff(messages, run, TestStep(id, "", "", []));
    assert id in StepNames(StreamOf(messages), run) <==> StepKey(run, id) in StreamOf(messages).steps by {
      var c := StreamOf(messages);
      if StepKey(run, id) in c.steps {
        assert StepKey(run, id).run == run;
      }
      if id in StepNames(c, run) {
        var k :| k in c.steps && k.run == run && k.step == id;
        assert k == StepKey(run, id);
      }
    }
  }

  /** A run has as many step results as its case has steps exactly when every result is for one of them. */
  lemma CoverIff(names: set<GoString>, steps: seq<TestStep>)
    requires DistinctBy(steps, TestStepID) && forall step :: step in steps ==> step.id in names
    ensures |names| == |steps| <==> forall id :: id in names ==> exists step :: step in steps && step.id == id
  {
    var ids := Map(steps, TestStepID);
    assert Distinct(ids);
    ElementsSize(ids);
    forall id
      ensures id in Elements(ids) <==> exists step :: step in steps && step.id == id
    {
      if id in Elements(ids) {
        var i :| 0 <= i < |ids| && ids[i] == id;
        assert steps[i] in steps;
      }
      if step :| step in steps && step.id == id {
        var i :| 0 <= i < |steps| && steps[i] == step;
        assert ids[i] == id;
      }
    }
    forall i | 0 <= i < |ids|
      ensures ids[i] in names
    {
      assert steps[i] in steps;
    }
    SubsetSize(Elements(ids), names);
    if forall id :: id in names ==> exists step :: step in steps && step.id == id {
      assert names == Elements(ids);
    }
  }

  lemma CaseIff(messages: seq<Envelope>, run: GoString, tc: TestCase, p: Pickle, sc: Scenario)
    requires Readable(messages) && DistinctBy(PickleSteps(p), PickleStepID)
    ensures CaseFits(StreamOf(messages), run, tc, p, sc) <==> StepsHold(messages, run, tc, p, sc)
  {
    hide Readable, StreamOf, PickleSteps, TestStepFits, StepNames, SourceSteps, InOrder, IsKnown, Took, StepIsDone;
    var c := StreamOf(messages);
    forall step
      ensures TestStepFits(c, run, p, step) <==> IsKnown(messages, p, step) && exists n :: Took(messages, run, step.id, n)
    {
      StepFitsIff(messages, run, p, step);
    }
    NamesAre(messages, run);
    if DistinctBy(tc.steps, TestStepID) && forall step :: step in tc.steps ==> TestStepFits(c, run, p, step) {
      forall step | step in tc.steps
        ensures step.id in StepNames(c, run) && (step.pickleStepID != "" ==> step.pickleStepID in PickleStepTable(p))
      {
        FitsGives(c, run, p, step);
      }
      CoverIff(StepNames(c, run), tc.steps);
      OrderIff(p, tc.steps, sc);
    }
    assert DistinctBy(tc.steps, TestStepID) <==> forall i, j :: 0 <= i < j < |tc.steps| ==> tc.steps[i].id != tc.steps[j].id;
  }

  lemma FitsGives(c: Stream, run: GoString, p: Pickle, step: TestStep)
    requires TestStepFits(c, run, p, step)
    ensures step.id in StepNames(c, run) && (step.pickleStepID != "" ==> step.pickleStepID in PickleStepTable(p))
  {
    hide PickleStepTable;
    FitsHasResult(c, run, p, step);
  }

  // ---------------------------------------------------------------- one run: its receipt

  /** A fixture attachment of the run. */
  predicate IsReceiptOf(m: Envelope, run: GoString) {
    m.Attached? && m.mediaType == "application/vnd.vozokany.fixture+json" && m.receipt.run == run
  }

  function ReceiptsOf(run: GoString): Envelope -> bool {
    m => IsReceiptOf(m, run)
  }

  /** The run has exactly one fixture attachment, and its backend is Rust. */
  ghost predicate AttestedByRust(messages: seq<Envelope>, run: GoString) {
    exists i :: OnlyAt(messages, ReceiptsOf(run), i) && messages[i].receipt.backend == Some("rust")
  }

  function Receipts(messages: seq<Envelope>): multiset<Receipt> {
    multiset(FlatMap(messages, ReceiptIn))
  }

  lemma OneMoreReceipt(messages: seq<Envelope>)
    requires messages != []
    ensures var n := |messages| - 1; Receipts(messages) == Receipts(messages[..n]) + multiset(ReceiptIn(messages[n]))
  {
  }

  lemma ReceiptsAre(messages: seq<Envelope>, run: GoString)
    ensures forall r :: r in Receipts(messages) && r.run == run <==> exists m :: m in messages && IsReceiptOf(m, run) && m.receipt == r
  {
    hide FlatMap;
    InFlatMap(messages, ReceiptIn);
    assert forall r :: r in Receipts(messages) <==> r in FlatMap(messages, ReceiptIn);
    forall r
      ensures r in Receipts(messages) && r.run == run <==> exists m :: m in messages && IsReceiptOf(m, run) && m.receipt == r
    {
      if m :| m in messages && IsReceiptOf(m, run) && m.receipt == r {
        assert r in ReceiptIn(m);
      }
    }
  }

  lemma {:induction false} ReceiptsCount(messages: seq<Envelope>, run: GoString)
    requires forall r :: r in Receipts(messages) && r.run == run ==> r == Receipt(run, Some("rust"))
    ensures Receipts(messages)[Receipt(run, Some("rust"))] == NumberOf(messages, ReceiptsOf(run))
  {
    if messages != [] {
      var n := |messages| - 1;
      OneMoreReceipt(messages);
      hide Receipts;
      ReceiptsCount(messages[..n], run);
      if IsReceiptOf(messages[n], run) {
        assert ReceiptIn(messages[n]) == [messages[n].receipt];
        assert messages[n].receipt in Receipts(messages);
      }
    }
  }

  lemma AttestedIff(messages: seq<Envelope>, run: GoString)
    ensures AttestedOnce(StreamOf(messages).receipts, run) <==> AttestedByRust(messages, run)
  {
    hide FlatMap, ByKey, NumberOf;
    var receipts, rust := Receipts(messages), Receipt(run, Some("rust"));
    ReceiptsAre(messages, run);
    if forall r :: r in receipts && r.run == run ==> r == rust {
      ReceiptsCount(messages, run);
    }
    OneIff(messages, ReceiptsOf(run));
    if AttestedByRust(messages, run) {
      var i :| OnlyAt(messages, ReceiptsOf(run), i) && messages[i].receipt.backend == Some("rust");
      forall r | r in receipts && r.run == run
        ensures r == rust
      {
        var m :| m in messages && IsReceiptOf(m, run) && m.receipt == r;
        var j :| 0 <= j < |messages| && messages[j] == m;
        assert ReceiptsOf(run)(messages[j]);
      }
    }
    if AttestedOnce(receipts, run) {
      RustOnly(receipts, run);
      var i :| OnlyAt(messages, ReceiptsOf(run), i);
      assert IsReceiptOf(messages[i], run) && messages[i] in messages;
      assert messages[i].receipt in receipts;
    }
  }

  lemma RustOnly(receipts: multiset<Receipt>, run: GoString)
    requires AttestedOnce(receipts, run)
    ensures forall r :: r in receipts && r.run == run ==> r == Receipt(run, Some("rust"))
  {
  }

  // ---------------------------------------------------------------- one run: what the snapshot reports

  function Sum(list: seq<nat>): nat {
    if list == [] then 0 else Sum(list[..|list| - 1]) + list[|list| - 1]
  }

  ghost predicate Times(messages: seq<Envelope>, run: GoString, steps: seq<TestStep>, times: seq<nat>) {
    |times| == |steps| && forall i :: 0 <= i < |steps| ==> Took(messages, run, steps[i].id, times[i])
  }

  predicate IsReport(r: Result, sc: Scenario, nanos: nat) {
    && r.scenarioID == sc.id && r.status == "passed" && r.duration == Decimal(nanos) && |r.steps| == |sc.steps|
    && forall k :: 0 <= k < |r.steps| ==> r.steps[k] == ResultStep(sc.steps[k].text, "passed")
  }

  /** The snapshot has a case for the run: its scenario passed, step by step, in the summed time. */
  ghost predicate Reported(messages: seq<Envelope>, cases: seq<Result>, run: GoString, tc: TestCase, sc: Scenario) {
    exists r, times :: r in cases && Times(messages, run, tc.steps, times) && IsReport(r, sc, Sum(times))
  }

  lemma {:induction false} TimesAreNanos(messages: seq<Envelope>, run: GoString, steps: seq<TestStep>, times: seq<nat>)
    requires Readable(messages) && Times(messages, run, steps, times)
    ensures Sum(times) == Nanos(StreamOf(messages), run, steps)
  {
    hide Readable, StreamOf, Took, StepNanos;
    if steps != [] {
      var n := |steps| - 1;
      TimesAreNanos(messages, run, steps[..n], times[..n]);
      TookIff(messages, run, steps[n]);
    }
  }

  lemma {:induction false} NanosHaveTimes(messages: seq<Envelope>, run: GoString, steps: seq<TestStep>) returns (times: seq<nat>)
    requires Readable(messages) && forall step :: step in steps ==> exists n :: Took(messages, run, step.id, n)
    ensures Times(messages, run, steps, times)
  {
    hide Readable, Took;
    if steps == [] {
      return [];
    }
    var n := |steps| - 1;
    forall step | step in steps[..n]
      ensures exists k :: Took(messages, run, step.id, k)
    {
      assert step in steps;
    }
    var before := NanosHaveTimes(messages, run, steps[..n]);
    assert steps[n] in steps;
    var time :| Took(messages, run, steps[n].id, time);
    return before + [time];
  }

  lemma ReportIff(messages: seq<Envelope>, cases: seq<Result>, run: GoString, tc: TestCase, p: Pickle, sc: Scenario)
    requires Readable(messages) && StepsHold(messages, run, tc, p, sc)
    requires SourceSteps(p, tc.steps) == Map(sc.steps, PassedStep)
    ensures Result(sc.id, "passed", Decimal(Nanos(StreamOf(messages), run, tc.steps)), SourceSteps(p, tc.steps)) in cases <==>
            Reported(messages, cases, run, tc, sc)
  {
    hide Readable, StreamOf, SourceSteps, Nanos, Sum, Took, IsKnown, InOrder, StepIsDone, Decimal;
    var result := Result(sc.id, "passed", Decimal(Nanos(StreamOf(messages), run, tc.steps)), SourceSteps(p, tc.steps));
    var times := NanosHaveTimes(messages, run, tc.steps);
    TimesAreNanos(messages, run, tc.steps, times);
    assert IsReport(result, sc, Sum(times));
    forall r, other | Times(messages, run, tc.steps, other) && IsReport(r, sc, Sum(other))
      ensures r == result
    {
      TimesAreNanos(messages, run, tc.steps, other);
      assert r.steps == Map(sc.steps, PassedStep);
    }
  }

  // ---------------------------------------------------------------- the whole stream

  ghost predicate RunHolds(messages: seq<Envelope>, s: Snapshot, started: Started, tc: TestCase, p: Pickle, sc: Scenario) {
    && CaseMade(tc) in messages && tc.id == started.testCaseID && IsFinished(messages, started.id)
    && PickleMade(p) in messages && p.id == tc.pickleID
    && sc in s.scenarios && TaggedOnce(p.tags, sc.id) && PickleHolds(s.documents, p, sc)
    && StepsHold(messages, started.id, tc, p, sc) && AttestedByRust(messages, started.id)
    && Reported(messages, s.verification.cases, started.id, tc, sc)
  }

  /** The scenario a started run's pickle is tagged with. */
  ghost predicate Runs(messages: seq<Envelope>, started: Started, id: GoString) {
    exists tc, p :: CaseMade(tc) in messages && tc.id == started.testCaseID && PickleMade(p) in messages && p.id == tc.pickleID
                    && TaggedOnce(p.tags, id)
  }

  /** Everything an accepted stream says, message by message. */
  ghost predicate Evidence(messages: seq<Envelope>, s: Snapshot) {
    && (forall m :: m in messages ==> Harmless(m)) && NoClash(messages)
    && CountsAgree(messages, |s.scenarios|) && |s.verification.cases| == |s.scenarios|
    && SourcesHold(messages, s.documents)
    && (forall i, j :: 0 <= i < j < |s.scenarios| ==> s.scenarios[i].id != s.scenarios[j].id)
    && (forall started :: CaseStarted(started) in messages ==> exists tc, p, sc :: RunHolds(messages, s, started, tc, p, sc))
    && (forall a, b, id :: CaseStarted(a) in messages && CaseStarted(b) in messages && Runs(messages, a, id) && Runs(messages, b, id) ==>
          a.id == b.id)
  }

  lemma CaseOfIs(messages: seq<Envelope>, started: Started, tc: TestCase)
    requires Readable(messages) && CaseStarted(started) in messages
    ensures CaseOf(StreamOf(messages), started.id) == Some(tc) <==> CaseMade(tc) in messages && tc.id == started.testCaseID
    ensures started.id in StreamOf(messages).runs
  {
    hide Readable, StreamOf;
    RunRow(messages, started.id, started);
    CaseRow(messages, started.testCaseID, tc);
  }

  lemma PickleOfIs(messages: seq<Envelope>, started: Started, tc: TestCase, p: Pickle)
    requires Readable(messages) && CaseStarted(started) in messages && CaseOf(StreamOf(messages), started.id) == Some(tc)
    ensures PickleOf(StreamOf(messages), started.id) == Some(p) <==> PickleMade(p) in messages && p.id == tc.pickleID
  {
    hide Readable, StreamOf, CaseOf;
    PickleRow(messages, tc.pickleID, p);
  }

  lemma ScenarioIDIs(messages: seq<Envelope>, started: Started, id: GoString)
    requires Readable(messages) && CaseStarted(started) in messages
    ensures ScenarioIDOf(StreamOf(messages), started.id) == Some(id) <==> Runs(messages, started, id)
  {
    hide Readable, StreamOf, CaseOf, PickleOf, ScenarioTags, TaggedOnce;
    var c := StreamOf(messages);
    if ScenarioIDOf(c, started.id) == Some(id) {
      var p := PickleOf(c, started.id).value;
      var tc := PickleHasCase(c, started.id);
      CaseOfIs(messages, started, tc);
      PickleOfIs(messages, started, tc, p);
      TagIff(p.tags, id);
    }
    if Runs(messages, started, id) {
      var tc, p :| CaseMade(tc) in messages && tc.id == started.testCaseID && PickleMade(p) in messages && p.id == tc.pickleID
                   && TaggedOnce(p.tags, id);
      CaseOfIs(messages, started, tc);
      PickleOfIs(messages, started, tc, p);
      TagIff(p.tags, id);
    }
  }

  lemma PickleHasCase(c: Stream, run: GoString) returns (tc: TestCase)
    requires PickleOf(c, run).Some?
    ensures CaseOf(c, run) == Some(tc)
  {
    tc := CaseOf(c, run).value;
  }

  lemma ExpectedIs(scenarios: seq<Scenario>, sc: Scenario)
    requires DistinctBy(scenarios, IDOfScenario)
    ensures sc.id in Expected(scenarios) && Expected(scenarios)[sc.id] == sc <==> sc in scenarios
  {
    ByKeyLists(scenarios, IDOfScenario);
  }

  /** For one run, its case, pickle and scenario. */
  lemma RunIff(messages: seq<Envelope>, s: Snapshot, started: Started, tc: TestCase, p: Pickle, sc: Scenario)
    requires Readable(messages) && CaseStarted(started) in messages && DistinctBy(s.scenarios, IDOfScenario)
    requires var c := StreamOf(messages); CaseOf(c, started.id) == Some(tc) && PickleOf(c, started.id) == Some(p)
    requires sc in s.scenarios && ScenarioIDOf(StreamOf(messages), started.id) == Some(sc.id)
    ensures RunFits(StreamOf(messages), s, started.id) && ResultOf(StreamOf(messages), started.id) in s.verification.cases <==>
            RunHolds(messages, s, started, tc, p, sc)
  {
    hide Readable, StreamOf, CaseOf, PickleOf, Expected, CaseFits, PickleFits, AttestedOnce, SourceSteps, Nanos, Decimal, DistinctBy;
    hide PickleHolds, StepsHold, AttestedByRust, Reported, TaggedOnce, FeaturePaths, IsFinished;
    CaseOfIs(messages, started, tc);
    PickleOfIs(messages, started, tc, p);
    FinishedRow(messages, started.id);
    ExpectedIs(s.scenarios, sc);
    TagOf(StreamOf(messages), started.id, p, sc.id);
    PickleIff(s.documents, p, sc);
    AttestedIff(messages, started.id);
    if PickleHolds(s.documents, p, sc) {
      FittingPickleIsDistinct(s.documents, p, sc);
      CaseIff(messages, started.id, tc, p, sc);
      if StepsHold(messages, started.id, tc, p, sc) {
        FittingCaseIsInOrder(StreamOf(messages), started.id, tc, p, sc);
        ReportIff(messages, s.verification.cases, started.id, tc, p, sc);
      }
    }
  }

  lemma TagOf(c: Stream, run: GoString, p: Pickle, id: GoString)
    requires PickleOf(c, run) == Some(p) && ScenarioIDOf(c, run) == Some(id)
    ensures TaggedOnce(p.tags, id)
  {
    hide PickleOf, ScenarioTags, TaggedOnce;
    TagIff(p.tags, id);
  }

  lemma FittingPickleIsDistinct(documents: seq<Document>, p: Pickle, sc: Scenario)
    requires PickleFits(p, FeaturePaths(documents), sc)
    ensures DistinctBy(PickleSteps(p), PickleStepID)
  {
  }

  lemma FittingCaseIsInOrder(c: Stream, run: GoString, tc: TestCase, p: Pickle, sc: Scenario)
    requires CaseFits(c, run, tc, p, sc)
    ensures SourceSteps(p, tc.steps) == Map(sc.steps, PassedStep)
  {
  }

  lemma StreamHasEvidence(messages: seq<Envelope>, s: Snapshot)
    requires Validates(messages, s)
    ensures Evidence(messages, s)
  {
    hide Readable, StreamOf, RunFits, RunHolds, Runs, CaseOf, PickleOf, ScenarioIDOf, SourcesMatch, ResultOf, Harmless, NoClash, CountsAgree, SourcesHold, Bijects;
    var c := StreamOf(messages);
    ReadableIff(messages);
    CountsAre(messages, s);
    SourcesIff(messages, s.documents);
    RunsBiject(c, s);
    assert forall i, j | 0 <= i < j < |s.scenarios| :: IDOfScenario(s.scenarios[i]) != IDOfScenario(s.scenarios[j]);
    forall started | CaseStarted(started) in messages
      ensures exists tc, p, sc :: RunHolds(messages, s, started, tc, p, sc)
    {
      StartedHolds(messages, s, started);
    }
    forall a, b, id | CaseStarted(a) in messages && CaseStarted(b) in messages && Runs(messages, a, id) && Runs(messages, b, id)
      ensures a.id == b.id
    {
      ScenarioIDIs(messages, a, id);
      ScenarioIDIs(messages, b, id);
      RunRow(messages, a.id, a);
      RunRow(messages, b.id, b);
    }
  }

  lemma StartedHolds(messages: seq<Envelope>, s: Snapshot, started: Started)
    requires Validates(messages, s) && CaseStarted(started) in messages && DistinctBy(s.scenarios, IDOfScenario)
    ensures exists tc, p, sc :: RunHolds(messages, s, started, tc, p, sc)
  {
    hide Readable, StreamOf, RunFits, RunHolds, CaseOf, PickleOf, ScenarioIDOf, SourcesMatch, ResultOf, Complete, Expected;
    var c, run := StreamOf(messages), started.id;
    RunRow(messages, run, started);
    RunsHaveEverything(c, s, run);
    var tc, p, id := CaseOf(c, run).value, PickleOf(c, run).value, ScenarioIDOf(c, run).value;
    var sc := ExpectedScenario(s.scenarios, id);
    RunIff(messages, s, started, tc, p, sc);
  }

  lemma ExpectedScenario(scenarios: seq<Scenario>, id: GoString) returns (sc: Scenario)
    requires id in Expected(scenarios)
    ensures sc in scenarios && sc.id == id
  {
    ByKeyLists(scenarios, IDOfScenario);
    sc := Expected(scenarios)[id];
  }

  lemma EvidenceValidates(messages: seq<Envelope>, s: Snapshot)
    requires Evidence(messages, s)
    ensures Validates(messages, s)
  {
    hide Readable, StreamOf, RunFits, RunHolds, Runs, CaseOf, PickleOf, ScenarioIDOf, SourcesMatch, ResultOf, Harmless, NoClash, CountsAgree, SourcesHold, Complete, NumberOf;
    var c := StreamOf(messages);
    ReadableIff(messages);
    CountsAre(messages, s);
    SourcesIff(messages, s.documents);
    CountedRuns(messages, s);
    forall run | run in c.runs
      ensures RunFits(c, s, run) && (ScenarioIDOf(c, run).Some? ==> PickleOf(c, run).Some? && ResultOf(c, run) in s.verification.cases)
    {
      EvidentRun(messages, s, c.runs[run], run);
    }
    forall q, r | q in c.runs && r in c.runs && ScenarioIDOf(c, q) == ScenarioIDOf(c, r)
      ensures q == r
    {
      EvidentRuns(messages, s, q, r);
    }
  }

  lemma CountedRuns(messages: seq<Envelope>, s: Snapshot)
    requires Readable(messages) && CountsAgree(messages, |s.scenarios|)
    ensures |StreamOf(messages).runs| == |s.scenarios|
  {
    hide Readable, StreamOf, NumberOf, OnlyAt;
    CountsAre(messages, s);
  }

  lemma EvidentRun(messages: seq<Envelope>, s: Snapshot, started: Started, run: GoString)
    requires Evidence(messages, s) && Readable(messages) && run in StreamOf(messages).runs && StreamOf(messages).runs[run] == started
    ensures var c := StreamOf(messages);
            && RunFits(c, s, run) && PickleOf(c, run).Some? && ScenarioIDOf(c, run).Some? && ResultOf(c, run) in s.verification.cases
            && CaseStarted(started) in messages && started.id == run && Runs(messages, started, ScenarioIDOf(c, run).value)
  {
    hide Readable, StreamOf, RunFits, CaseOf, PickleOf, ScenarioIDOf, ResultOf, NoClash, CountsAgree, SourcesHold;
    hide TaggedOnce, PickleHolds, StepsHold, AttestedByRust, Reported, IsFinished;
    RunRow(messages, run, started);
    var tc, p, sc :| RunHolds(messages, s, started, tc, p, sc);
    assert Runs(messages, started, sc.id);
    ScenarioIDIs(messages, started, sc.id);
    CaseOfIs(messages, started, tc);
    PickleOfIs(messages, started, tc, p);
    assert forall i, j | 0 <= i < j < |s.scenarios| :: IDOfScenario(s.scenarios[i]) != IDOfScenario(s.scenarios[j]);
    RunIff(messages, s, started, tc, p, sc);
  }

  lemma EvidentRuns(messages: seq<Envelope>, s: Snapshot, q: GoString, r: GoString)
    requires Evidence(messages, s) && Readable(messages)
    requires var c := StreamOf(messages); q in c.runs && r in c.runs && ScenarioIDOf(c, q) == ScenarioIDOf(c, r)
    ensures q == r
  {
    hide Readable, StreamOf, RunFits, CaseOf, PickleOf, ScenarioIDOf, ResultOf, NoClash, CountsAgree, SourcesHold, RunHolds, Runs;
    var c := StreamOf(messages);
    EvidentRun(messages, s, c.runs[q], q);
    EvidentRun(messages, s, c.runs[r], r);
  }

  /** A stream validates a snapshot exactly when it says all that is listed: nothing in it failed, no id is
      used twice, there is one run, the counts agree, the executed sources are the feature documents, and
      each started case has its finish, its pickle with the scenario's path, name and texts, its passed
      and timed steps in order, exactly one fixture attachment, of the Rust backend, and its case in the
      snapshot with the summed durations. */
  lemma AcceptedIffEvidence(messages: seq<Envelope>, s: Snapshot)
    ensures Validates(messages, s) <==> Evidence(messages, s)
  {
    hide Validates, Evidence;
    if Validates(messages, s) {
      StreamHasEvidence(messages, s);
    }
    if Evidence(messages, s) {
      EvidenceValidates(messages, s);
    }
  }
}
