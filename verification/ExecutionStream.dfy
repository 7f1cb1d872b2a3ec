/** The retained Cucumber message stream and what one scan over it collects. */
module ExecutionStream {
  import opened GoStrings
  import opened Options
  import opened Collections

  // ---------------------------------------------------------------- messages

  datatype PickleStep = PickleStep(id: GoString, text: GoString, hasArgument: bool)

  /** A step is `None` where the stream has a null. */
  datatype Pickle = Pickle(
    id: GoString, uri: GoString, name: GoString, language: GoString, tags: seq<GoString>, steps: seq<Option<PickleStep>>)

  datatype TestStep = TestStep(id: GoString, pickleStepID: GoString, hookID: GoString, definitionIDs: seq<GoString>)

  datatype TestCase = TestCase(id: GoString, pickleID: GoString, steps: seq<TestStep>)

  datatype Duration = Duration(seconds: int, nanos: int)

  datatype StepResult = StepResult(status: GoString, exception: bool, duration: Option<Duration>)

  datatype SourceFile = SourceFile(uri: GoString, data: GoString)
  datatype Started = Started(id: GoString, testCaseID: GoString, attempt: int)
  datatype StepKey = StepKey(run: GoString, step: GoString)
  datatype StepDone = StepDone(key: StepKey, result: Option<StepResult>)
  datatype Receipt = Receipt(run: GoString, backend: Option<GoString>)

  /** One decoded line, by the first kind the scan looks for. */
  datatype Envelope =
    | Undecodable
    | InvalidSource
    | SourceRead(file: SourceFile)
    | RunStarted
    | RunFinished(success: bool, failed: bool)
    | PickleMade(pickle: Pickle)
    | CaseMade(testCase: TestCase)
    | CaseStarted(started: Started)
    | CaseFinished(startedID: GoString, retried: bool)
    | DefinitionMade(definitionID: GoString)
    | StepFinished(step: StepDone)
    | RunHookFinished(hookResult: Option<StepResult>)
    | Attached(mediaType: GoString, receipt: Receipt)
    | Unread

  /** The scanner's buffer: a longer line ends the scan. */
  const MAX_LINE: nat := 4 * 1024 * 1024

  /** What the scan makes of a line; blank ones are passed over. */
  function LineRead(decode: GoString -> Envelope, line: GoString): Envelope {
    if |line| >= MAX_LINE then Undecodable
    else if TrimSpace(line) == "" then Unread
    else decode(TrimSpace(line))
  }

  function Envelopes(decode: GoString -> Envelope, lines: seq<GoString>): seq<Envelope> {
    seq(|lines|, i requires 0 <= i < |lines| => LineRead(decode, lines[i]))
  }

  const FIXTURE: GoString := "application/vnd.vozokany.fixture+json"

  predicate Passed(result: Option<StepResult>) {
    result.Some? && result.value.status == "PASSED" && !result.value.exception
  }

  /** Messages that end the scan whatever came before. */
  predicate Fatal(m: Envelope) {
    match m
    case Undecodable => true
    case InvalidSource => true
    case RunFinished(success, failed) => !success || failed
    case CaseStarted(started) => started.attempt != 0
    case CaseFinished(_, retried) => retried
    case StepFinished(step) => !Passed(step.result)
    case RunHookFinished(result) => !Passed(result)
    case _ => false
  }

  // ---------------------------------------------------------------- what each kind contributes

  function SourceIn(m: Envelope): seq<SourceFile> { if m.SourceRead? then [m.file] else [] }
  function PickleIn(m: Envelope): seq<Pickle> { if m.PickleMade? then [m.pickle] else [] }
  function CaseIn(m: Envelope): seq<TestCase> { if m.CaseMade? then [m.testCase] else [] }
  function StartedIn(m: Envelope): seq<Started> { if m.CaseStarted? then [m.started] else [] }
  function FinishedIn(m: Envelope): seq<GoString> { if m.CaseFinished? then [m.startedID] else [] }
  function DefinitionIn(m: Envelope): seq<GoString> { if m.DefinitionMade? then [m.definitionID] else [] }
  function StepIn(m: Envelope): seq<StepDone> { if m.StepFinished? then [m.step] else [] }
  function ReceiptIn(m: Envelope): seq<Receipt> { if m.Attached? && m.mediaType == FIXTURE then [m.receipt] else [] }
  function StartIn(m: Envelope): seq<bool> { if m.RunStarted? then [true] else [] }
  function EndIn(m: Envelope): seq<bool> { if m.RunFinished? then [true] else [] }

  function SourceURI(s: SourceFile): GoString { s.uri }
  function PickleID(p: Pickle): GoString { p.id }
  function CaseID(c: TestCase): GoString { c.id }
  function StartedID(s: Started): GoString { s.id }
  function Itself(s: GoString): GoString { s }
  function StepDoneKey(s: StepDone): StepKey { s.key }

  /** No message is fatal and no id comes twice. */
  ghost predicate Readable(messages: seq<Envelope>) {
    && (forall m :: m in messages ==> !Fatal(m))
    && DistinctBy(FlatMap(messages, SourceIn), SourceURI)
    && DistinctBy(FlatMap(messages, PickleIn), PickleID)
    && DistinctBy(FlatMap(messages, CaseIn), CaseID)
    && DistinctBy(FlatMap(messages, StartedIn), StartedID)
    && DistinctBy(FlatMap(messages, FinishedIn), Itself)
    && DistinctBy(FlatMap(messages, DefinitionIn), Itself)
    && DistinctBy(FlatMap(messages, StepIn), StepDoneKey)
  }

  datatype Stream = Stream(
    sources: map<GoString, SourceFile>,
    pickles: map<GoString, Pickle>,
    cases: map<GoString, TestCase>,
    runs: map<GoString, Started>,
    finished: map<GoString, GoString>,
    definitions: map<GoString, GoString>,
    steps: map<StepKey, StepDone>,
    receipts: multiset<Receipt>,
    starts: nat,
    ends: nat)

  /** What the scan has collected after these messages. */
  function StreamOf(messages: seq<Envelope>): Stream {
    Stream(
      ByKey(FlatMap(messages, SourceIn), SourceURI), ByKey(FlatMap(messages, PickleIn), PickleID),
      ByKey(FlatMap(messages, CaseIn), CaseID), ByKey(FlatMap(messages, StartedIn), StartedID),
      ByKey(FlatMap(messages, FinishedIn), Itself), ByKey(FlatMap(messages, DefinitionIn), Itself),
      ByKey(FlatMap(messages, StepIn), StepDoneKey), multiset(FlatMap(messages, ReceiptIn)),
      |FlatMap(messages, StartIn)|, |FlatMap(messages, EndIn)|)
  }

  lemma SameTable<T, K>(s: seq<Envelope>, t: seq<Envelope>, f: Envelope -> seq<T>, key: T -> K)
    requires multiset(s) == multiset(t) && DistinctBy(FlatMap(s, f), key)
    ensures DistinctBy(FlatMap(t, f), key) && ByKey(FlatMap(s, f), key) == ByKey(FlatMap(t, f), key)
  {
    PermutedFlatMap(s, t, f);
    ByKeyIsOrderFree(FlatMap(s, f), FlatMap(t, f), key);
  }

  lemma SameCount<T>(s: seq<Envelope>, t: seq<Envelope>, f: Envelope -> seq<T>)
    requires multiset(s) == multiset(t)
    ensures |FlatMap(s, f)| == |FlatMap(t, f)| && multiset(FlatMap(s, f)) == multiset(FlatMap(t, f))
  {
    PermutedFlatMap(s, t, f);
    PermutedElements(FlatMap(s, f), FlatMap(t, f));
  }

  /** The order of the messages changes neither whether they can be read nor what is collected. */
  lemma ReadingIsOrderFree(s: seq<Envelope>, t: seq<Envelope>)
    requires multiset(s) == multiset(t) && Readable(s)
    ensures Readable(t) && StreamOf(s) == StreamOf(t)
  {
    hide FlatMap, ByKey, DistinctBy, Fatal;
    PermutedElements(s, t);
    forall m | m in t
      ensures !Fatal(m)
    {
      assert m in Elements(t);
      assert m in s;
    }
    SameTable(s, t, SourceIn, SourceURI);
    SameTable(s, t, PickleIn, PickleID);
    SameTable(s, t, CaseIn, CaseID);
    SameTable(s, t, StartedIn, StartedID);
    SameTable(s, t, FinishedIn, Itself);
    SameTable(s, t, DefinitionIn, Itself);
    SameTable(s, t, StepIn, StepDoneKey);
    SameCount(s, t, ReceiptIn);
    SameCount(s, t, StartIn);
    SameCount(s, t, EndIn);
  }

  /** Every collected step result passed. */
  lemma CollectedStepsPassed(messages: seq<Envelope>, key: StepKey)
    requires Readable(messages) && key in StreamOf(messages).steps
    ensures Passed(StreamOf(messages).steps[key].result) && StreamOf(messages).steps[key].key == key
  {
    hide FlatMap, ByKey, DistinctBy, Passed;
    ByKeyLists(FlatMap(messages, StepIn), StepDoneKey);
    InFlatMap(messages, StepIn);
    var step := StreamOf(messages).steps[key];
    assert step in FlatMap(messages, StepIn);
    var m :| m in messages && step in StepIn(m);
    assert !Fatal(m);
  }
}
