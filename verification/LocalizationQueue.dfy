/** The localization queue: jobs leased for ten minutes, retried at most three times, and completed
    only under their current, unexpired lease.

    Revisions and jobs are numbered by row; a lease is the number of the ticket it was issued with,
    so no two are the same. Times are in seconds. */
module LocalizationQueue {
  import opened GoStrings
  import opened Options
  import opened Collections
  import Snapshots
  import opened RepositoryStore

  const MAX_ATTEMPTS: nat := 3
  const LEASE_SECONDS: int := 600
  const RETRY_SECONDS: int := 300

  /** `steps` is `None` for a missing list. */
  datatype Content = Content(title: GoString, body: GoString, steps: Option<seq<GoString>>)

  datatype Job = Job(attempts: nat, lease: Option<nat>, availableAt: int, completed: bool)

  /** What a worker holds: the revision, its hash and text as of the claim. The lease is its number. */
  datatype Ticket = Ticket(revision: nat, sourceHash: GoString, source: Content)

  datatype Row = Row(revision: nat, version: nat, sourceHash: GoString, content: Content)

  datatype Queue = Queue(revisions: seq<Revision>, jobs: seq<Job>, tickets: seq<Ticket>, rows: seq<Row>)

  /** The values a translation must leave alone, and the prose of a body without its annotations. */
  datatype Texts = Texts(protected: GoString -> seq<GoString>, readingBody: (GoString, GoString) -> GoString)

  // ---------------------------------------------------------------- validation

  function TextOf(step: Snapshots.Step): GoString { step.text }

  function SourceOf(x: Texts, r: Revision): Content {
    Content(r.entry.title, x.readingBody(r.entry.title, r.entry.body), Some(Map(r.entry.steps, TextOf)))
  }

  predicate Blank(text: GoString) {
    TrimSpace(text) == ""
  }

  /** A text is neither omitted nor invented, and its protected values are unchanged. */
  predicate Faithful(x: Texts, source: GoString, target: GoString) {
    Blank(source) == Blank(target) && x.protected(source) == x.protected(target)
  }

  function StepsOf(c: Content): seq<GoString> {
    if c.steps.Some? then c.steps.value else []
  }

  /** `Validate`: the shape is kept and every text is faithful to its source. */
  predicate Translates(x: Texts, source: Content, target: Content) {
    && !Blank(target.title) && |target.title| <= 1000 && |target.body| <= 200_000 && target.steps.Some?
    && |StepsOf(source)| == |StepsOf(target)|
    && Faithful(x, source.title, target.title) && Faithful(x, source.body, target.body)
    && forall i :: 0 <= i < |StepsOf(source)| ==> Faithful(x, StepsOf(source)[i], StepsOf(target)[i])
  }

  method Validate(x: Texts, source: Content, target: Content) returns (ok: bool)
    ensures ok <==> Translates(x, source, target)
  {
    hide TrimSpace, Faithful;
    if Blank(target.title) || |target.title| > 1000 || |target.body| > 200_000 || target.steps.None?
       || |StepsOf(source)| != |StepsOf(target)| {
      return false;
    }
    var before, after := [source.title, source.body] + StepsOf(source), [target.title, target.body] + StepsOf(target);
    for i := 0 to |before|
      invariant forall k :: 0 <= k < i ==> Faithful(x, before[k], after[k])
    {
      if !Faithful(x, before[i], after[i]) {
        FaithfulEach(x, source, target, i);
        return false;
      }
    }
    assert before[0] == source.title && before[1] == source.body && after[0] == target.title && after[1] == target.body;
    assert forall k :: 0 <= k < |StepsOf(source)| ==> before[k + 2] == StepsOf(source)[k] && after[k + 2] == StepsOf(target)[k];
    ok := true;
  }

  lemma FaithfulEach(x: Texts, source: Content, target: Content, i: nat)
    requires |StepsOf(source)| == |StepsOf(target)| && i < |StepsOf(source)| + 2
    requires !Faithful(x, ([source.title, source.body] + StepsOf(source))[i], ([target.title, target.body] + StepsOf(target))[i])
    ensures !Translates(x, source, target)
  {
    hide Faithful, Blank;
    var before, after := [source.title, source.body] + StepsOf(source), [target.title, target.body] + StepsOf(target);
    if i >= 2 {
      assert before[i] == StepsOf(source)[i - 2] && after[i] == StepsOf(target)[i - 2];
    }
  }

  // ---------------------------------------------------------------- operations

  /** A job for every revision that has none yet. */
  function Enlisted(q: Queue): Queue {
    if |q.jobs| >= |q.revisions| then q
    else q.(jobs := q.jobs + seq(|q.revisions| - |q.jobs|, _ => Job(0, None, 0, false)))
  }

  predicate Claimable(q: Queue, i: nat, now: int) {
    i < |q.jobs| && !q.jobs[i].completed && q.jobs[i].attempts < MAX_ATTEMPTS && q.jobs[i].availableAt <= now
  }

  /** `ClaimLocalization` of one candidate; its lease is the new ticket's number. */
  function Claimed(x: Texts, q: Queue, i: nat, now: int): Queue
    requires i < |q.jobs| && i < |q.revisions|
  {
    var job := q.jobs[i];
    q.(jobs := q.jobs[i := job.(lease := Some(|q.tickets|), attempts := job.attempts + 1, availableAt := now + LEASE_SECONDS)],
       tickets := q.tickets + [Ticket(i, q.revisions[i].hash, SourceOf(x, q.revisions[i]))])
  }

  function MaxVersion(rows: seq<Row>, revision: nat): nat {
    if rows == [] then 0
    else
      var last, before := rows[|rows| - 1], MaxVersion(rows[..|rows| - 1], revision);
      if last.revision == revision && last.version > before then last.version else before
  }

  /** Only the current and unexpired lease of an unfinished job completes it. */
  predicate Completable(q: Queue, k: nat, now: int) {
    k < |q.tickets|
    && var i := q.tickets[k].revision;
       && i < |q.jobs| && i < |q.revisions| && q.revisions[i].hash == q.tickets[k].sourceHash
       && q.jobs[i].lease == Some(k) && !q.jobs[i].completed && q.jobs[i].availableAt > now
  }

  function Completed(q: Queue, k: nat, content: Content): Queue
    requires k < |q.tickets| && q.tickets[k].revision < |q.jobs|
  {
    var t := q.tickets[k];
    q.(jobs := q.jobs[t.revision := q.jobs[t.revision].(completed := true, lease := None)],
       rows := q.rows + [Row(t.revision, MaxVersion(q.rows, t.revision) + 1, t.sourceHash, content)])
  }

  /** `CompleteLocalization`. */
  function Complete(x: Texts, q: Queue, k: nat, content: Content, now: int): Queue
    requires k < |q.tickets|
  {
    if Translates(x, q.tickets[k].source, content) && Completable(q, k, now) then Completed(q, k, content) else q
  }

  /** `FailLocalization`. */
  function Fail(q: Queue, k: nat, now: int): Queue
    requires k < |q.tickets|
  {
    var i := q.tickets[k].revision;
    if i < |q.jobs| && q.jobs[i].lease == Some(k) && !q.jobs[i].completed
    then q.(jobs := q.jobs[i := q.jobs[i].(lease := None, availableAt := now + RETRY_SECONDS)]) else q
  }

  datatype Step =
    | Import(revisions: seq<Revision>)
    | Claim(job: Option<nat>, now: int)
    | Finish(ticket: nat, content: Content, now: int)
    | GiveUp(ticket: nat, now: int)

  /** A claim takes any candidate, or none; revisions are only ever added. */
  predicate Enabled(q: Queue, step: Step) {
    match step
    case Import(revisions) => q.revisions <= revisions
    case Claim(job, now) => job.Some? ==> Claimable(Enlisted(q), job.value, now)
    case Finish(k, _, _) => k < |q.tickets|
    case GiveUp(k, _) => k < |q.tickets|
  }

  function Next(x: Texts, q: Queue, step: Step): Queue
    requires |q.jobs| <= |q.revisions| && Enabled(q, step)
  {
    match step
    case Import(revisions) => q.(revisions := revisions)
    case Claim(job, now) => if job.None? then Enlisted(q) else Claimed(x, Enlisted(q), job.value, now)
    case Finish(k, content, now) => Complete(x, q, k, content, now)
    case GiveUp(k, now) => Fail(q, k, now)
  }

  // ---------------------------------------------------------------- invariant

  function TicketsFor(tickets: seq<Ticket>, i: nat): nat {
    if tickets == [] then 0 else TicketsFor(tickets[..|tickets| - 1], i) + if tickets[|tickets| - 1].revision == i then 1 else 0
  }

  function RowsFor(rows: seq<Row>, i: nat): nat {
    if rows == [] then 0 else RowsFor(rows[..|rows| - 1], i) + if rows[|rows| - 1].revision == i then 1 else 0
  }

  /** A job's lease is the last ticket issued for it. */
  ghost predicate LeaseIsLast(q: Queue, i: nat)
    requires i < |q.jobs|
  {
    q.jobs[i].lease.Some? ==>
      var k := q.jobs[i].lease.value;
      k < |q.tickets| && q.tickets[k].revision == i && forall l :: k < l < |q.tickets| ==> q.tickets[l].revision != i
  }

  ghost predicate JobFits(q: Queue, i: nat)
    requires i < |q.jobs|
  {
    && q.jobs[i].attempts <= MAX_ATTEMPTS && q.jobs[i].attempts == TicketsFor(q.tickets, i)
    && LeaseIsLast(q, i)
    && RowsFor(q.rows, i) == (if q.jobs[i].completed then 1 else 0)
  }

  ghost predicate JobsFit(q: Queue) {
    |q.jobs| <= |q.revisions| && forall i :: 0 <= i < |q.jobs| ==> JobFits(q, i)
  }

  /** A ticket carries its revision's hash and text. */
  ghost predicate TicketsFit(x: Texts, q: Queue) {
    forall k :: 0 <= k < |q.tickets| ==>
      q.tickets[k].revision < |q.jobs| && q.tickets[k].revision < |q.revisions|
      && q.tickets[k] == Ticket(q.tickets[k].revision, q.revisions[q.tickets[k].revision].hash, SourceOf(x, q.revisions[q.tickets[k].revision]))
  }

  /** A published row is a valid translation of its revision's text, under the revision's hash. */
  ghost predicate RowFits(x: Texts, q: Queue, row: Row) {
    && row.revision < |q.jobs| && row.revision < |q.revisions| && row.version == 1
    && row.sourceHash == q.revisions[row.revision].hash
    && Translates(x, SourceOf(x, q.revisions[row.revision]), row.content)
  }

  ghost predicate RowsFit(x: Texts, q: Queue) {
    forall j :: 0 <= j < |q.rows| ==> RowFits(x, q, q.rows[j])
  }

  ghost predicate Invariant(x: Texts, q: Queue) {
    JobsFit(q) && TicketsFit(x, q) && RowsFit(x, q)
  }

  lemma {:induction false} NoTicketsFor(tickets: seq<Ticket>, i: nat)
    requires forall k :: 0 <= k < |tickets| ==> tickets[k].revision != i
    ensures TicketsFor(tickets, i) == 0
  {
    if tickets != [] {
      NoTicketsFor(tickets[..|tickets| - 1], i);
    }
  }

  lemma {:induction false} NoRowsFor(rows: seq<Row>, i: nat)
    requires forall j :: 0 <= j < |rows| ==> rows[j].revision != i
    ensures RowsFor(rows, i) == 0 && MaxVersion(rows, i) == 0
  {
    if rows != [] {
      NoRowsFor(rows[..|rows| - 1], i);
    }
  }

  lemma {:induction false} NoRowsNoVersion(rows: seq<Row>, i: nat)
    requires RowsFor(rows, i) == 0
    ensures MaxVersion(rows, i) == 0 && forall j :: 0 <= j < |rows| ==> rows[j].revision != i
  {
    if rows != [] {
      NoRowsNoVersion(rows[..|rows| - 1], i);
    }
  }

  lemma TicketAdded(tickets: seq<Ticket>, t: Ticket, i: nat)
    ensures TicketsFor(tickets + [t], i) == TicketsFor(tickets, i) + if t.revision == i then 1 else 0
  {
    assert (tickets + [t])[..|tickets|] == tickets;
  }

  lemma RowAdded(rows: seq<Row>, row: Row, i: nat)
    ensures RowsFor(rows + [row], i) == RowsFor(rows, i) + if row.revision == i then 1 else 0
  {
    assert (rows + [row])[..|rows|] == rows;
  }

  lemma EnlistKeeps(x: Texts, q: Queue)
    requires Invariant(x, q)
    ensures Invariant(x, Enlisted(q)) && |Enlisted(q).jobs| == |q.revisions|
    ensures forall i :: 0 <= i < |q.jobs| ==> Enlisted(q).jobs[i] == q.jobs[i]
  {
    hide TicketsFor, RowsFor, Translates, SourceOf;
    var e := Enlisted(q);
    forall i | 0 <= i < |e.jobs|
      ensures JobFits(e, i)
    {
      if i < |q.jobs| {
        assert JobFits(q, i);
      } else {
        NoTicketsFor(q.tickets, i);
        assert forall j :: 0 <= j < |q.rows| ==> RowFits(x, q, q.rows[j]);
        NoRowsFor(q.rows, i);
      }
    }
    assert forall j :: 0 <= j < |q.rows| ==> RowFits(x, q, q.rows[j]);
  }

  lemma ClaimKeeps(x: Texts, q: Queue, i: nat, now: int)
    requires Invariant(x, q) && Claimable(q, i, now) && i < |q.revisions|
    ensures Invariant(x, Claimed(x, q, i, now))
  {
    hide TicketsFor, RowsFor, Translates, SourceOf;
    var t := Claimed(x, q, i, now);
    forall k | 0 <= k < |t.jobs|
      ensures JobFits(t, k)
    {
      assert JobFits(q, k);
      TicketAdded(q.tickets, t.tickets[|q.tickets|], k);
    }
    assert forall j :: 0 <= j < |q.rows| ==> RowFits(x, q, q.rows[j]);
  }

  lemma CompleteKeeps(x: Texts, q: Queue, k: nat, content: Content, now: int)
    requires Invariant(x, q) && k < |q.tickets| && Translates(x, q.tickets[k].source, content) && Completable(q, k, now)
    ensures Invariant(x, Completed(q, k, content))
  {
    hide TicketsFor, RowsFor, Translates, SourceOf, MaxVersion;
    var t, i := Completed(q, k, content), q.tickets[k].revision;
    assert JobFits(q, i);
    NoRowsNoVersion(q.rows, i);
    forall j | 0 <= j < |t.jobs|
      ensures JobFits(t, j)
    {
      assert JobFits(q, j);
      RowAdded(q.rows, t.rows[|q.rows|], j);
    }
    forall j | 0 <= j < |t.rows|
      ensures RowFits(x, t, t.rows[j])
    {
      if j < |q.rows| {
        assert RowFits(x, q, q.rows[j]);
      }
    }
  }

  lemma FailKeeps(x: Texts, q: Queue, k: nat, now: int)
    requires Invariant(x, q) && k < |q.tickets|
    ensures Invariant(x, Fail(q, k, now))
  {
    hide TicketsFor, RowsFor, Translates, SourceOf;
    var t := Fail(q, k, now);
    forall i | 0 <= i < |t.jobs|
      ensures JobFits(t, i)
    {
      assert JobFits(q, i);
    }
    assert forall j :: 0 <= j < |q.rows| ==> RowFits(x, q, q.rows[j]);
  }

  lemma ImportKeeps(x: Texts, q: Queue, revisions: seq<Revision>)
    requires Invariant(x, q) && q.revisions <= revisions
    ensures Invariant(x, q.(revisions := revisions))
  {
    hide TicketsFor, RowsFor, Translates, SourceOf;
    var t := q.(revisions := revisions);
    forall i | 0 <= i < |t.jobs|
      ensures JobFits(t, i)
    {
      assert JobFits(q, i);
    }
    assert forall j :: 0 <= j < |q.rows| ==> RowFits(x, q, q.rows[j]);
  }

  lemma StepKeepsInvariant(x: Texts, q: Queue, step: Step)
    requires Invariant(x, q) && Enabled(q, step)
    ensures |q.jobs| <= |q.revisions| && Invariant(x, Next(x, q, step))
  {
    JobsAreRevisions(x, q);
    hide Invariant, Translates, Completable, Fail, Enlisted, Claimed, Completed;
    match step
    case Import(revisions) => ImportKeeps(x, q, revisions);
    case Claim(job, now) =>
      EnlistKeeps(x, q);
      EnlistKeepsRevisions(q);
      if job.Some? {
        ClaimKeeps(x, Enlisted(q), job.value, now);
      }
    case Finish(k, content, now) =>
      if Translates(x, q.tickets[k].source, content) && Completable(q, k, now) {
        CompleteKeeps(x, q, k, content, now);
      }
    case GiveUp(k, now) => FailKeeps(x, q, k, now);
  }

  lemma JobsAreRevisions(x: Texts, q: Queue)
    requires Invariant(x, q)
    ensures |q.jobs| <= |q.revisions|
  {
  }

  lemma EnlistKeepsRevisions(q: Queue)
    ensures Enlisted(q).revisions == q.revisions && Enlisted(q).tickets == q.tickets && Enlisted(q).rows == q.rows
  {
  }

  // ---------------------------------------------------------------- runs

  ghost predicate IsRun(x: Texts, q: Queue, steps: seq<Step>, t: Queue)
    decreases |steps|
  {
    if steps == [] then t == q
    else |q.jobs| <= |q.revisions| && Enabled(q, steps[0]) && IsRun(x, Next(x, q, steps[0]), steps[1..], t)
  }

  const EMPTY := Queue([], [], [], [])

  lemma {:induction false} RunKeepsInvariant(x: Texts, q: Queue, steps: seq<Step>, t: Queue)
    requires Invariant(x, q) && IsRun(x, q, steps, t)
    ensures Invariant(x, t)
    decreases |steps|
  {
    hide Invariant, Next, Enabled;
    if steps != [] {
      StepKeepsInvariant(x, q, steps[0]);
      RunKeepsInvariant(x, Next(x, q, steps[0]), steps[1..], t);
    }
  }

  lemma EmptyIsKept(x: Texts)
    ensures Invariant(x, EMPTY)
  {
  }

  /** Over every interleaving of workers and imports: a job is claimed at most three times, and a
      completed job has exactly one translation, any other none; what is published is a valid
      translation of the revision with that hash. */
  lemma EveryRunIsSafe(x: Texts, steps: seq<Step>, q: Queue)
    requires IsRun(x, EMPTY, steps, q)
    ensures forall i :: 0 <= i < |q.jobs| ==> TicketsFor(q.tickets, i) <= MAX_ATTEMPTS
    ensures forall i :: 0 <= i < |q.jobs| ==> RowsFor(q.rows, i) == if q.jobs[i].completed then 1 else 0
    ensures forall j :: 0 <= j < |q.rows| ==> RowFits(x, q, q.rows[j])
  {
    hide TicketsFor, RowsFor, Translates, SourceOf, LeaseIsLast, Next, Enabled;
    EmptyIsKept(x);
    RunKeepsInvariant(x, EMPTY, steps, q);
    forall i | 0 <= i < |q.jobs|
      ensures TicketsFor(q.tickets, i) <= MAX_ATTEMPTS && RowsFor(q.rows, i) == if q.jobs[i].completed then 1 else 0
    {
      assert JobFits(q, i);
    }
  }

  /** A ticket that is not the last one issued for its job, or whose time is up, publishes nothing. */
  lemma OldTicketsPublishNothing(x: Texts, q: Queue, k: nat, content: Content, now: int)
    requires Invariant(x, q) && k < |q.tickets|
    requires (exists l :: k < l < |q.tickets| && q.tickets[l].revision == q.tickets[k].revision)
             || (q.tickets[k].revision < |q.jobs| && q.jobs[q.tickets[k].revision].availableAt <= now)
    ensures Complete(x, q, k, content, now) == q
  {
    hide TicketsFor, RowsFor, Translates, SourceOf;
    var i := q.tickets[k].revision;
    if i < |q.jobs| {
      assert JobFits(q, i);
    }
  }

  // ---------------------------------------------------------------- draining ends

  /** The attempts left over all jobs. */
  function AttemptsLeft(jobs: seq<Job>): nat {
    if jobs == [] then 0
    else AttemptsLeft(jobs[..|jobs| - 1]) + if jobs[|jobs| - 1].attempts < MAX_ATTEMPTS then MAX_ATTEMPTS - jobs[|jobs| - 1].attempts else 0
  }

  function Left(job: Job): nat {
    if job.attempts < MAX_ATTEMPTS then MAX_ATTEMPTS - job.attempts else 0
  }

  lemma {:induction false} OneJobChanged(jobs: seq<Job>, i: nat, job: Job)
    requires i < |jobs|
    ensures AttemptsLeft(jobs[i := job]) + Left(jobs[i]) == AttemptsLeft(jobs) + Left(job)
  {
    var n := |jobs| - 1;
    if i < n {
      OneJobChanged(jobs[..n], i, job);
      assert jobs[i := job][..n] == jobs[..n][i := job];
    } else {
      assert jobs[i := job][..n] == jobs[..n];
    }
  }

  /** Once every revision has its job, a claim uses up exactly one of the attempts left, and finishing
      or giving up uses none: at most that many claims can follow. */
  lemma ClaimsUseUpAttempts(x: Texts, q: Queue, step: Step)
    requires Invariant(x, q) && Enabled(q, step) && !step.Import? && |q.jobs| == |q.revisions|
    ensures var t := Next(x, q, step);
            && |t.jobs| == |t.revisions|
            && AttemptsLeft(t.jobs) == AttemptsLeft(q.jobs) - if step.Claim? && step.job.Some? then 1 else 0
  {
    hide TicketsFor, RowsFor, Translates, SourceOf, AttemptsLeft, MaxVersion, TicketsFit, RowsFit, JobFits;
    assert Enlisted(q) == q;
    match step
    case Claim(job, now) =>
      if job.Some? {
        OneJobChanged(q.jobs, job.value, Claimed(x, q, job.value, now).jobs[job.value]);
      }
    case Finish(k, content, now) =>
      if Translates(x, q.tickets[k].source, content) && Completable(q, k, now) {
        OneJobChanged(q.jobs, q.tickets[k].revision, Completed(q, k, content).jobs[q.tickets[k].revision]);
      }
    case GiveUp(k, now) =>
      if q.tickets[k].revision < |q.jobs| {
        OneJobChanged(q.jobs, q.tickets[k].revision, Fail(q, k, now).jobs[q.tickets[k].revision]);
      }
  }
}
