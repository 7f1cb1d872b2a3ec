/** How long a lease protects its holder, what it lets him publish, and how long a job rests. */
module LocalizationLeases {
  import opened GoStrings
  import opened Options
  import Snapshots
  import opened LocalizationQueue

  // ---------------------------------------------------------------- what a translation is

  /** The texts of a content: title, body, then the steps. */
  function TextsOf(c: Content): seq<GoString> {
    [c.title, c.body] + if c.steps.Some? then c.steps.value else []
  }

  /** A title of at most a thousand bytes that is not blank, a body of at most two hundred thousand,
      and as many steps as the source; no text is left out or made up, and none loses a protected value. */
  ghost predicate IsTranslation(x: Texts, source: Content, target: Content) {
    && TrimSpace(target.title) != "" && |target.title| <= 1000 && |target.body| <= 200000 && target.steps != None
    && |TextsOf(source)| == |TextsOf(target)|
    && forall i :: 0 <= i < |TextsOf(source)| ==>
         && (TrimSpace(TextsOf(source)[i]) == "" <==> TrimSpace(TextsOf(target)[i]) == "")
         && x.protected(TextsOf(source)[i]) == x.protected(TextsOf(target)[i])
  }

  lemma TextsAre(c: Content)
    ensures |TextsOf(c)| == |StepsOf(c)| + 2 && TextsOf(c)[0] == c.title && TextsOf(c)[1] == c.body
    ensures forall i :: 0 <= i < |StepsOf(c)| ==> TextsOf(c)[i + 2] == StepsOf(c)[i]
  {
  }

  lemma TranslationIff(x: Texts, source: Content, target: Content)
    ensures Translates(x, source, target) <==> IsTranslation(x, source, target)
  {
    TextsAre(source);
    TextsAre(target);
    var a, b := TextsOf(source), TextsOf(target);
    hide TextsOf, StepsOf, TrimSpace;
    if IsTranslation(x, source, target) {
      assert Faithful(x, a[0], b[0]) && Faithful(x, a[1], b[1]);
      forall i | 0 <= i < |StepsOf(source)|
        ensures Faithful(x, StepsOf(source)[i], StepsOf(target)[i])
      {
        assert a[i + 2] == StepsOf(source)[i];
      }
    }
    if Translates(x, source, target) {
      forall i | 0 <= i < |a|
        ensures Faithful(x, a[i], b[i])
      {
        if i >= 2 {
          assert a[i] == StepsOf(source)[i - 2];
        }
      }
    }
  }

  // ---------------------------------------------------------------- claims

  /** A job is claimed exactly when it is unfinished, its time has come and it has been claimed less
      than three times; the new ticket holds the title, reading body and step texts of its revision,
      and nobody else may claim the job for ten minutes. */
  lemma ClaimOutcome(x: Texts, q: Queue, i: nat, now: int)
    requires Invariant(x, q)
    ensures Enabled(q, Claim(Some(i), now)) <==>
              && i < |q.revisions|
              && (i < |q.jobs| ==> !q.jobs[i].completed && q.jobs[i].attempts < 3 && q.jobs[i].availableAt <= now)
              && (i >= |q.jobs| ==> 0 <= now)
    ensures |q.jobs| <= |q.revisions|
    ensures Enabled(q, Claim(Some(i), now)) ==>
              var t, n := Next(x, q, Claim(Some(i), now)), |q.tickets|;
              && t.revisions == q.revisions && t.rows == q.rows && |t.jobs| == |q.revisions| && |t.tickets| == n + 1
              && t.tickets[..n] == q.tickets && t.tickets[n].revision == i && t.tickets[n].sourceHash == q.revisions[i].hash
              && Says(x, q.revisions[i].entry, t.tickets[n].source)
              && t.jobs[i] == Job((if i < |q.jobs| then q.jobs[i].attempts else 0) + 1, Some(n), now + 600, false)
              && forall k :: 0 <= k < |q.jobs| && k != i ==> t.jobs[k] == q.jobs[k]
  {
    JobsAreRevisions(x, q);
    hide Invariant;
  }

  predicate Says(x: Texts, e: Snapshots.Entry, source: Content) {
    && source.title == e.title && source.body == x.readingBody(e.title, e.body)
    && source.steps.Some? && |source.steps.value| == |e.steps|
    && forall i :: 0 <= i < |e.steps| ==> source.steps.value[i] == e.steps[i].text
  }

  // ---------------------------------------------------------------- finishing and giving up

  /** Finishing publishes exactly a translation of the text on the ticket, under the current lease and
      before it expires, as the first version of the ticket's revision; otherwise it changes nothing. */
  lemma FinishOutcome(x: Texts, q: Queue, k: nat, content: Content, now: int)
    requires Invariant(x, q) && k < |q.tickets|
    ensures |q.jobs| <= |q.revisions| && q.tickets[k].revision < |q.jobs|
    ensures var i := q.tickets[k].revision;
            var job := q.jobs[i];
            Next(x, q, Finish(k, content, now)) ==
              if job.lease == Some(k) && !job.completed && now < job.availableAt && IsTranslation(x, q.tickets[k].source, content)
              then q.(jobs := q.jobs[i := Job(job.attempts, None, job.availableAt, true)],
                      rows := q.rows + [Row(i, 1, q.revisions[i].hash, content)])
              else q
  {
    hide Invariant, Translates, IsTranslation, MaxVersion, Completable, Next;
    TicketIs(x, q, k);
    TranslationIff(x, q.tickets[k].source, content);
    FinishIs(x, q, k, content, now);
    if Completable(q, k, now) {
      FirstVersion(x, q, q.tickets[k].revision);
    }
  }

  lemma FinishIs(x: Texts, q: Queue, k: nat, content: Content, now: int)
    requires k < |q.tickets| && |q.jobs| <= |q.revisions| && q.tickets[k].revision < |q.jobs|
    requires q.tickets[k].sourceHash == q.revisions[q.tickets[k].revision].hash
    ensures var i := q.tickets[k].revision;
            var job := q.jobs[i];
            && (Completable(q, k, now) <==> job.lease == Some(k) && !job.completed && now < job.availableAt)
            && Next(x, q, Finish(k, content, now)) ==
               if Completable(q, k, now) && Translates(x, q.tickets[k].source, content)
               then q.(jobs := q.jobs[i := Job(job.attempts, None, job.availableAt, true)],
                       rows := q.rows + [Row(i, MaxVersion(q.rows, i) + 1, q.revisions[i].hash, content)])
               else q
  {
    hide Translates, MaxVersion;
  }

  lemma TicketIs(x: Texts, q: Queue, k: nat)
    requires Invariant(x, q) && k < |q.tickets|
    ensures |q.jobs| <= |q.revisions|
    ensures var t := q.tickets[k]; t.revision < |q.jobs| && t.sourceHash == q.revisions[t.revision].hash
  {
    hide JobFits, SourceOf, RowsFit;
  }

  lemma FirstVersion(x: Texts, q: Queue, i: nat)
    requires Invariant(x, q) && i < |q.jobs| && !q.jobs[i].completed
    ensures MaxVersion(q.rows, i) == 0
  {
    hide TicketsFor, RowsFor, Translates, SourceOf, TicketsFit, RowsFit;
    assert JobFits(q, i);
    NoRowsNoVersion(q.rows, i);
  }

  /** Giving up under a ticket that does not hold its job changes nothing. */
  lemma OnlyHolderGivesUp(x: Texts, q: Queue, k: nat, now: int)
    requires Invariant(x, q) && k < |q.tickets|
    ensures |q.jobs| <= |q.revisions| && q.tickets[k].revision < |q.jobs|
    ensures var i := q.tickets[k].revision;
            Next(x, q, GiveUp(k, now)) == if q.jobs[i].lease == Some(k) && !q.jobs[i].completed
                                          then q.(jobs := q.jobs[i := Job(q.jobs[i].attempts, None, now + 300, false)]) else q
  {
    hide JobFits, Translates, SourceOf, RowsFit;
  }

  // ---------------------------------------------------------------- a job that is left alone

  predicate Clock(step: Step, before: int) {
    match step
    case Import(_) => true
    case Claim(_, now) => now < before
    case Finish(_, _, now) => now < before
    case GiveUp(_, now) => now < before
  }

  /** Nothing is done under the ticket, and no clock reaches `until`. */
  ghost predicate LeavesAlone(steps: seq<Step>, ticket: Option<nat>, until: int) {
    forall step :: step in steps ==>
      && Clock(step, until)
      && (step.Finish? ==> ticket != Some(step.ticket)) && (step.GiveUp? ==> ticket != Some(step.ticket))
  }

  /** The job and all that is only ever added to. */
  ghost predicate Rests(q: Queue, t: Queue, i: nat) {
    && i < |q.jobs| && i < |t.jobs| && t.jobs[i] == q.jobs[i]
    && q.tickets <= t.tickets && q.revisions <= t.revisions && q.rows <= t.rows
  }

  lemma ClaimLeavesAlone(x: Texts, q: Queue, job: Option<nat>, now: int, i: nat)
    requires |q.jobs| <= |q.revisions| && Enabled(q, Claim(job, now)) && i < |q.jobs| && now < q.jobs[i].availableAt
    ensures Rests(q, Next(x, q, Claim(job, now)), i)
  {
    hide SourceOf;
  }

  lemma StepLeavesAlone(x: Texts, q: Queue, step: Step, i: nat)
    requires Invariant(x, q) && |q.jobs| <= |q.revisions| && Enabled(q, step) && i < |q.jobs|
    requires LeavesAlone([step], q.jobs[i].lease, q.jobs[i].availableAt)
    ensures Rests(q, Next(x, q, step), i)
  {
    assert step in [step];
    hide Invariant, SourceOf, IsTranslation;
    match step
    case Import(_) =>
    case Claim(job, now) => ClaimLeavesAlone(x, q, job, now, i);
    case Finish(k, content, now) => FinishOutcome(x, q, k, content, now);
    case GiveUp(k, now) => OnlyHolderGivesUp(x, q, k, now);
  }

  lemma {:induction false} JobRests(x: Texts, q: Queue, i: nat, steps: seq<Step>, t: Queue)
    requires Invariant(x, q) && IsRun(x, q, steps, t) && i < |q.jobs| && LeavesAlone(steps, q.jobs[i].lease, q.jobs[i].availableAt)
    ensures Rests(q, t, i)
    decreases |steps|
  {
    hide Invariant, Next, Enabled;
    if steps != [] {
      assert steps[0] in steps && forall step :: step in steps[1..] ==> step in steps;
      JobsAreRevisions(x, q);
      StepLeavesAlone(x, q, steps[0], i);
      StepKeepsInvariant(x, q, steps[0]);
      JobRests(x, Next(x, q, steps[0]), i, steps[1..], t);
    }
  }

  // ---------------------------------------------------------------- theorems

  /** Whoever claimed a job and finishes it within ten minutes publishes his translation, as the first
      version of the revision he was given, whatever other workers and imports did meanwhile. */
  lemma HolderPublishes(x: Texts, q: Queue, i: nat, now: int, steps: seq<Step>, t: Queue, content: Content, later: int)
    requires Invariant(x, q) && |q.jobs| <= |q.revisions| && Enabled(q, Claim(Some(i), now))
    requires IsRun(x, Next(x, q, Claim(Some(i), now)), steps, t) && LeavesAlone(steps, Some(|q.tickets|), now + 600)
    requires i < |q.revisions| && later < now + 600
    ensures |t.tickets| > |q.tickets| && |t.jobs| <= |t.revisions|
    ensures var u := Next(x, t, Finish(|q.tickets|, content, later));
            if IsTranslation(x, t.tickets[|q.tickets|].source, content) then
              && u.rows == t.rows + [Row(i, 1, q.revisions[i].hash, content)]
              && i < |u.jobs| && u.jobs[i].completed && u.jobs[i].lease == None
            else u == t
  {
    var s, k := Next(x, q, Claim(Some(i), now)), |q.tickets|;
    ClaimOutcome(x, q, i, now);
    StepKeepsInvariant(x, q, Claim(Some(i), now));
    hide Invariant, Next, Enabled, IsTranslation, LeavesAlone;
    JobRests(x, s, i, steps, t);
    RunKeepsInvariant(x, s, steps, t);
    hide IsRun;
    FinishOutcome(x, t, k, content, later);
  }

  /** Within those ten minutes nobody else gets the job. */
  lemma HolderIsAlone(x: Texts, q: Queue, i: nat, now: int, steps: seq<Step>, t: Queue, other: int)
    requires Invariant(x, q) && |q.jobs| <= |q.revisions| && Enabled(q, Claim(Some(i), now))
    requires IsRun(x, Next(x, q, Claim(Some(i), now)), steps, t) && LeavesAlone(steps, Some(|q.tickets|), now + 600)
    requires other < now + 600
    ensures !Enabled(t, Claim(Some(i), other))
  {
    var s := Next(x, q, Claim(Some(i), now));
    ClaimOutcome(x, q, i, now);
    StepKeepsInvariant(x, q, Claim(Some(i), now));
    JobRests(x, s, i, steps, t);
    RunKeepsInvariant(x, s, steps, t);
    ClaimOutcome(x, t, i, other);
  }

  /** A job that its holder gave up, and that nobody finished, rests five minutes: until then nobody
      gets it, and from then on anybody may, if it was claimed less than three times. */
  lemma GivenUpRests(x: Texts, q: Queue, k: nat, now: int, steps: seq<Step>, t: Queue, other: int)
    requires Invariant(x, q) && |q.jobs| <= |q.revisions| && Enabled(q, GiveUp(k, now))
    requires q.tickets[k].revision < |q.jobs| && q.jobs[q.tickets[k].revision].lease == Some(k)
    requires !q.jobs[q.tickets[k].revision].completed
    requires IsRun(x, Next(x, q, GiveUp(k, now)), steps, t) && LeavesAlone(steps, None, now + 300)
    ensures var i := q.tickets[k].revision;
            Enabled(t, Claim(Some(i), other)) <==> other >= now + 300 && q.jobs[i].attempts < 3
  {
    var i, s := q.tickets[k].revision, Next(x, q, GiveUp(k, now));
    StepKeepsInvariant(x, q, GiveUp(k, now));
    JobRests(x, s, i, steps, t);
    RunKeepsInvariant(x, s, steps, t);
    ClaimOutcome(x, t, i, other);
    JobsAreRevisions(x, t);
  }
}
