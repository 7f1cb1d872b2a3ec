/** The development queue over all interleavings. */
module DevelopmentRuns {
  import opened GoStrings
  import opened Options
  import opened DevelopmentProtocol

  // ---------------------------------------------------------------- who holds a claim

  /** No other request is under way in the session of one that is. */
  lemma OthersElsewhere(s: State, i: nat, k: nat)
    requires OneEach(s) && i < |s.requests| && k < |s.requests| && i != k && Active(s.requests[i]) && Active(s.requests[k])
    ensures s.requests[i].session != s.requests[k].session
  {
  }

  /** A request moving on without touching its session's claim keeps the claims fitting. */
  lemma MoveKeepsClaims(s: State, i: nat, stage: Stage)
    requires ClaimsFit(s) && OneEach(s) && i < |s.requests| && Active(s.requests[i])
    requires stage.Done? || ClaimFits(s, s.requests[i].(stage := stage))
    ensures ClaimsFit(Go(s, i, stage)) && OneEach(Go(s, i, stage))
  {
    hide Holds;
    var t := Go(s, i, stage);
    forall k | 0 <= k < |t.requests| && Active(t.requests[k])
      ensures ClaimFits(t, t.requests[k])
    {
      if k != i {
        assert ClaimFits(s, s.requests[k]);
      }
    }
  }

  /** Changing or dropping one session's claim leaves the requests of the others fitting. */
  lemma ClaimChangeKeepsClaims(s: State, i: nat, claims: Claims)
    requires ClaimsFit(s) && OneEach(s) && i < |s.requests| && Active(s.requests[i])
    requires forall k :: k != s.requests[i].session ==> (k in claims <==> k in s.claims) && (k in claims ==> claims[k] == s.claims[k])
    ensures var t := Go(s.(claims := claims), i, Done); ClaimsFit(t) && OneEach(t)
  {
    var t := Go(s.(claims := claims), i, Done);
    forall k | 0 <= k < |t.requests| && Active(t.requests[k])
      ensures ClaimFits(t, t.requests[k])
    {
      OthersElsewhere(s, i, k);
      assert ClaimFits(s, s.requests[k]);
    }
  }

  lemma ActiveHasClaim(s: State, i: nat)
    requires ClaimsFit(s) && i < |s.requests| && Active(s.requests[i])
    ensures s.requests[i].session in s.claims && ClaimFits(s, s.requests[i])
  {
  }

  lemma BeginnableIsIdle(s: State, session: GoString, task: GoString, lease: GoString)
    requires ClaimsFit(s) && Beginnable(s.claims, session, task, lease)
    ensures forall i :: 0 <= i < |s.requests| && Active(s.requests[i]) ==> s.requests[i].session != session
  {
    forall i | 0 <= i < |s.requests| && Active(s.requests[i])
      ensures s.requests[i].session != session
    {
      assert ClaimFits(s, s.requests[i]);
    }
  }

  lemma StepKeepsClaims(s: State, step: Step)
    requires ClaimsFit(s) && OneEach(s) && Enabled(s, step)
    ensures ClaimsFit(Next(s, step)) && OneEach(Next(s, step))
  {
    hide ClaimsFit, OneEach, Finished;
    match step
    case Approve(_) => QueueKeepsClaims(s, Next(s, step));
    case StartClaim(session, task, lease) => StartClaimKeepsClaims(s, session, task, lease);
    case ClaimRow(i, revision, reported) =>
      ActiveHasClaim(s, i);
      var stage := if reported then ToBind(revision) else ToRelease;
      MoveKeepsClaims(s, i, stage);
      QueueKeepsClaims(Go(s, i, stage), Next(s, step));
    case ClaimNothing(i) =>
      ActiveHasClaim(s, i);
      MoveKeepsClaims(s, i, ToRelease);
    case Bind(i) => BindKeepsClaims(s, i);
    case StartComplete(session, task, lease) => BeginKeepsClaims(s, session, task, lease, ToApply(RevisionOf(s, session)));
    case StartBlock(session, task, lease) => BeginKeepsClaims(s, session, task, lease, ToBlock(RevisionOf(s, session)));
    case Apply(i, succeeded) =>
      ActiveHasClaim(s, i);
      var stage := if succeeded then ToComplete(s.requests[i].stage.revision) else ToRelease;
      MoveKeepsClaims(s, i, stage);
      QueueKeepsClaims(Go(s, i, stage), Next(s, step));
    case CompleteRow(i, written) =>
      ActiveHasClaim(s, i);
      MoveKeepsClaims(s, i, ToRelease);
      QueueKeepsClaims(Go(s, i, ToRelease), Next(s, step));
    case BlockRow(i, written, reported) =>
      ActiveHasClaim(s, i);
      var stage := Next(s, step).requests[i].stage;
      MoveKeepsClaims(s, i, stage);
      QueueKeepsClaims(Go(s, i, stage), Next(s, step));
    case Retry(i) => ClaimChangeKeepsClaims(s, i, Next(s, step).claims);
    case Release(i) => ClaimChangeKeepsClaims(s, i, Next(s, step).claims);
  }

  lemma QueueKeepsClaims(s: State, t: State)
    requires ClaimsFit(s) && OneEach(s) && t.claims == s.claims && t.requests == s.requests
    ensures ClaimsFit(t) && OneEach(t)
  {
    forall k | 0 <= k < |t.requests| && Active(t.requests[k])
      ensures ClaimFits(t, t.requests[k])
    {
      assert ClaimFits(s, s.requests[k]);
    }
  }

  lemma StartClaimKeepsClaims(s: State, session: GoString, task: GoString, lease: GoString)
    requires ClaimsFit(s) && OneEach(s) && Enabled(s, StartClaim(session, task, lease))
    ensures var t := Next(s, StartClaim(session, task, lease)); ClaimsFit(t) && OneEach(t)
  {
    var t := Next(s, StartClaim(session, task, lease));
    if session in s.claims {
      QueueKeepsClaims(s, t);
    } else {
      var r := Request(session, task, lease, ToClaim);
      forall i | 0 <= i < |s.requests| && Active(s.requests[i])
        ensures s.requests[i].session != session
      {
        ActiveHasClaim(s, i);
      }
      QueueKeepsClaims(s.(claims := t.claims, requests := s.requests + [r]), t);
    }
  }

  lemma BindKeepsClaims(s: State, i: nat)
    requires ClaimsFit(s) && OneEach(s) && Enabled(s, Bind(i))
    ensures ClaimsFit(Next(s, Bind(i))) && OneEach(Next(s, Bind(i)))
  {
    ActiveHasClaim(s, i);
    var t := Next(s, Bind(i));
    ClaimChangeKeepsClaims(s, i, t.claims);
    QueueKeepsClaims(Go(s.(claims := t.claims), i, Done), t);
  }

  lemma BeginKeepsClaims(s: State, session: GoString, task: GoString, lease: GoString, stage: Stage)
    requires ClaimsFit(s) && OneEach(s) && (stage == ToApply(RevisionOf(s, session)) || stage == ToBlock(RevisionOf(s, session)))
    ensures var t := Start(s, session, task, lease, stage); ClaimsFit(t) && OneEach(t)
  {
    if Beginnable(s.claims, session, task, lease) {
      BeginnableIsIdle(s, session, task, lease);
    }
  }

  // ---------------------------------------------------------------- bindings

  lemma StepKeepsBindings(s: State, step: Step)
    requires ClaimsFit(s) && BindingsFit(s) && ClaimedFit(s) && Enabled(s, step)
    ensures BindingsFit(Next(s, step))
  {
    hide ClaimsFit, Finished, Holds;
    var t := Next(s, step);
    LeftStays(s, step);
    if step.Bind? {
      assert Left(s, s.requests[step.request].stage.revision);
    } else {
      assert t.bindings == s.bindings;
      ClaimsNameTheSame(s, step);
    }
  }

  lemma LeftStays(s: State, step: Step)
    requires Enabled(s, step)
    ensures forall revision :: Left(s, revision) ==> Left(Next(s, step), revision)
  {
    hide Holds;
  }

  /** Apart from binding, no step changes which revision a session's claim names. */
  lemma ClaimsNameTheSame(s: State, step: Step)
    requires Enabled(s, step) && !step.Bind?
    ensures forall k :: k in Next(s, step).claims && Next(s, step).claims[k].revision.Some? ==>
              k in s.claims && s.claims[k].revision == Next(s, step).claims[k].revision
  {
    hide SameLease, Finished;
  }

  lemma StepKeepsClaimed(s: State, step: Step)
    requires BindingsFit(s) && ClaimedFit(s) && Enabled(s, step)
    ensures ClaimedFit(Next(s, step))
  {
    hide BindingsFit, ClaimedFit, Next, Enabled;
    if step.ClaimRow? {
      ClaimRowKeepsClaimed(s, step);
    } else if step.Bind? {
      BindKeepsClaimed(s, step.request);
    } else {
      OthersKeepClaimed(s, step);
    }
  }

  lemma ClaimRowKeepsClaimed(s: State, step: Step)
    requires BindingsFit(s) && ClaimedFit(s) && Enabled(s, step) && step.ClaimRow?
    ensures ClaimedFit(Next(s, step))
  {
    hide BindingsFit;
    QueuedIsUnbound(s, step.revision);
  }

  lemma BindKeepsClaimed(s: State, i: nat)
    requires ClaimedFit(s) && Enabled(s, Bind(i))
    ensures ClaimedFit(Next(s, Bind(i)))
  {
    hide Bindable;
    var t := Next(s, Bind(i));
    forall k | 0 <= k < |t.requests| && t.requests[k].stage.ToBind?
      ensures k != i && s.requests[k] == t.requests[k] && t.requests[k].stage.revision != s.requests[i].stage.revision
    {
    }
  }

  /** The remaining steps send no request to bind and leave the bindings alone. */
  lemma OthersKeepClaimed(s: State, step: Step)
    requires ClaimedFit(s) && Enabled(s, step) && !step.ClaimRow? && !step.Bind?
    ensures ClaimedFit(Next(s, step))
  {
    hide Holds, Finished, ClaimedFit;
    LeftStays(s, step);
    var t := Next(s, step);
    assert t.bindings == s.bindings;
    assert forall k :: 0 <= k < |t.requests| && t.requests[k].stage.ToBind? ==> k < |s.requests| && t.requests[k] == s.requests[k];
    SameBinders(s, t);
  }

  lemma SameBinders(s: State, t: State)
    requires ClaimedFit(s) && t.bindings == s.bindings && forall revision :: Left(s, revision) ==> Left(t, revision)
    requires forall k :: 0 <= k < |t.requests| && t.requests[k].stage.ToBind? ==> k < |s.requests| && t.requests[k] == s.requests[k]
    ensures ClaimedFit(t)
  {
  }

  lemma QueuedIsUnbound(s: State, revision: GoString)
    requires BindingsFit(s) && ClaimedFit(s) && revision in s.queue && s.queue[revision] == Queued
    ensures revision !in s.bindings
    ensures forall k :: 0 <= k < |s.requests| && s.requests[k].stage.ToBind? ==> s.requests[k].stage.revision != revision
  {
  }

  // ---------------------------------------------------------------- the target

  /** Requests other than the given one stay untouched when the claims name the same revisions. */
  lemma UntouchedStays(s: State, r: Request, t: State)
    requires Untouched(s, r) && t.applied == s.applied && RevisionOf(t, r.session) == RevisionOf(s, r.session)
    ensures Untouched(t, r)
  {
  }

  lemma ApplyAddsOne(s: State, i: nat, succeeded: bool)
    requires ClaimsFit(s) && OneEach(s) && BindingsFit(s) && AppliedFit(s) && Enabled(s, Apply(i, succeeded))
    ensures AppliedFit(Next(s, Apply(i, succeeded)))
  {
    hide Holds;
    var t, revision, session := Next(s, Apply(i, succeeded)), s.requests[i].stage.revision, s.requests[i].session;
    ActiveHasClaim(s, i);
    assert Untouched(s, s.requests[i]);
    assert revision in s.bindings;
    forall k | 0 <= k < |t.requests|
      ensures Untouched(t, t.requests[k])
    {
      if k != i && Active(s.requests[k]) {
        OthersElsewhere(s, i, k);
        ActiveHasClaim(s, k);
        assert Untouched(s, s.requests[k]);
        OtherRevision(s, session, s.requests[k].session, revision);
      }
    }
  }

  lemma OtherRevision(s: State, session: GoString, other: GoString, revision: GoString)
    requires BindingsFit(s) && session in s.claims && other in s.claims && session != other && s.claims[session].revision == Some(revision)
    ensures s.claims[other].revision != Some(revision)
  {
  }

  lemma BindKeepsApplied(s: State, i: nat)
    requires ClaimsFit(s) && OneEach(s) && ClaimedFit(s) && AppliedFit(s) && Enabled(s, Bind(i))
    ensures AppliedFit(Next(s, Bind(i)))
  {
    var t, r := Next(s, Bind(i)), s.requests[i];
    ActiveHasClaim(s, i);
    assert r.stage.revision !in s.applied;
    forall k | 0 <= k < |t.requests|
      ensures Untouched(t, t.requests[k])
    {
      if k != i && Active(s.requests[k]) {
        OthersElsewhere(s, i, k);
        UntouchedStays(s, s.requests[k], t);
      }
    }
  }

  lemma StartKeepsApplied(s: State, session: GoString, task: GoString, lease: GoString, stage: Stage)
    requires ClaimsFit(s) && AppliedFit(s) && (stage == ToApply(RevisionOf(s, session)) || stage == ToBlock(RevisionOf(s, session)))
    ensures AppliedFit(Start(s, session, task, lease, stage))
  {
    var t := Start(s, session, task, lease, stage);
    if Beginnable(s.claims, session, task, lease) {
      forall k | 0 <= k < |t.requests|
        ensures Untouched(t, t.requests[k])
      {
        if k < |s.requests| {
          assert Untouched(s, s.requests[k]);
        }
      }
    }
  }

  lemma RetryKeepsApplied(s: State, i: nat)
    requires ClaimsFit(s) && AppliedFit(s) && Enabled(s, Retry(i))
    ensures AppliedFit(Next(s, Retry(i)))
  {
    var t := Next(s, Retry(i));
    ActiveHasClaim(s, i);
    assert Untouched(s, s.requests[i]);
    forall k | 0 <= k < |t.requests|
      ensures Untouched(t, t.requests[k])
    {
      if k != i {
        UntouchedStays(s, s.requests[k], t);
      }
    }
  }

  lemma ReleaseKeepsApplied(s: State, i: nat)
    requires ClaimsFit(s) && OneEach(s) && AppliedFit(s) && Enabled(s, Release(i))
    ensures AppliedFit(Next(s, Release(i)))
  {
    var t := Next(s, Release(i));
    forall k | 0 <= k < |t.requests|
      ensures Untouched(t, t.requests[k])
    {
      if k != i && Active(s.requests[k]) {
        OthersElsewhere(s, i, k);
        UntouchedStays(s, s.requests[k], t);
      }
    }
  }

  /** The remaining steps touch neither the claims nor what was applied. */
  lemma QueueKeepsApplied(s: State, step: Step)
    requires ClaimsFit(s) && AppliedFit(s) && Enabled(s, step)
    requires step.Approve? || step.StartClaim? || step.ClaimRow? || step.ClaimNothing? || step.CompleteRow? || step.BlockRow?
    ensures AppliedFit(Next(s, step))
  {
    hide Finished;
    var t := Next(s, step);
    forall k | 0 <= k < |t.requests|
      ensures Untouched(t, t.requests[k])
    {
      if k < |s.requests| {
        assert Untouched(s, s.requests[k]);
        if Active(s.requests[k]) {
          ActiveHasClaim(s, k);
        }
      }
    }
  }

  lemma StepKeepsApplied(s: State, step: Step)
    requires Invariant(s) && Enabled(s, step)
    ensures AppliedFit(Next(s, step))
  {
    hide ClaimsFit, OneEach, BindingsFit, ClaimedFit, AppliedFit, DevelopedFit, Next;
    match step
    case Apply(i, succeeded) => ApplyAddsOne(s, i, succeeded);
    case Bind(i) => BindKeepsApplied(s, i);
    case StartComplete(session, task, lease) => StartsAre(s, step, session, task, lease, ToApply(RevisionOf(s, session)));
    case StartBlock(session, task, lease) => StartsAre(s, step, session, task, lease, ToBlock(RevisionOf(s, session)));
    case Retry(i) => RetryKeepsApplied(s, i);
    case Release(i) => ReleaseKeepsApplied(s, i);
    case _ => QueueKeepsApplied(s, step);
  }

  lemma StartsAre(s: State, step: Step, session: GoString, task: GoString, lease: GoString, stage: Stage)
    requires ClaimsFit(s) && AppliedFit(s)
    requires (step == StartComplete(session, task, lease) && stage == ToApply(RevisionOf(s, session)))
             || (step == StartBlock(session, task, lease) && stage == ToBlock(RevisionOf(s, session)))
    ensures AppliedFit(Next(s, step))
  {
    hide AppliedFit, ClaimsFit;
    StartKeepsApplied(s, session, task, lease, stage);
  }

  lemma StepKeepsDeveloped(s: State, step: Step)
    requires DevelopedFit(s) && Enabled(s, step)
    ensures DevelopedFit(Next(s, step))
  {
    hide Holds, Bindable;
  }

  lemma StepKeepsInvariant(s: State, step: Step)
    requires Invariant(s) && Enabled(s, step)
    ensures Invariant(Next(s, step))
  {
    hide ClaimsFit, OneEach, BindingsFit, ClaimedFit, AppliedFit, DevelopedFit, Next, Enabled;
    StepKeepsClaims(s, step);
    StepKeepsBindings(s, step);
    StepKeepsClaimed(s, step);
    StepKeepsApplied(s, step);
    StepKeepsDeveloped(s, step);
  }

  // ---------------------------------------------------------------- runs

  ghost predicate IsRun(s: State, steps: seq<Step>, t: State)
    decreases |steps|
  {
    if steps == [] then t == s else Enabled(s, steps[0]) && IsRun(Next(s, steps[0]), steps[1..], t)
  }

  /** From queued to running, then developed or blocked, and there it stays. */
  predicate Follows(before: Status, after: Status) {
    before == after || before == Queued || (before == Running && after != Queued)
  }

  lemma StatusMovesForward(s: State, step: Step)
    requires Enabled(s, step)
    ensures forall revision :: revision in s.queue ==>
              && revision in Next(s, step).queue
              && var after := Next(s, step).queue[revision];
                 after == s.queue[revision] || (s.queue[revision] == Queued && after == Running)
                 || (s.queue[revision] == Running && (after == Developed || after == Blocked))
  {
    hide Holds;
  }

  lemma {:induction false} RunKeepsInvariant(s: State, steps: seq<Step>, t: State)
    requires Invariant(s) && IsRun(s, steps, t)
    ensures Invariant(t)
    ensures forall revision :: revision in s.queue ==> revision in t.queue && Follows(s.queue[revision], t.queue[revision])
    decreases |steps|
  {
    hide Invariant, Next, Enabled;
    if steps != [] {
      StepKeepsInvariant(s, steps[0]);
      StatusMovesForward(s, steps[0]);
      RunKeepsInvariant(Next(s, steps[0]), steps[1..], t);
    }
  }

  lemma StartIsKept()
    ensures Invariant(START)
  {
  }

  /** Over every interleaving: no revision is ever bound to two claims, the target is applied at most
      once for a revision, and only after binding it, and what is developed was applied. */
  lemma EachRevisionIsAppliedOnce(steps: seq<Step>, s: State)
    requires IsRun(START, steps, s)
    ensures forall i, j :: 0 <= i < j < |s.bindings| ==> s.bindings[i] != s.bindings[j]
    ensures forall i, j :: 0 <= i < j < |s.applied| ==> s.applied[i] != s.applied[j]
    ensures forall revision :: revision in s.applied ==> revision in s.bindings
    ensures forall revision :: revision in s.queue && s.queue[revision] == Developed ==> revision in s.applied
    ensures forall revision :: revision in s.bindings ==> revision in s.queue && s.queue[revision] != Queued
    ensures forall k, l :: k in s.claims && l in s.claims && s.claims[k].revision.Some? && s.claims[k].revision == s.claims[l].revision ==> k == l
  {
    hide ClaimsFit, OneEach, ClaimedFit;
    StartIsKept();
    RunKeepsInvariant(START, steps, s);
  }

  /** A request that reserved its session always gets to bind the row it claimed. */
  lemma ClaimedRowIsBound(s: State, i: nat)
    requires Invariant(s) && Enabled(s, Bind(i))
    ensures var t := Next(s, Bind(i));
            t.bindings == s.bindings + [s.requests[i].stage.revision]
            && t.claims[s.requests[i].session].revision == Some(s.requests[i].stage.revision)
  {
    ActiveHasClaim(s, i);
  }

  // ---------------------------------------------------------------- blocked revisions

  /** A blocked revision is not applied and no claim or request can still get it applied. */
  ghost predicate BlockedStaysOut(s: State, revision: GoString) {
    && revision !in s.applied && revision in s.bindings
    && (forall k :: k in s.claims && s.claims[k].revision == Some(revision) ==> s.claims[k].finishing)
    && (forall i :: 0 <= i < |s.requests| ==> !MayApply(s, s.requests[i], revision))
  }

  predicate MayApply(s: State, r: Request, revision: GoString) {
    match r.stage
    case ToApply(other) => other == revision
    case ToBlock(other) => other == revision
    case ToRetry => RevisionOf(s, r.session) == revision
    case _ => false
  }

  ghost predicate BlockedFits(s: State, revision: GoString) {
    IsBlocked(s, revision) ==> BlockedStaysOut(s, revision)
  }

  predicate IsBlocked(s: State, revision: GoString) {
    revision in s.queue && s.queue[revision] == Blocked
  }

  /** The database blocks the revision's row, and the caller does not learn of it. */
  predicate LosesAnswer(s: State, step: Step, revision: GoString) {
    step.BlockRow? && step.written && !step.reported && At(s, step.request, ToBlock(revision))
    && revision in s.queue && s.queue[revision] == Running
  }

  predicate Applies(s: State, step: Step, revision: GoString) {
    step.Apply? && At(s, step.request, ToApply(revision))
  }

  /** Somewhere in the run an answer about the revision is lost. */
  ghost predicate AnswerLost(s: State, steps: seq<Step>, revision: GoString)
    decreases |steps|
  {
    steps != [] && Enabled(s, steps[0])
    && (LosesAnswer(s, steps[0], revision) || AnswerLost(Next(s, steps[0]), steps[1..], revision))
  }

  ghost predicate AppliedIn(s: State, steps: seq<Step>, revision: GoString)
    decreases |steps|
  {
    steps != [] && Enabled(s, steps[0])
    && (Applies(s, steps[0], revision) || AppliedIn(Next(s, steps[0]), steps[1..], revision))
  }

  /** Somewhere in the run an answer about the revision is lost, and later the revision is applied. */
  ghost predicate LostThenApplied(s: State, steps: seq<Step>, revision: GoString)
    decreases |steps|
  {
    steps != [] && Enabled(s, steps[0])
    && ((LosesAnswer(s, steps[0], revision) && AppliedIn(Next(s, steps[0]), steps[1..], revision))
        || LostThenApplied(Next(s, steps[0]), steps[1..], revision))
  }

  lemma BlockedThroughClaims(s: State, step: Step, revision: GoString)
    requires Invariant(s) && Enabled(s, step) && BlockedStaysOut(s, revision) && (step.Bind? || step.Retry? || step.Release?)
    ensures BlockedStaysOut(Next(s, step), revision)
  {
    hide AppliedFit, DevelopedFit, SameLease;
    var t, i := Next(s, step), step.request;
    ActiveHasClaim(s, i);
    assert !MayApply(s, s.requests[i], revision);
    assert step.Bind? ==> s.requests[i].stage.revision !in s.bindings;
    forall k | 0 <= k < |t.requests|
      ensures !MayApply(t, t.requests[k], revision)
    {
      if k != i && Active(s.requests[k]) {
        OthersElsewhere(s, i, k);
        assert !MayApply(s, s.requests[k], revision);
      }
    }
  }

  lemma BlockedThroughMoves(s: State, step: Step, revision: GoString)
    requires Invariant(s) && Enabled(s, step) && BlockedStaysOut(s, revision) && (step.Apply? || step.CompleteRow? || step.BlockRow?)
    ensures BlockedStaysOut(Next(s, step), revision)
  {
    hide OneEach, BindingsFit, ClaimedFit, AppliedFit, DevelopedFit, Finished, SameLease;
    var t, i := Next(s, step), step.request;
    ActiveHasClaim(s, i);
    assert !MayApply(s, s.requests[i], revision);
    forall k | 0 <= k < |t.requests|
      ensures !MayApply(t, t.requests[k], revision)
    {
      assert !MayApply(s, s.requests[k], revision);
    }
  }

  lemma BlockedThroughStarts(s: State, step: Step, revision: GoString)
    requires Invariant(s) && Enabled(s, step) && BlockedStaysOut(s, revision)
    requires !(step.Bind? || step.Retry? || step.Release? || step.Apply? || step.CompleteRow? || step.BlockRow?)
    ensures BlockedStaysOut(Next(s, step), revision)
  {
    hide OneEach, BindingsFit, ClaimedFit, AppliedFit, DevelopedFit, SameLease;
    var t := Next(s, step);
    forall k | 0 <= k < |t.requests|
      ensures !MayApply(t, t.requests[k], revision)
    {
      if k < |s.requests| {
        assert !MayApply(s, s.requests[k], revision);
        if Active(s.requests[k]) {
          ActiveHasClaim(s, k);
        }
      }
    }
  }

  lemma BlockedStays(s: State, step: Step, revision: GoString)
    requires Invariant(s) && Enabled(s, step) && BlockedStaysOut(s, revision)
    ensures BlockedStaysOut(Next(s, step), revision)
  {
    hide Invariant, BlockedStaysOut, Next, Enabled;
    if step.Bind? || step.Retry? || step.Release? {
      BlockedThroughClaims(s, step, revision);
    } else if step.Apply? || step.CompleteRow? || step.BlockRow? {
      BlockedThroughMoves(s, step, revision);
    } else {
      BlockedThroughStarts(s, step, revision);
    }
  }

  lemma NewlyBlocked(s: State, i: nat)
    requires Invariant(s) && Enabled(s, BlockRow(i, true, true)) && s.queue != Next(s, BlockRow(i, true, true)).queue
    ensures BlockedStaysOut(Next(s, BlockRow(i, true, true)), s.requests[i].stage.revision)
  {
    hide ClaimedFit, DevelopedFit, SameLease;
    var t, revision, session := Next(s, BlockRow(i, true, true)), s.requests[i].stage.revision, s.requests[i].session;
    ActiveHasClaim(s, i);
    assert Untouched(s, s.requests[i]);
    forall k | 0 <= k < |t.requests|
      ensures !MayApply(t, t.requests[k], revision)
    {
      if k != i && Active(s.requests[k]) {
        OthersElsewhere(s, i, k);
        ActiveHasClaim(s, k);
        OtherRevision(s, session, s.requests[k].session, revision);
      }
    }
  }

  /** Unless the step loses the answer about it, a revision that is blocked stays out. */
  lemma StepKeepsBlocked(s: State, step: Step, revision: GoString)
    requires Invariant(s) && BlockedFits(s, revision) && Enabled(s, step) && !LosesAnswer(s, step, revision)
    ensures BlockedFits(Next(s, step), revision)
  {
    hide Invariant, BlockedStaysOut, Holds;
    if IsBlocked(Next(s, step), revision) {
      if IsBlocked(s, revision) {
        BlockedStays(s, step, revision);
      } else {
        NewlyBlocked(s, step.request);
      }
    }
  }

  lemma BlockedIsFinal(s: State, step: Step, revision: GoString)
    requires Enabled(s, step)
    ensures IsBlocked(s, revision) || LosesAnswer(s, step, revision) ==> IsBlocked(Next(s, step), revision)
  {
    hide Holds;
  }

  lemma AppliedGrows(s: State, step: Step, revision: GoString)
    requires Enabled(s, step)
    ensures revision in Next(s, step).applied <==> revision in s.applied || Applies(s, step, revision)
  {
    hide Holds, Finished;
  }

  lemma {:induction false} RunKeepsBlocked(s: State, steps: seq<Step>, t: State, revision: GoString)
    requires Invariant(s) && IsRun(s, steps, t)
    ensures BlockedFits(s, revision) && !AnswerLost(s, steps, revision) ==> BlockedFits(t, revision)
    ensures IsBlocked(s, revision) || AnswerLost(s, steps, revision) ==> IsBlocked(t, revision)
    decreases |steps|
  {
    hide Invariant, BlockedFits, IsBlocked, LosesAnswer, Next, Enabled;
    if steps != [] {
      StepKeepsInvariant(s, steps[0]);
      BlockedIsFinal(s, steps[0], revision);
      if BlockedFits(s, revision) && !AnswerLost(s, steps, revision) {
        StepKeepsBlocked(s, steps[0], revision);
      }
      RunKeepsBlocked(Next(s, steps[0]), steps[1..], t, revision);
    }
  }

  lemma {:induction false} AppliedIff(s: State, steps: seq<Step>, t: State, revision: GoString)
    requires IsRun(s, steps, t)
    ensures revision in t.applied <==> revision in s.applied || AppliedIn(s, steps, revision)
    decreases |steps|
  {
    hide Applies, Next, Enabled;
    if steps != [] {
      AppliedGrows(s, steps[0], revision);
      AppliedIff(Next(s, steps[0]), steps[1..], t, revision);
    }
  }

  /** A request that could still block its revision has not seen it applied. */
  lemma LosingIsUnapplied(s: State, step: Step, revision: GoString)
    requires Invariant(s) && LosesAnswer(s, step, revision)
    ensures revision !in s.applied && !Applies(s, step, revision)
  {
    hide ClaimsFit, OneEach, BindingsFit, ClaimedFit, DevelopedFit;
    assert Untouched(s, s.requests[step.request]);
  }

  lemma {:induction false} BlockedAppliedIff(s: State, steps: seq<Step>, t: State, revision: GoString)
    requires Invariant(s) && BlockedFits(s, revision) && IsRun(s, steps, t)
    ensures IsBlocked(t, revision) && revision in t.applied <==> LostThenApplied(s, steps, revision)
    decreases |steps|
  {
    hide Invariant, IsBlocked, LosesAnswer, Applies, Next, Enabled;
    if steps != [] {
      var n := Next(s, steps[0]);
      StepKeepsInvariant(s, steps[0]);
      AppliedGrows(s, steps[0], revision);
      AppliedIff(n, steps[1..], t, revision);
      if LosesAnswer(s, steps[0], revision) {
        LosingIsUnapplied(s, steps[0], revision);
        BlockedIsFinal(s, steps[0], revision);
        RunKeepsBlocked(n, steps[1..], t, revision);
        LostOnce(n, steps[1..], revision);
      } else {
        StepKeepsBlocked(s, steps[0], revision);
        BlockedAppliedIff(n, steps[1..], t, revision);
      }
    }
  }

  /** A blocked row is blocked once. */
  lemma {:induction false} LostOnce(s: State, steps: seq<Step>, revision: GoString)
    requires IsBlocked(s, revision)
    ensures !LostThenApplied(s, steps, revision)
    decreases |steps|
  {
    hide Next, Enabled;
    if steps != [] && Enabled(s, steps[0]) {
      BlockedIsFinal(s, steps[0], revision);
      LostOnce(Next(s, steps[0]), steps[1..], revision);
    }
  }

  /** Over every interleaving a revision ends up both blocked and applied exactly when the database
      blocked its row without its caller learning of it, and it was applied after that. */
  lemma BlockedIsAppliedIffAnswerLost(steps: seq<Step>, s: State, revision: GoString)
    requires IsRun(START, steps, s)
    ensures IsBlocked(s, revision) && revision in s.applied <==> LostThenApplied(START, steps, revision)
  {
    hide Invariant, Next, Enabled;
    StartIsKept();
    BlockedAppliedIff(START, steps, s, revision);
  }

  /** A request about to apply its revision finds it blocked exactly when an answer about it was lost. */
  lemma ApplyFindsBlockedIffAnswerLost(steps: seq<Step>, s: State, i: nat, succeeded: bool)
    requires IsRun(START, steps, s) && Enabled(s, Apply(i, succeeded))
    ensures var revision := s.requests[i].stage.revision;
            IsBlocked(s, revision) <==> AnswerLost(START, steps, revision)
  {
    hide Invariant, Next, IsRun;
    var revision := s.requests[i].stage.revision;
    assert MayApply(s, s.requests[i], revision);
    StartIsKept();
    RunKeepsBlocked(START, steps, s, revision);
  }

  // ---------------------------------------------------------------- what a caller can check

  /** While a request is about to apply its revision, no step changes the revision's row. */
  lemma RowStays(s: State, step: Step, i: nat, revision: GoString)
    requires Invariant(s) && Enabled(s, step) && At(s, i, ToApply(revision)) && revision in s.queue && s.queue[revision] != Queued
    requires At(Next(s, step), i, ToApply(revision))
    ensures revision in Next(s, step).queue && Next(s, step).queue[revision] == s.queue[revision]
  {
    hide AppliedFit, ClaimedFit, DevelopedFit, SameLease;
    ActiveHasClaim(s, i);
    if step.CompleteRow? || step.BlockRow? {
      var j := step.request;
      ActiveHasClaim(s, j);
      OthersElsewhere(s, i, j);
      OtherRevision(s, s.requests[i].session, s.requests[j].session, revision);
    }
  }

  /** A request never comes back to applying. */
  lemma AppliesFromTheStart(s: State, step: Step, i: nat, revision: GoString)
    requires Enabled(s, step) && i < |s.requests| && At(Next(s, step), i, ToApply(revision))
    ensures At(s, i, ToApply(revision))
  {
    hide Finished, Holds;
  }

  lemma RequestsGrow(s: State, step: Step)
    requires Enabled(s, step)
    ensures |s.requests| <= |Next(s, step).requests|
  {
  }

  lemma {:induction false} RowStaysOverRun(s: State, steps: seq<Step>, t: State, i: nat, revision: GoString)
    requires Invariant(s) && IsRun(s, steps, t) && i < |s.requests| && At(t, i, ToApply(revision))
    ensures At(s, i, ToApply(revision))
    ensures Left(s, revision) ==> Left(t, revision) && t.queue[revision] == s.queue[revision]
    decreases |steps|
  {
    hide Invariant, Next, Enabled, At;
    if steps != [] {
      var n := Next(s, steps[0]);
      StepKeepsInvariant(s, steps[0]);
      RequestsGrow(s, steps[0]);
      RowStaysOverRun(n, steps[1..], t, i, revision);
      AppliesFromTheStart(s, steps[0], i, revision);
      if Left(s, revision) {
        RowStays(s, steps[0], i, revision);
      }
    }
  }

  /** A completion may begin only on a row that is running or blocked. */
  lemma BeginsRunningOrBlocked(s: State, session: GoString, task: GoString, lease: GoString)
    requires Invariant(s) && Beginnable(s.claims, session, task, lease)
    ensures Left(s, RevisionOf(s, session)) && s.queue[RevisionOf(s, session)] in {Running, Blocked}
  {
    hide ClaimsFit, OneEach, ClaimedFit;
  }

  /** When a completion begins its fate is settled, whatever runs before it applies: it applies a blocked
      revision exactly when the row is not running as it begins. */
  lemma CompletionAppliesBlockedIff(
      before: seq<Step>, s: State, session: GoString, task: GoString, lease: GoString, steps: seq<Step>, u: State, succeeded: bool)
    requires IsRun(START, before, s) && Beginnable(s.claims, session, task, lease)
    requires IsRun(Next(s, StartComplete(session, task, lease)), steps, u) && Enabled(u, Apply(|s.requests|, succeeded))
    ensures var t, revision := Next(u, Apply(|s.requests|, succeeded)), RevisionOf(s, session);
            && revision in t.applied && revision in s.queue
            && (IsBlocked(t, revision) <==> s.queue[revision] != Running)
  {
    hide Invariant, IsRun;
    var n, i, revision := Next(s, StartComplete(session, task, lease)), |s.requests|, RevisionOf(s, session);
    StartIsKept();
    RunKeepsInvariant(START, before, s);
    BeginsRunningOrBlocked(s, session, task, lease);
    StepKeepsInvariant(s, StartComplete(session, task, lease));
    RowStaysOverRun(n, steps, u, i, u.requests[i].stage.revision);
  }

  const LOST_ANSWER: seq<Step> := [
    Approve("r"), StartClaim("s", "t", "l"), ClaimRow(0, "r", true), Bind(0),
    StartBlock("s", "t", "l"), BlockRow(1, true, false), Retry(1),
    StartComplete("s", "t", "l"), Apply(2, true)]

  const UNBOUND := Claim("t", "l", None, false)
  const HELD := Claim("t", "l", Some("r"), false)
  const BUSY := Claim("t", "l", Some("r"), true)

  function Asks(stage: Stage): Request {
    Request("s", "t", "l", stage)
  }

  /** The states that run goes through. */
  const S1 := State(map["r" := Queued], map[], [], {}, [], [])
  const S2 := State(map["r" := Queued], map["s" := UNBOUND], [Asks(ToClaim)], {"l"}, [], [])
  const S3 := State(map["r" := Running], map["s" := UNBOUND], [Asks(ToBind("r"))], {"l"}, [], [])
  const S4 := State(map["r" := Running], map["s" := HELD], [Asks(Done)], {"l"}, ["r"], [])
  const S5 := State(map["r" := Running], map["s" := BUSY], [Asks(Done), Asks(ToBlock("r"))], {"l"}, ["r"], [])
  const S6 := State(map["r" := Blocked], map["s" := BUSY], [Asks(Done), Asks(ToRetry)], {"l"}, ["r"], [])
  const S7 := State(map["r" := Blocked], map["s" := HELD], [Asks(Done), Asks(Done)], {"l"}, ["r"], [])
  const S8 := State(map["r" := Blocked], map["s" := BUSY], [Asks(Done), Asks(Done), Asks(ToApply("r"))], {"l"}, ["r"], [])
  const S9 := State(map["r" := Blocked], map["s" := BUSY], [Asks(Done), Asks(Done), Asks(ToComplete("r"))], {"l"}, ["r"], ["r"])

  lemma LostAnswerClaims()
    ensures Enabled(START, LOST_ANSWER[0]) && Next(START, LOST_ANSWER[0]) == S1
    ensures Enabled(S1, LOST_ANSWER[1]) && Next(S1, LOST_ANSWER[1]) == S2
    ensures Enabled(S2, LOST_ANSWER[2]) && Next(S2, LOST_ANSWER[2]) == S3
  {
  }

  lemma LostAnswerBlocks()
    ensures Enabled(S3, LOST_ANSWER[3]) && Next(S3, LOST_ANSWER[3]) == S4
    ensures Enabled(S4, LOST_ANSWER[4]) && Next(S4, LOST_ANSWER[4]) == S5
    ensures Enabled(S5, LOST_ANSWER[5]) && Next(S5, LOST_ANSWER[5]) == S6
  {
  }

  lemma LostAnswerApplies()
    ensures Enabled(S6, LOST_ANSWER[6]) && Next(S6, LOST_ANSWER[6]) == S7
    ensures Enabled(S7, LOST_ANSWER[7]) && Next(S7, LOST_ANSWER[7]) == S8
    ensures Enabled(S8, LOST_ANSWER[8]) && Next(S8, LOST_ANSWER[8]) == S9
  {
  }

  lemma LostAnswerRuns()
    ensures IsRun(START, LOST_ANSWER, S9)
  {
    hide Next, Enabled, IsRun;
    LostAnswerClaims();
    LostAnswerBlocks();
    LostAnswerApplies();
    RunStep(S8, LOST_ANSWER[8..], S9);
    RunStep(S7, LOST_ANSWER[7..], S9);
    RunStep(S6, LOST_ANSWER[6..], S9);
    RunStep(S5, LOST_ANSWER[5..], S9);
    RunStep(S4, LOST_ANSWER[4..], S9);
    RunStep(S3, LOST_ANSWER[3..], S9);
    RunStep(S2, LOST_ANSWER[2..], S9);
    RunStep(S1, LOST_ANSWER[1..], S9);
    RunStep(START, LOST_ANSWER[0..], S9);
  }

  /** It does take that: after a lost answer the claim is retried and the target applied to a revision
      that is already blocked. */
  lemma LostAnswerAppliesBlocked()
    ensures exists s :: IsRun(START, LOST_ANSWER, s) && "r" in s.queue && s.queue["r"] == Blocked && "r" in s.applied
  {
    hide IsRun;
    LostAnswerRuns();
    assert "r" in S9.applied && "r" in S9.queue;
  }

  lemma RunStep(s: State, steps: seq<Step>, t: State)
    requires steps != [] && Enabled(s, steps[0]) && IsRun(Next(s, steps[0]), steps[1..], t)
    ensures IsRun(s, steps, t)
  {
  }
}
