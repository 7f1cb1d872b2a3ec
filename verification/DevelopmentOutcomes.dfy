/** What each step of the development queue answers and leaves, over every reachable state. */
module DevelopmentOutcomes {
  import opened GoStrings
  import opened Options
  import opened DevelopmentProtocol
  import opened DevelopmentRuns

  /** The session's claim, if the caller shows the task and the lease it was reserved under. */
  predicate MayAct(s: State, session: GoString, task: GoString, lease: GoString) {
    session in s.claims && s.claims[session].task == task && s.claims[session].lease == lease && lease != ""
  }

  /** All claims but that of the session are left alone. */
  ghost predicate OthersKept(s: State, t: State, session: GoString) {
    forall k :: k != session ==> (k in t.claims <==> k in s.claims) && (k in s.claims ==> t.claims[k] == s.claims[k])
  }

  /** Finishing begins exactly for a bound claim that nobody is finishing, and only under its task and
      lease; a refused request changes nothing. */
  lemma FinishingBeginsIff(s: State, session: GoString, task: GoString, lease: GoString, block: bool)
    ensures var t := Next(s, if block then StartBlock(session, task, lease) else StartComplete(session, task, lease));
            if MayAct(s, session, task, lease) && s.claims[session].revision.Some? && !s.claims[session].finishing then
              var revision := s.claims[session].revision.value;
              && t.requests == s.requests + [Request(session, task, lease, if block then ToBlock(revision) else ToApply(revision))]
              && session in t.claims && t.claims[session] == s.claims[session].(finishing := true) && OthersKept(s, t, session)
              && t.queue == s.queue && t.applied == s.applied && t.bindings == s.bindings
            else t == s
  {
  }

  /** A claim is reserved exactly for a session without one, unbound. */
  lemma ReservedIff(s: State, session: GoString, task: GoString, lease: GoString)
    requires Enabled(s, StartClaim(session, task, lease))
    ensures var t := Next(s, StartClaim(session, task, lease));
            && OthersKept(s, t, session) && t.queue == s.queue && session in t.claims
            && if session in s.claims then t.claims == s.claims && t.requests == s.requests
               else MayAct(t, session, task, lease) && t.claims[session].revision == None && !t.claims[session].finishing
                    && t.requests == s.requests + [Request(session, task, lease, ToClaim)]
  {
  }

  predicate OfRequest(s: State, step: Step) {
    !step.Approve? && !step.StartClaim? && !step.StartComplete? && !step.StartBlock? && step.request < |s.requests|
  }

  /** A step touches its own request, and no claim but that of the request's session. */
  ghost predicate TouchesOwn(s: State, step: Step, t: State)
    requires OfRequest(s, step)
  {
    var i, r := step.request, s.requests[step.request];
    && OthersKept(s, t, r.session) && |t.requests| == |s.requests|
    && (forall k :: 0 <= k < |s.requests| && k != i ==> t.requests[k] == s.requests[k])
    && t.requests[i].(stage := r.stage) == r
  }

  /** What a step leaves of its claim, of its row, and what its request does next. */
  predicate Leaves(s: State, step: Step, t: State)
    requires OfRequest(s, step) && |t.requests| == |s.requests| && Enabled(s, step) && s.requests[step.request].session in s.claims
  {
    var i, r := step.request, s.requests[step.request];
    match step
    case ClaimRow(_, revision, reported) =>
      && t.queue == s.queue[revision := Running] && t.claims == s.claims
      && t.requests[i].stage == if reported then ToBind(revision) else ToRelease
    case ClaimNothing(_) => t.queue == s.queue && t.claims == s.claims && t.requests[i].stage == ToRelease
    case Bind(_) =>
      && t.queue == s.queue && t.bindings == s.bindings + [r.stage.revision] && t.requests[i].stage == Done
      && r.session in t.claims && t.claims[r.session] == s.claims[r.session].(revision := Some(r.stage.revision))
    case Apply(_, succeeded) =>
      && t.queue == s.queue && t.claims == s.claims && t.applied == s.applied + [r.stage.revision]
      && t.requests[i].stage == if succeeded then ToComplete(r.stage.revision) else ToRelease
    case CompleteRow(_, written) =>
      && t.claims == s.claims && t.requests[i].stage == ToRelease
      && r.stage.revision in s.queue && t.queue.Keys == s.queue.Keys
      && t.queue == if written && s.queue[r.stage.revision] == Running then s.queue[r.stage.revision := Developed] else s.queue
    case BlockRow(_, written, reported) =>
      && t.claims == s.claims && r.stage.revision in s.queue
      && var done := written && s.queue[r.stage.revision] == Running;
         && t.queue == (if done then s.queue[r.stage.revision := Blocked] else s.queue)
         && t.requests[i].stage == if done && reported then ToRelease else ToRetry
    case Retry(_) =>
      && t.queue == s.queue && t.requests[i].stage == Done
      && r.session in t.claims && t.claims[r.session] == s.claims[r.session].(finishing := false)
    case Release(_) => t.queue == s.queue && t.requests[i].stage == Done && r.session !in t.claims
  }

  lemma StepTouchesOwn(s: State, step: Step)
    requires OfRequest(s, step) && Enabled(s, step)
    ensures TouchesOwn(s, step, Next(s, step))
  {
    hide Holds, Finished;
  }

  /** The step of a request, in every reachable state. */
  lemma StepOutcome(s: State, step: Step)
    requires Invariant(s) && OfRequest(s, step) && Enabled(s, step)
    ensures var t := Next(s, step);
            && s.requests[step.request].session in s.claims && TouchesOwn(s, step, t) && Leaves(s, step, t)
  {
    var r := s.requests[step.request];
    ActiveHasClaim(s, step.request);
    if r.stage.ToBlock? || r.stage.ToComplete? {
      BoundRowIsListed(s, r);
    }
    StepTouchesOwn(s, step);
    hide Invariant, TouchesOwn;
    LeavesIts(s, step);
  }

  lemma LeavesIts(s: State, step: Step)
    requires OfRequest(s, step) && Enabled(s, step) && s.requests[step.request].session in s.claims
    requires ClaimFits(s, s.requests[step.request]) && |Next(s, step).requests| == |s.requests|
    requires var r := s.requests[step.request]; r.stage.ToBlock? || r.stage.ToComplete? ==> r.stage.revision in s.queue
    ensures Leaves(s, step, Next(s, step))
  {
  }

  lemma BoundRowIsListed(s: State, r: Request)
    requires BindingsFit(s) && ClaimFits(s, r) && (r.stage.ToBlock? || r.stage.ToComplete?)
    ensures r.stage.revision in s.queue
  {
    assert r.stage.revision in s.bindings;
    assert Left(s, r.stage.revision);
  }

  /** A released session can claim again, and a retried one finish again under the same task and lease. */
  lemma ReleasedClaimsAgain(s: State, i: nat, task: GoString, lease: GoString)
    requires Invariant(s) && Enabled(s, Release(i)) && lease != "" && lease !in s.leases
    ensures i < |s.requests|
    ensures var session, u := s.requests[i].session, Next(s, Release(i));
            Enabled(u, StartClaim(session, task, lease)) && MayAct(Next(u, StartClaim(session, task, lease)), session, task, lease)
  {
    hide Invariant;
    StepOutcome(s, Release(i));
    ReservedIff(Next(s, Release(i)), s.requests[i].session, task, lease);
  }

  lemma RetriedFinishesAgain(s: State, i: nat)
    requires Invariant(s) && Enabled(s, Retry(i))
    ensures i < |s.requests|
    ensures var r, u := s.requests[i], Next(s, Retry(i));
            && MayAct(u, r.session, r.task, r.lease) && u.claims[r.session].revision.Some?
            && |Next(u, StartComplete(r.session, r.task, r.lease)).requests| == |u.requests| + 1
  {
    StepOutcome(s, Retry(i));
    var r, u := s.requests[i], Next(s, Retry(i));
    assert ClaimFits(s, r);
    FinishingBeginsIff(u, r.session, r.task, r.lease, false);
  }
}
