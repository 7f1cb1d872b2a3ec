/** The development queue: rows claimed and finished in the database, claims held in memory under a
    lease, and tool requests whose steps interleave freely.

    Leases are random and taken to be distinct. A request that is refused on entry changes nothing. */
module DevelopmentProtocol {
  import opened GoStrings
  import opened Options

  // ---------------------------------------------------------------- the claim store

  /** `revision` is `None` until a revision is bound. */
  datatype Claim = Claim(task: GoString, lease: GoString, revision: Option<GoString>, finishing: bool)

  type Claims = map<GoString, Claim>

  predicate SameLease(expected: GoString, provided: GoString) {
    expected != "" && provided != "" && expected == provided
  }

  predicate Holds(claims: Claims, session: GoString, task: GoString, lease: GoString) {
    session in claims && claims[session].task == task && SameLease(claims[session].lease, lease)
  }

  predicate Bindable(claims: Claims, session: GoString, task: GoString, lease: GoString) {
    Holds(claims, session, task, lease) && claims[session].revision.None?
  }

  predicate Beginnable(claims: Claims, session: GoString, task: GoString, lease: GoString) {
    Holds(claims, session, task, lease) && claims[session].revision.Some? && !claims[session].finishing
  }

  function Reserved(claims: Claims, session: GoString, task: GoString, lease: GoString): Claims {
    if session in claims then claims else claims[session := Claim(task, lease, None, false)]
  }

  function Bound(claims: Claims, session: GoString, task: GoString, lease: GoString, revision: GoString): Claims {
    if Bindable(claims, session, task, lease) then claims[session := claims[session].(revision := Some(revision))] else claims
  }

  function Begun(claims: Claims, session: GoString, task: GoString, lease: GoString): Claims {
    if Beginnable(claims, session, task, lease) then claims[session := claims[session].(finishing := true)] else claims
  }

  function Retried(claims: Claims, session: GoString, task: GoString, lease: GoString): Claims {
    if Holds(claims, session, task, lease) then claims[session := claims[session].(finishing := false)] else claims
  }

  function Released(claims: Claims, session: GoString, task: GoString, lease: GoString): Claims {
    if Holds(claims, session, task, lease) then claims - {session} else claims
  }

  // ---------------------------------------------------------------- requests

  datatype Status = Queued | Running | Developed | Blocked

  /** What a request does next. */
  datatype Stage =
    | ToClaim | ToBind(revision: GoString) | ToApply(revision: GoString) | ToComplete(revision: GoString)
    | ToBlock(revision: GoString) | ToRetry | ToRelease | Done

  datatype Request = Request(session: GoString, task: GoString, lease: GoString, stage: Stage)

  /** `bindings` and `applied` are the revisions bound to a claim and handed to the target, in order. */
  datatype State = State(
    queue: map<GoString, Status>, claims: Claims, requests: seq<Request>, leases: set<GoString>,
    bindings: seq<GoString>, applied: seq<GoString>)

  const START := State(map[], map[], [], {}, [], [])

  /** `written` is whether the database wrote the row, `reported` whether the caller learnt of it. */
  datatype Step =
    | Approve(revision: GoString)
    | StartClaim(session: GoString, task: GoString, lease: GoString)
    | ClaimRow(request: nat, revision: GoString, reported: bool)
    | ClaimNothing(request: nat)
    | Bind(request: nat)
    | StartComplete(session: GoString, task: GoString, lease: GoString)
    | StartBlock(session: GoString, task: GoString, lease: GoString)
    | Apply(request: nat, succeeded: bool)
    | CompleteRow(request: nat, written: bool)
    | BlockRow(request: nat, written: bool, reported: bool)
    | Retry(request: nat)
    | Release(request: nat)

  predicate At(s: State, i: nat, stage: Stage) {
    i < |s.requests| && s.requests[i].stage == stage
  }

  predicate Enabled(s: State, step: Step) {
    match step
    case Approve(revision) => revision !in s.queue
    case StartClaim(_, _, lease) => lease != "" && lease !in s.leases
    case ClaimRow(i, revision, _) => At(s, i, ToClaim) && revision in s.queue && s.queue[revision] == Queued
    case ClaimNothing(i) => At(s, i, ToClaim)
    case Bind(i) => i < |s.requests| && s.requests[i].stage.ToBind?
    case StartComplete(_, _, _) => true
    case StartBlock(_, _, _) => true
    case Apply(i, _) => i < |s.requests| && s.requests[i].stage.ToApply?
    case CompleteRow(i, _) => i < |s.requests| && s.requests[i].stage.ToComplete?
    case BlockRow(i, _, _) => i < |s.requests| && s.requests[i].stage.ToBlock?
    case Retry(i) => At(s, i, ToRetry)
    case Release(i) => At(s, i, ToRelease)
  }

  function Go(s: State, i: nat, stage: Stage): State
    requires i < |s.requests|
  {
    s.(requests := s.requests[i := s.requests[i].(stage := stage)])
  }

  /** `finishScenarioDevelopment`: only a running row is finished. */
  function Finished(queue: map<GoString, Status>, revision: GoString, status: Status, written: bool): map<GoString, Status> {
    if written && revision in queue && queue[revision] == Running then queue[revision := status] else queue
  }

  function Start(s: State, session: GoString, task: GoString, lease: GoString, stage: Stage): State {
    if Beginnable(s.claims, session, task, lease)
    then s.(claims := Begun(s.claims, session, task, lease), requests := s.requests + [Request(session, task, lease, stage)])
    else s
  }

  function RevisionOf(s: State, session: GoString): GoString {
    if session in s.claims && s.claims[session].revision.Some? then s.claims[session].revision.value else ""
  }

  function Next(s: State, step: Step): State
    requires Enabled(s, step)
  {
    match step
    case Approve(revision) => s.(queue := s.queue[revision := Queued])
    case StartClaim(session, task, lease) =>
      if session in s.claims then s.(leases := s.leases + {lease})
      else
        s.(claims := Reserved(s.claims, session, task, lease), leases := s.leases + {lease},
           requests := s.requests + [Request(session, task, lease, ToClaim)])
    case ClaimRow(i, revision, reported) =>
      Go(s.(queue := s.queue[revision := Running]), i, if reported then ToBind(revision) else ToRelease)
    case ClaimNothing(i) => Go(s, i, ToRelease)
    case Bind(i) =>
      var r := s.requests[i];
      if Bindable(s.claims, r.session, r.task, r.lease)
      then Go(s.(claims := Bound(s.claims, r.session, r.task, r.lease, r.stage.revision), bindings := s.bindings + [r.stage.revision]), i, Done)
      else Go(s, i, ToRelease)
    case StartComplete(session, task, lease) => Start(s, session, task, lease, ToApply(RevisionOf(s, session)))
    case StartBlock(session, task, lease) => Start(s, session, task, lease, ToBlock(RevisionOf(s, session)))
    case Apply(i, succeeded) =>
      var revision := s.requests[i].stage.revision;
      Go(s.(applied := s.applied + [revision]), i, if succeeded then ToComplete(revision) else ToRelease)
    case CompleteRow(i, written) =>
      Go(s.(queue := Finished(s.queue, s.requests[i].stage.revision, Developed, written)), i, ToRelease)
    case BlockRow(i, written, reported) =>
      var revision := s.requests[i].stage.revision;
      var queue := Finished(s.queue, revision, Blocked, written);
      Go(s.(queue := queue), i, if reported && queue != s.queue then ToRelease else ToRetry)
    case Retry(i) =>
      var r := s.requests[i];
      Go(s.(claims := Retried(s.claims, r.session, r.task, r.lease)), i, Done)
    case Release(i) =>
      var r := s.requests[i];
      Go(s.(claims := Released(s.claims, r.session, r.task, r.lease)), i, Done)
  }

  // ---------------------------------------------------------------- invariant

  predicate Active(r: Request) {
    !r.stage.Done?
  }

  /** What the claim of a request's session looks like while the request is under way. */
  predicate ClaimFits(s: State, r: Request) {
    Holds(s.claims, r.session, r.task, r.lease)
    && var c := s.claims[r.session];
       match r.stage
       case ToClaim => c.revision.None? && !c.finishing
       case ToBind(_) => c.revision.None? && !c.finishing
       case ToApply(revision) => c.revision == Some(revision) && c.finishing
       case ToComplete(revision) => c.revision == Some(revision) && c.finishing
       case ToBlock(revision) => c.revision == Some(revision) && c.finishing
       case ToRetry => c.revision.Some? && c.finishing
       case ToRelease => c.revision.Some? == c.finishing
       case Done => true
  }

  ghost predicate ClaimsFit(s: State) {
    forall i :: 0 <= i < |s.requests| && Active(s.requests[i]) ==> ClaimFits(s, s.requests[i])
  }

  /** A session has at most one request under way. */
  ghost predicate OneEach(s: State) {
    forall i, j :: 0 <= i < j < |s.requests| && Active(s.requests[i]) && Active(s.requests[j]) ==>
      s.requests[i].session != s.requests[j].session
  }

  predicate Left(s: State, revision: GoString) {
    revision in s.queue && s.queue[revision] != Queued
  }

  /** Bound revisions have left the queue and none is bound twice; a claim's revision was bound, and
      no two claims share one. */
  ghost predicate BindingsFit(s: State) {
    && (forall i, j :: 0 <= i < j < |s.bindings| ==> s.bindings[i] != s.bindings[j])
    && (forall revision :: revision in s.bindings ==> Left(s, revision))
    && (forall k :: k in s.claims && s.claims[k].revision.Some? ==> s.claims[k].revision.value in s.bindings)
    && (forall k, l :: k in s.claims && l in s.claims && s.claims[k].revision.Some? && s.claims[k].revision == s.claims[l].revision ==> k == l)
  }

  /** A row on its way to be bound has left the queue, is not bound, and is on its way only once. */
  ghost predicate ClaimedFit(s: State) {
    && (forall i :: 0 <= i < |s.requests| && s.requests[i].stage.ToBind? ==>
          Left(s, s.requests[i].stage.revision) && s.requests[i].stage.revision !in s.bindings)
    && (forall i, j :: 0 <= i < j < |s.requests| && s.requests[i].stage.ToBind? && s.requests[j].stage.ToBind? ==>
          s.requests[i].stage.revision != s.requests[j].stage.revision)
  }

  /** Nothing has been applied for a claim that can still begin, or whose request may still apply. */
  predicate Untouched(s: State, r: Request) {
    match r.stage
    case ToApply(revision) => revision !in s.applied
    case ToBlock(revision) => revision !in s.applied
    case ToRetry => RevisionOf(s, r.session) !in s.applied
    case _ => true
  }

  ghost predicate AppliedFit(s: State) {
    && (forall i, j :: 0 <= i < j < |s.applied| ==> s.applied[i] != s.applied[j])
    && (forall revision :: revision in s.applied ==> revision in s.bindings)
    && (forall k :: k in s.claims && s.claims[k].revision.Some? && !s.claims[k].finishing ==> s.claims[k].revision.value !in s.applied)
    && (forall i :: 0 <= i < |s.requests| ==> Untouched(s, s.requests[i]))
  }

  /** What is developed, or about to be marked so, was applied. */
  ghost predicate DevelopedFit(s: State) {
    && (forall revision :: revision in s.queue && s.queue[revision] == Developed ==> revision in s.applied)
    && (forall i :: 0 <= i < |s.requests| && s.requests[i].stage.ToComplete? ==> s.requests[i].stage.revision in s.applied)
  }

  ghost predicate Invariant(s: State) {
    ClaimsFit(s) && OneEach(s) && BindingsFit(s) && ClaimedFit(s) && AppliedFit(s) && DevelopedFit(s)
  }
}
