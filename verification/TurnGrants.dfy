/** Grants: when an active turn is found by its stored session, over runs of critical sections and over
    runs of whole operations. */
module TurnGrants {
  import opened GoStrings
  import opened Options
  import opened StreamFilter
  import opened StripMarkers
  import opened TurnState
  import opened TurnOps
  import opened TurnInvariants
  import opened TurnRuns

  // ---------------------------------------------------------------- one critical section

  /** The stored session of turn `u` leads to it. */
  predicate Found(s: State, u: nat) {
    u < |s.turns| && StoredKey(s.turns[u]) in s.byStored && s.byStored[StoredKey(s.turns[u])] == u
  }

  /** The section enters turn `u` under its stored session. */
  predicate Enters(x: Section, u: nat) {
    (x.IndexSection? || x.RotateSection?) && x.turn == u
  }

  /** The section takes the entry of turn `u` away: another turn gets the same stored session, or one that
      has it finishes or is rotated to another. */
  predicate Displaces(s: State, x: Section, u: nat)
    requires u < |s.turns|
  {
    var key := StoredKey(s.turns[u]);
    match x
    case IndexSection(t, _, st) => t < |s.turns| && t != u && key == (s.turns[t].mode, st)
    case FinishSection(t, _) => t < |s.turns| && t != u && !s.turns[t].finalized && key == StoredKey(s.turns[t])
    case RotateSection(t, st) =>
      t < |s.turns| && t != u
      && (key == StoredKey(s.turns[t]) || (!s.turns[t].finalized && key == (s.turns[t].mode, st)))
    case _ => false
  }

  lemma FoundAfterBegin(s: State, conversation: string, mode: Mode, u: nat)
    requires u < |s.turns|
    ensures Found(Begin(s, conversation, mode), u) <==> Found(s, u)
  {
  }

  lemma FoundAfterIndex(s: State, t: nat, runtimeID: string, storedID: string, u: nat)
    requires u < |s.turns| && t < |s.turns|
    ensures Found(IndexSession(s, t, runtimeID, storedID), u) <==>
            t == u || (Found(s, u) && !Displaces(s, IndexSection(t, runtimeID, storedID), u))
  {
  }

  lemma FoundAfterRest(s: State, x: Section, u: nat)
    requires u < |s.turns| && !(x.BeginSection? || x.IndexSection? || x.FinishSection? || x.RotateSection?)
    ensures Found(RunSection(s, x), u) <==> Found(s, u)
    ensures !Displaces(s, x, u)
  {
    hide FeedText, Publish;
  }

  lemma FoundAfterFinish(s: State, t: nat, state: ConversationState, u: nat)
    requires u < |s.turns| && t < |s.turns| && !Finish(s, t, state).turns[u].finalized
    ensures Found(Finish(s, t, state), u) <==> Found(s, u) && !Displaces(s, FinishSection(t, state), u)
  {
  }

  lemma FoundAfterRotate(s: State, t: nat, storedID: string, u: nat)
    requires OneTurnEach(s) && u < |s.turns| && t < |s.turns| && !s.turns[u].finalized
    ensures Found(Rotate(s, t, storedID), u) <==> t == u || (Found(s, u) && !Displaces(s, RotateSection(t, storedID), u))
  {
  }

  /** A turn that stays active is found by its stored session after a section exactly when the section
      enters it, or it was found before and the section does not displace it. */
  lemma FoundIff(s: State, x: Section, u: nat)
    requires OneTurnEach(s) && u < |s.turns| && !RunSection(s, x).turns[u].finalized
    ensures Found(RunSection(s, x), u) <==> Enters(x, u) || (Found(s, u) && !Displaces(s, x, u))
  {
    hide FeedText, Publish, Begin, Finish, Rotate, IndexSession, Found;
    match x
    case BeginSection(c, m) => FoundAfterBegin(s, c, m, u);
    case IndexSection(t, r, st) => if t < |s.turns| { FoundAfterIndex(s, t, r, st, u); }
    case FinishSection(t, state) => if t < |s.turns| { FoundAfterFinish(s, t, state, u); }
    case RotateSection(t, st) => if t < |s.turns| { FoundAfterRotate(s, t, st, u); }
    case _ => FoundAfterRest(s, x, u);
  }

  // ---------------------------------------------------------------- runs of critical sections

  lemma {:induction false} RunSectionsOneMore(s: State, xs: seq<Section>, n: nat)
    requires n < |xs|
    ensures RunSections(s, xs[..n + 1]) == RunSection(RunSections(s, xs[..n]), xs[n])
    decreases |xs|
  {
    hide RunSection;
    if n == 0 {
      assert xs[..1] == [xs[0]] && xs[..0] == [] && [xs[0]][1..] == [];
      assert RunSections(RunSection(s, xs[0]), []) == RunSection(s, xs[0]);
    } else {
      RunSectionsOneMore(RunSection(s, xs[0]), xs[1..], n - 1);
      assert xs[..n + 1][1..] == xs[1..][..n] && xs[..n][1..] == xs[1..][..n - 1];
    }
  }

  /** Turns are only added, and a finished one stays finished. */
  lemma SectionGrows(s: State, x: Section, u: nat)
    ensures |s.turns| <= |RunSection(s, x).turns|
    ensures u < |s.turns| && s.turns[u].finalized ==> RunSection(s, x).turns[u].finalized
  {
    if x.BeginSection? || x.FinishSection? {
      hide FeedText, Publish, IndexSession, Rotate, Rebind;
    } else {
      hide RunSection;
      OtherSectionsKeepTurns(s, x);
    }
  }

  ghost predicate Pointed(s: State, n: nat) {
    forall k :: k in s.byStored ==> s.byStored[k] < n
  }

  /** The stored index points only at turns that were there before. */
  lemma SectionKeepsPointed(s: State, x: Section)
    requires Pointed(s, |s.turns|)
    ensures Pointed(RunSection(s, x), |s.turns|)
  {
    hide FeedText, Publish;
  }

  /** Of the first `n` sections one entered turn `u`, and no later one displaced it. */
  ghost predicate EnteredLast(s: State, xs: seq<Section>, n: nat, u: nat)
    requires n <= |xs|
  {
    exists k :: 0 <= k < n && EntersAt(s, xs, k, u) && forall j :: k < j < n ==> !DisplacesAt(s, xs, j, u)
  }

  ghost predicate EntersAt(s: State, xs: seq<Section>, k: nat, u: nat)
    requires k < |xs|
  {
    Enters(xs[k], u) && u < |RunSections(s, xs[..k]).turns|
  }

  ghost predicate DisplacesAt(s: State, xs: seq<Section>, j: nat, u: nat)
    requires j < |xs|
  {
    var before := RunSections(s, xs[..j]);
    u < |before.turns| && Displaces(before, xs[j], u)
  }

  lemma {:induction false} FoundInRun(xs: seq<Section>, n: nat, u: nat)
    requires n <= |xs|
    ensures var s := RunSections(INITIAL, xs[..n]);
            && OneTurnEach(s) && Pointed(s, |s.turns|)
            && (EnteredLast(INITIAL, xs, n, u) ==> u < |s.turns|)
            && (u < |s.turns| && !s.turns[u].finalized ==> (Found(s, u) <==> EnteredLast(INITIAL, xs, n, u)))
    decreases n
  {
    hide RunSection, OneTurnEach, Enters, Displaces, Found;
    if n == 0 {
      assert xs[..0] == [];
      InitialIsEmpty();
    } else {
      FoundInRun(xs, n - 1, u);
      RunSectionsOneMore(INITIAL, xs, n - 1);
      var s, x := RunSections(INITIAL, xs[..n - 1]), xs[n - 1];
      SectionKeepsOneTurnEach(s, x);
      SectionGrows(s, x, u);
      SectionKeepsPointed(s, x);
      EnteredOneMore(xs, n - 1, u);
      if u < |s.turns| && !RunSection(s, x).turns[u].finalized {
        FoundIff(s, x, u);
      }
      if u >= |s.turns| {
        NotFoundYet(s, x, u);
      }
    }
  }

  lemma InitialIsEmpty()
    ensures OneTurnEach(INITIAL) && INITIAL.turns == [] && INITIAL.byStored == map[]
  {
  }

  lemma NotFoundYet(s: State, x: Section, u: nat)
    requires u >= |s.turns| && Pointed(RunSection(s, x), |s.turns|)
    ensures !Found(RunSection(s, x), u)
  {
    hide RunSection;
  }

  lemma EnteredOneMore(xs: seq<Section>, n: nat, u: nat)
    requires n < |xs|
    ensures EnteredLast(INITIAL, xs, n + 1, u) <==>
            EntersAt(INITIAL, xs, n, u) || (EnteredLast(INITIAL, xs, n, u) && !DisplacesAt(INITIAL, xs, n, u))
  {
    hide EntersAt, DisplacesAt;
  }

  /** However critical sections interleave, an active turn is found by its stored session exactly when one
      of them entered it and no later one displaced it. */
  lemma FoundOverSections(xs: seq<Section>, u: nat)
    requires var s := RunSections(INITIAL, xs); u < |s.turns| && !s.turns[u].finalized
    ensures Found(RunSections(INITIAL, xs), u) <==> EnteredLast(INITIAL, xs, |xs|, u)
  {
    hide RunSections, EnteredLast, Found;
    assert xs[..|xs|] == xs;
    FoundInRun(xs, |xs|, u);
  }

  // ---------------------------------------------------------------- whole operations

  /** Turns with the same stored session belong to one conversation, and every active turn has a session. */
  ghost predicate Apart(s: State) {
    && (forall t, u :: 0 <= t < |s.turns| && 0 <= u < |s.turns| && s.turns[t].storedID != "" && StoredKey(s.turns[t]) == StoredKey(s.turns[u]) ==>
          s.turns[t].conversation == s.turns[u].conversation)
    && (forall t :: 0 <= t < |s.turns| && !s.turns[t].finalized ==> s.turns[t].storedID != "")
  }

  /** No turn of another conversation has the session. */
  ghost predicate Free(s: State, conversation: string, mode: Mode, storedID: string) {
    forall t :: 0 <= t < |s.turns| && s.turns[t].mode == mode && s.turns[t].storedID == storedID ==> s.turns[t].conversation == conversation
  }

  /** The event rotates turn `t`. */
  predicate RotatesBy(s: State, t: nat, e: GatewayEvent) {
    t < |s.turns| && e.SessionInfo? && e.decoded && e.storedID != "" && e.storedID != s.turns[t].storedID && e.saved
  }

  predicate ResumesElsewhere(s: State, r: Resumption) {
    && r.turn < |s.turns| && r.outcome.Resumed? && r.outcome.storedID != ""
    && r.outcome.storedID != s.turns[r.turn].storedID && r.outcome.saved
  }

  /** The turn a gateway event of a session is for. */
  function TurnFor(s: State, key: SessionKey): Option<nat> {
    if key in s.byRuntime then Some(s.byRuntime[key]) else if key in s.recent then Some(s.recent[key]) else None
  }

  /** Whatever session an operation gives to a conversation is no other conversation's. */
  ghost predicate Separate(s: State, op: Operation) {
    match op
    case SubmitOp(c, m, content, outcome) =>
      !IsCommand(content) && c !in s.byConversation && !outcome.NoSession? ==> outcome.storedID != "" && Free(s, c, m, outcome.storedID)
    case GatewayOp(m, id, e) =>
      TurnFor(s, (m, id)).Some? && RotatesBy(s, TurnFor(s, (m, id)).value, e) ==>
        var turn := s.turns[TurnFor(s, (m, id)).value];
        Free(s, turn.conversation, turn.mode, e.storedID)
    case ReconcileOp(m, rs) => SeparateAll(s, rs)
    case _ => true
  }

  ghost predicate SeparateAll(s: State, rs: seq<Resumption>)
    decreases |rs|
  {
    rs != [] && rs[0].turn < |s.turns| ==>
      && (ResumesElsewhere(s, rs[0]) ==> Free(s, s.turns[rs[0].turn].conversation, s.turns[rs[0].turn].mode, rs[0].outcome.storedID))
      && SeparateAll(ReconcileTurn(s, rs[0].turn, rs[0].outcome), rs[1..])
  }

  /** The operation enters turn `u` under its stored session. */
  predicate EntersTurn(s: State, op: Operation, u: nat) {
    match op
    case SubmitOp(c, _, content, outcome) => u == |s.turns| && outcome.AcceptedWith? && !IsCommand(content) && c !in s.byConversation
    case GatewayOp(m, id, e) => (m, id) in s.byRuntime && s.byRuntime[(m, id)] == u && RotatesBy(s, u, e)
    case ReconcileOp(m, rs) => ActiveOnce(s, m, rs) && exists i :: 0 <= i < |rs| && rs[i].turn == u && ResumesElsewhere(s, rs[i])
    case _ => false
  }

  /** A late event rotates a finished turn that has the stored session of turn `u`. */
  predicate LateRotation(s: State, op: Operation, u: nat) {
    && u < |s.turns| && op.GatewayOp?
    && var key := (op.mode, op.sessionID);
       key !in s.byRuntime && key in s.recent && RotatesBy(s, s.recent[key], op.event)
       && StoredKey(s.turns[s.recent[key]]) == StoredKey(s.turns[u])
  }

  /** What grants depend on is unchanged. */
  predicate SameGrants(s: State, t: State) {
    && t.byStored == s.byStored && t.byConversation == s.byConversation && |t.turns| == |s.turns|
    && forall u :: 0 <= u < |s.turns| ==>
         && t.turns[u].conversation == s.turns[u].conversation && t.turns[u].mode == s.turns[u].mode
         && t.turns[u].storedID == s.turns[u].storedID && t.turns[u].finalized == s.turns[u].finalized
  }

  lemma SameGrantsKeep(s: State, t: State)
    requires SameGrants(s, t)
    ensures OneTurnEach(s) ==> OneTurnEach(t)
    ensures Apart(s) ==> Apart(t)
    ensures Ordered(s) ==> Ordered(t)
    ensures forall u: nat :: Found(t, u) <==> Found(s, u)
    ensures forall c, m, st :: Free(s, c, m, st) ==> Free(t, c, m, st)
  {
  }

  lemma WorkKeepsGrants(s: State, s': State, t: nat)
    requires t < |s.turns| && WorksOn(s, s', t)
    ensures SameGrants(s, s')
  {
  }

  /** Two active turns never share a stored session. */
  lemma ActiveKeysDiffer(s: State, t: nat, u: nat)
    requires OneTurnEach(s) && Apart(s) && t < |s.turns| && u < |s.turns| && t != u
    requires !s.turns[t].finalized && !s.turns[u].finalized
    ensures StoredKey(s.turns[t]) != StoredKey(s.turns[u])
  {
  }

  /** Of the turns of a conversation only the last may be active. */
  ghost predicate Ordered(s: State) {
    forall t, u :: 0 <= t < u < |s.turns| && s.turns[t].conversation == s.turns[u].conversation ==> s.turns[t].finalized
  }

  /** Turns are only added and keep their conversation and mode; a finished one stays finished. */
  predicate KeepsTurns(s: State, t: State) {
    && |s.turns| <= |t.turns|
    && forall u :: 0 <= u < |s.turns| ==>
         t.turns[u].conversation == s.turns[u].conversation && t.turns[u].mode == s.turns[u].mode
         && (s.turns[u].finalized ==> t.turns[u].finalized)
  }

  /** What a step must do for the turns that stay active; `enters` and `takes` say which it enters and
      which it displaces. */
  ghost predicate Grants(s: State, t: State, enters: set<nat>, takes: set<nat>) {
    && OneTurnEach(t) && Apart(t) && (Ordered(s) ==> Ordered(t)) && KeepsTurns(s, t)
    && forall u :: 0 <= u < |t.turns| && !t.turns[u].finalized ==> (Found(t, u) <==> u in enters || (Found(s, u) && u !in takes))
  }

  lemma SameGrantsGrant(s: State, t: State)
    requires OneTurnEach(s) && Apart(s) && SameGrants(s, t)
    ensures Grants(s, t, {}, {})
  {
    hide OneTurnEach, Apart, Found, Ordered;
    SameGrantsKeep(s, t);
  }

  /** Steps follow one another, the second displacing nothing. */
  lemma GrantsThen(s: State, m: State, t: State, first: set<nat>, second: set<nat>)
    requires Grants(s, m, first, {}) && Grants(m, t, second, {}) && forall u :: u in first ==> u < |m.turns|
    ensures Grants(s, t, first + second, {})
  {
    hide OneTurnEach, Apart, Ordered;
  }

  lemma FinishGrants(s: State, t: nat, state: ConversationState)
    requires OneTurnEach(s) && t < |s.turns| && Apart(s) && !s.turns[t].finalized
    ensures Grants(s, Finish(s, t, state), {}, {})
  {
    hide OneTurnEach, Apart, Ordered, KeepsTurns, Found, Displaces;
    FinishKeepsOneTurnEach(s, t, state);
    FinishKeepsApart(s, t, state);
    var f := Finish(s, t, state);
    forall u | 0 <= u < |f.turns| && !f.turns[u].finalized
      ensures Found(f, u) <==> Found(s, u)
    {
      FoundAfterFinish(s, t, state, u);
      ActiveKeysDiffer(s, t, u);
      FinishDisplaces(s, t, state, u);
    }
  }

  lemma FinishKeepsApart(s: State, t: nat, state: ConversationState)
    requires Apart(s) && t < |s.turns|
    ensures var f := Finish(s, t, state); Apart(f) && (Ordered(s) ==> Ordered(f)) && KeepsTurns(s, f)
  {
    hide Finish;
    FinishChanges(s, t, state);
  }

  lemma FinishChanges(s: State, t: nat, state: ConversationState)
    requires t < |s.turns|
    ensures Finish(s, t, state).turns == s.turns[t := s.turns[t].(finalized := true)]
  {
  }

  lemma FinishDisplaces(s: State, t: nat, state: ConversationState, u: nat)
    requires u < |s.turns| && t < |s.turns| && StoredKey(s.turns[t]) != StoredKey(s.turns[u])
    ensures !Displaces(s, FinishSection(t, state), u)
  {
  }

  lemma EndGrants(s: State, t: nat, e: Event, state: ConversationState)
    requires OneTurnEach(s) && Apart(s) && t < |s.turns| && !s.turns[t].finalized
    ensures Grants(s, End(s, t, e, state), {}, {})
  {
    hide OneTurnEach, Apart, Grants, Finish, Publish;
    var p := Publish(s, t, e);
    WorkKeepsGrants(s, p, t);
    SameGrantsKeep(s, p);
    SameGrantsGrant(s, p);
    FinishGrants(p, t, state);
    var none: set<nat> := {};
    GrantsThen(s, p, Finish(p, t, state), none, none);
    assert none + none == none;
  }

  /** The turns a rotation of a finished turn displaces. */
  function Sharing(s: State, t: nat): set<nat>
    requires t < |s.turns|
  {
    if s.turns[t].finalized then set u: nat | u < |s.turns| && StoredKey(s.turns[u]) == StoredKey(s.turns[t]) else {}
  }

  lemma RotateGrants(s: State, t: nat, storedID: string)
    requires OneTurnEach(s) && Apart(s) && t < |s.turns| && storedID != ""
    requires Free(s, s.turns[t].conversation, s.turns[t].mode, storedID)
    ensures Grants(s, Rotate(s, t, storedID), if s.turns[t].finalized then {} else {t}, Sharing(s, t))
  {
    hide OneTurnEach, Apart, Ordered, KeepsTurns, Displaces, Rotate, Found, Free;
    var r := Rotate(s, t, storedID);
    RotateKeepsApart(s, t, storedID);
    RotateKeepsOneTurnEach(s, t, storedID);
    forall u | 0 <= u < |r.turns| && !r.turns[u].finalized
      ensures Found(r, u) <==> (u == t && !s.turns[t].finalized) || (Found(s, u) && u !in Sharing(s, t))
    {
      FoundAfterRotate(s, t, storedID, u);
      RotateDisplacesIff(s, t, storedID, u);
    }
  }

  lemma RotateDisplacesIff(s: State, t: nat, storedID: string, u: nat)
    requires OneTurnEach(s) && Apart(s) && t < |s.turns| && u < |s.turns| && !s.turns[u].finalized
    requires Free(s, s.turns[t].conversation, s.turns[t].mode, storedID)
    ensures t != u ==> (Displaces(s, RotateSection(t, storedID), u) <==> u in Sharing(s, t))
    ensures t == u ==> u !in Sharing(s, t)
  {
    if t != u && !s.turns[t].finalized {
      ActiveKeysDiffer(s, t, u);
    }
  }

  lemma RotateKeepsApart(s: State, t: nat, storedID: string)
    requires Apart(s) && t < |s.turns| && storedID != "" && Free(s, s.turns[t].conversation, s.turns[t].mode, storedID)
    ensures var r := Rotate(s, t, storedID); Apart(r) && (Ordered(s) ==> Ordered(r)) && KeepsTurns(s, r)
  {
  }

  lemma RotateKeepsOneTurnEach(s: State, t: nat, storedID: string)
    requires OneTurnEach(s) && t < |s.turns|
    ensures OneTurnEach(Rotate(s, t, storedID))
  {
    SectionKeepsOneTurnEach(s, RotateSection(t, storedID));
  }

  // ---------------------------------------------------------------- submit, stop, respond

  lemma BeginGrants(s: State, conversation: string, mode: Mode)
    requires OneTurnEach(s) && Apart(s) && conversation !in s.byConversation
    requires forall k :: k in s.byStored ==> s.byStored[k] < |s.turns|
    ensures var b := Begin(s, conversation, mode);
            && OneTurnEach(b) && |b.turns| == |s.turns| + 1 && b.byStored == s.byStored
            && b.turns[..|s.turns|] == s.turns && b.turns[|s.turns|] == NewTurn(conversation, mode)
            && forall u :: 0 <= u < |b.turns| ==> (Found(b, u) <==> Found(s, u))
  {
    BeginKeepsOneTurnEach(s, conversation, mode);
  }

  /** A new turn gets a session no other conversation has. */
  lemma IndexGrants(s: State, conversation: string, mode: Mode, runtimeID: string, storedID: string)
    requires OneTurnEach(s) && Apart(s) && conversation !in s.byConversation && storedID != "" && Free(s, conversation, mode, storedID)
    requires forall k :: k in s.byStored ==> s.byStored[k] < |s.turns|
    ensures var t, i := |s.turns|, IndexSession(Begin(s, conversation, mode), |s.turns|, runtimeID, storedID);
            Grants(s, i, {t}, {}) && !i.turns[t].finalized && |i.turns| == t + 1
  {
    hide OneTurnEach, Apart, Ordered, KeepsTurns, Begin, IndexSession, Found, Displaces, Free, SameTurns;
    var t, b := |s.turns|, Begin(s, conversation, mode);
    BeginGrants(s, conversation, mode);
    var i := IndexSession(b, t, runtimeID, storedID);
    IndexKeepsOneTurnEach(b, t, runtimeID, storedID);
    IndexKeepsApart(s, b, t, runtimeID, storedID);
    forall u | 0 <= u < |i.turns| && !i.turns[u].finalized
      ensures Found(i, u) <==> u == t || Found(s, u)
    {
      FoundAfterIndex(b, t, runtimeID, storedID, u);
      if u != t {
        NewKeyDiffers(s, b, conversation, mode, runtimeID, storedID, u);
      }
    }
  }

  lemma IndexKeepsOneTurnEach(s: State, t: nat, runtimeID: string, storedID: string)
    requires OneTurnEach(s) && t < |s.turns|
    ensures OneTurnEach(IndexSession(s, t, runtimeID, storedID))
  {
    SectionKeepsOneTurnEach(s, IndexSection(t, runtimeID, storedID));
  }

  lemma NewKeyDiffers(s: State, b: State, conversation: string, mode: Mode, runtimeID: string, storedID: string, u: nat)
    requires OneTurnEach(s) && conversation !in s.byConversation && Free(s, conversation, mode, storedID)
    requires u < |s.turns| && !s.turns[u].finalized && |b.turns| == |s.turns| + 1
    requires b.turns[..|s.turns|] == s.turns && b.turns[|s.turns|] == NewTurn(conversation, mode)
    ensures !Displaces(b, IndexSection(|s.turns|, runtimeID, storedID), u)
  {
    assert b.turns[u] == b.turns[..|s.turns|][u];
  }

  lemma IndexKeepsApart(s: State, b: State, t: nat, runtimeID: string, storedID: string)
    requires Apart(s) && t == |s.turns| && |b.turns| == t + 1 && b.turns[..t] == s.turns
    requires OneTurnEach(s) && b.turns[t].conversation !in s.byConversation && !b.turns[t].finalized
    requires storedID != "" && Free(s, b.turns[t].conversation, b.turns[t].mode, storedID)
    ensures var i := IndexSession(b, t, runtimeID, storedID);
            && Apart(i) && (Ordered(s) ==> Ordered(i)) && KeepsTurns(s, i) && |i.turns| == t + 1
            && !i.turns[t].finalized && forall u :: 0 <= u < t ==> i.turns[u] == s.turns[u]
  {
    assert forall u :: 0 <= u < t ==> b.turns[u] == b.turns[..t][u];
  }

  /** The same sets, as far as active turns go. */
  lemma GrantsLike(s: State, t: State, enters: set<nat>, takes: set<nat>, e: set<nat>, k: set<nat>)
    requires Grants(s, t, enters, takes)
    requires forall u :: 0 <= u < |t.turns| && !t.turns[u].finalized ==> (u in enters <==> u in e) && (u in takes <==> u in k)
    ensures Grants(s, t, e, k)
  {
    hide OneTurnEach, Apart, Found, Ordered;
  }

  lemma NoSessionGrants(s: State, conversation: string, mode: Mode)
    requires OneTurnEach(s) && Apart(s) && conversation !in s.byConversation
    requires forall k :: k in s.byStored ==> s.byStored[k] < |s.turns|
    ensures Grants(s, Finish(Begin(s, conversation, mode), |s.turns|, Failed), {}, {})
  {
    hide OneTurnEach, Ordered, KeepsTurns, Begin, Finish, Found, Displaces;
    var t, b := |s.turns|, Begin(s, conversation, mode);
    BeginGrants(s, conversation, mode);
    FinishKeepsOneTurnEach(b, t, Failed);
    NoSessionKeepsApart(s, b, t);
    var f := Finish(b, t, Failed);
    forall u | 0 <= u < |f.turns| && !f.turns[u].finalized
      ensures Found(f, u) <==> Found(s, u)
    {
      FoundAfterFinish(b, t, Failed, u);
      FinishDisplaces(b, t, Failed, u);
    }
  }

  lemma NoSessionKeepsApart(s: State, b: State, t: nat)
    requires OneTurnEach(s) && Apart(s) && t == |s.turns| && |b.turns| == t + 1 && b.turns[..t] == s.turns
    requires b.turns[t].storedID == "" && !b.turns[t].finalized && b.turns[t].conversation !in s.byConversation
    ensures var f := Finish(b, t, Failed);
            && Apart(f) && (Ordered(s) ==> Ordered(f)) && KeepsTurns(s, f)
            && |f.turns| == t + 1 && f.turns[t].finalized
    ensures forall u :: 0 <= u < t ==> b.turns[u] == s.turns[u] == Finish(b, t, Failed).turns[u]
  {
    assert forall u :: 0 <= u < t ==> b.turns[u] == b.turns[..t][u];
  }

  lemma AcceptedGrants(s: State, i: State, t: nat)
    requires Grants(s, i, {t}, {}) && |i.turns| == t + 1
    ensures Grants(s, Publish(Accept(i, t), t, Activity), {t}, {})
  {
    hide OneTurnEach, Apart, Grants;
    var p := Publish(Accept(i, t), t, Activity);
    GrantsKeep(s, i, {t}, {});
    SameGrantsGrant(i, p);
    var none: set<nat> := {};
    GrantsThen(s, i, p, {t}, none);
    assert {t} + none == {t};
  }

  lemma GrantsKeep(s: State, t: State, enters: set<nat>, takes: set<nat>)
    requires Grants(s, t, enters, takes)
    ensures OneTurnEach(t) && Apart(t)
  {
  }

  lemma SubmitGrants(s: State, c: string, m: Mode, content: GoString, outcome: SubmitOutcome)
    requires Structured(s) && Apart(s) && Separate(s, SubmitOp(c, m, content, outcome))
    ensures Grants(s, Submit(s, c, m, content, outcome), if outcome.AcceptedWith? then {|s.turns|} else {}, {})
  {
    hide OneTurnEach, Stated, Apart, Grants, Free, IsCommand, Begin, IndexSession, Finish, Publish;
    var t := |s.turns|;
    if IsCommand(content) || c in s.byConversation {
      SameGrantsGrant(s, s);
      if outcome.AcceptedWith? {
        GrantsLater(s, t);
      }
    } else if outcome.NoSession? {
      NoSessionGrants(s, c, m);
    } else {
      var b := Begin(s, c, m);
      IndexGrants(s, c, m, outcome.runtimeID, outcome.storedID);
      var i := IndexSession(b, t, outcome.runtimeID, outcome.storedID);
      if outcome.AcceptedWith? {
        AcceptedGrants(s, i, t);
      } else {
        FailedGrants(s, i, t);
      }
    }
  }

  /** A turn that does not exist is entered by nothing. */
  lemma GrantsLater(s: State, t: nat)
    requires Grants(s, s, {}, {}) && t >= |s.turns|
    ensures Grants(s, s, {t}, {})
  {
    hide OneTurnEach, Apart, Found, Ordered;
  }

  lemma FailedGrants(s: State, i: State, t: nat)
    requires Grants(s, i, {t}, {}) && |i.turns| == t + 1 && !i.turns[t].finalized
    ensures Grants(s, Finish(i, t, Failed), {}, {})
  {
    hide OneTurnEach, Apart, Grants, Finish;
    GrantsKeep(s, i, {t}, {});
    FinishGrants(i, t, Failed);
    var none: set<nat> := {};
    var f := Finish(i, t, Failed);
    GrantsThen(s, i, f, {t}, none);
    FinishEnds(i, t, Failed);
    GrantsLike(s, f, {t} + none, none, none, none);
  }

  lemma FinishEnds(s: State, t: nat, state: ConversationState)
    requires t < |s.turns|
    ensures Finish(s, t, state).turns[t].finalized && |Finish(s, t, state).turns| == |s.turns|
  {
  }

  lemma StopGrants(s: State, c: string, interrupted: bool)
    requires Structured(s) && Apart(s)
    ensures Grants(s, Stop(s, c, interrupted), {}, {})
  {
    hide Indexed, Stated, Apart, Grants, End;
    SameGrantsGrant(s, s);
    if c in s.byConversation {
      EndGrants(s, s.byConversation[c], StoppedEvent, Stopped);
    }
  }

  lemma RespondGrants(s: State, c: string, requestID: string, delivered: bool)
    requires Structured(s) && Apart(s)
    ensures Grants(s, Respond(s, c, requestID, delivered), {}, {})
  {
    hide OneTurnEach, Indexed, Stated, Apart, Grants;
    SameGrantsGrant(s, Respond(s, c, requestID, delivered));
  }

  // ---------------------------------------------------------------- gateway events

  lemma WorkThenEndGrants(s: State, p: State, t: nat, e: Event, state: ConversationState)
    requires OneTurnEach(s) && Apart(s) && t < |s.turns| && !s.turns[t].finalized && WorksOn(s, p, t)
    ensures Grants(s, End(p, t, e, state), {}, {})
  {
    hide OneTurnEach, Apart, Grants, End;
    WorkKeepsGrants(s, p, t);
    SameGrantsKeep(s, p);
    SameGrantsGrant(s, p);
    EndGrants(p, t, e, state);
    var none: set<nat> := {};
    GrantsThen(s, p, End(p, t, e, state), none, none);
    assert none + none == none;
  }

  lemma CompleteGrants(s: State, t: nat, text: GoString, status: string)
    requires OneTurnEach(s) && Apart(s) && t < |s.turns| && !s.turns[t].finalized
    ensures Grants(s, HandleComplete(s, t, text, status), {}, {})
  {
    hide OneTurnEach, Apart, Grants, End, Strip, TrimSpace, ShowFinalText, FlushFilter;
    var shown := ShowFinalText(FlushFilter(s, t), t, text, TrimSpace(Strip(text)));
    WorkTwice(s, FlushFilter(s, t), shown, t);
    WorkThenEndGrants(s, shown, t, StoppedEvent, Stopped);
    WorkThenEndGrants(s, shown, t, ErrorEvent, Failed);
    WorkThenEndGrants(s, shown, t, CompletedEvent, Idle);
  }

  lemma WorkTwice(s: State, m: State, r: State, t: nat)
    requires t < |s.turns| && WorksOn(s, m, t) && WorksOn(m, r, t)
    ensures WorksOn(s, r, t)
  {
  }

  lemma WorkGrants(s: State, p: State, t: nat)
    requires OneTurnEach(s) && Apart(s) && t < |s.turns| && WorksOn(s, p, t)
    ensures Grants(s, p, {}, {})
  {
    hide OneTurnEach, Apart, Grants;
    WorkKeepsGrants(s, p, t);
    SameGrantsGrant(s, p);
  }

  lemma ToolGrants(s: State, t: nat, e: GatewayEvent)
    requires OneTurnEach(s) && Apart(s) && t < |s.turns| && !s.turns[t].finalized && e.ToolEvent?
    ensures Grants(s, HandleTool(s, t, e), {}, {})
  {
    hide OneTurnEach, Apart, Grants, End, Publish, PublishDrafts, PublishCitations;
    SameGrantsGrant(s, s);
    EndGrants(s, t, ErrorEvent, Failed);
    var active := Publish(s, t, Activity);
    WorkGrants(s, active, t);
    WorkTwice(s, active, PublishDrafts(active, t, e.drafts), t);
    WorkGrants(s, PublishDrafts(active, t, e.drafts), t);
    WorkTwice(s, active, PublishCitations(active, t, e.citations), t);
    WorkGrants(s, PublishCitations(active, t, e.citations), t);
  }

  lemma ClarifyGrants(s: State, t: nat, e: GatewayEvent)
    requires OneTurnEach(s) && Apart(s) && t < |s.turns| && !s.turns[t].finalized && e.ClarifyRequest?
    ensures Grants(s, HandleClarify(s, t, e), {}, {})
  {
    hide OneTurnEach, Apart, Grants, End, TrimSpace;
    EndGrants(s, t, ErrorEvent, Failed);
    SameGrantsGrant(s, Publish(Ask(s, t, e.requestID), t, ClarificationAsked(e.requestID)));
  }

  lemma ActiveEventGrants(s: State, t: nat, e: GatewayEvent)
    requires OneTurnEach(s) && Apart(s) && t < |s.turns| && !s.turns[t].finalized
    requires RotatesBy(s, t, e) ==> Free(s, s.turns[t].conversation, s.turns[t].mode, e.storedID)
    ensures Grants(s, HandleActive(s, t, e), if RotatesBy(s, t, e) then {t} else {}, {})
  {
    hide OneTurnEach, Apart, Grants, End, Rotate, FeedText, HandleComplete, HandleTool, HandleClarify;
    SameGrantsGrant(s, s);
    match e
    case TextEvent(_, _, _, text) => WorkGrants(s, FeedText(s, t, text), t);
    case MessageComplete(text, status) => CompleteGrants(s, t, text, status);
    case ToolEvent(_, _, _, _, _, _) => ToolGrants(s, t, e);
    case ClarifyRequest(_, _, _) => ClarifyGrants(s, t, e);
    case SessionInfo(_, storedID, _) => if RotatesBy(s, t, e) { RotateGrants(s, t, storedID); }
    case GatewayFailure => EndGrants(s, t, ErrorEvent, Failed);
    case OtherRequest => EndGrants(s, t, ErrorEvent, Failed);
    case Unknown =>
  }

  // ---------------------------------------------------------------- reconnect

  lemma ReconcileTurnGrants(s: State, r: Resumption)
    requires OneTurnEach(s) && Apart(s) && r.turn < |s.turns| && !s.turns[r.turn].finalized
    requires ResumesElsewhere(s, r) ==> Free(s, s.turns[r.turn].conversation, s.turns[r.turn].mode, r.outcome.storedID)
    ensures Grants(s, ReconcileTurn(s, r.turn, r.outcome), if ResumesElsewhere(s, r) then {r.turn} else {}, {})
  {
    hide OneTurnEach, Apart, Grants, End, Rotate, Free, Found;
    var t := r.turn;
    EndGrants(s, t, ErrorEvent, Failed);
    if r.outcome.Resumed? {
      var bound := Rebind(s, t, r.outcome.runtimeID);
      SameGrantsKeep(s, bound);
      var enters := if ResumesElsewhere(s, r) then {t} else {};
      var rotated := if ResumesElsewhere(s, r) then Rotate(bound, t, r.outcome.storedID) else bound;
      RebindThenRotate(s, r);
      GrantsKeep(s, rotated, enters, {});
      assert !rotated.turns[t].finalized && |rotated.turns| == |s.turns|;
      ThenEnd(s, rotated, enters, t, ErrorEvent, Failed);
      ThenEnd(s, rotated, enters, t, CompletedEvent, Idle);
    }
  }

  lemma RebindThenRotate(s: State, r: Resumption)
    requires OneTurnEach(s) && Apart(s) && r.turn < |s.turns| && !s.turns[r.turn].finalized && r.outcome.Resumed?
    requires ResumesElsewhere(s, r) ==> Free(s, s.turns[r.turn].conversation, s.turns[r.turn].mode, r.outcome.storedID)
    ensures var bound := Rebind(s, r.turn, r.outcome.runtimeID);
            Grants(s, if ResumesElsewhere(s, r) then Rotate(bound, r.turn, r.outcome.storedID) else bound,
                   if ResumesElsewhere(s, r) then {r.turn} else {}, {})
  {
    hide OneTurnEach, Apart, Grants, Rotate, Free, Found;
    var bound := Rebind(s, r.turn, r.outcome.runtimeID);
    SameGrantsKeep(s, bound);
    SameGrantsGrant(s, bound);
    if ResumesElsewhere(s, r) {
      RotateGrants(bound, r.turn, r.outcome.storedID);
      var none: set<nat> := {};
      GrantsThen(s, bound, Rotate(bound, r.turn, r.outcome.storedID), none, {r.turn});
      assert none + {r.turn} == {r.turn};
    }
  }

  lemma ThenEnd(s: State, p: State, enters: set<nat>, t: nat, e: Event, state: ConversationState)
    requires Grants(s, p, enters, {}) && t < |p.turns| && !p.turns[t].finalized && forall u :: u in enters ==> u < |p.turns|
    ensures Grants(s, End(p, t, e, state), enters, {})
  {
    hide OneTurnEach, Apart, Grants, End;
    GrantsKeep(s, p, enters, {});
    EndGrants(p, t, e, state);
    var none: set<nat> := {};
    GrantsThen(s, p, End(p, t, e, state), enters, none);
    assert enters + none == enters;
  }

  /** The turns that resuming gives another stored session. */
  function RotatedIn(s: State, rs: seq<Resumption>): set<nat> {
    set i | 0 <= i < |rs| && ResumesElsewhere(s, rs[i]) :: rs[i].turn
  }

  lemma {:induction false} ReconcileGrants(s: State, mode: Mode, rs: seq<Resumption>)
    requires OneTurnEach(s) && Apart(s) && ActiveOnce(s, mode, rs) && SeparateAll(s, rs)
    ensures Grants(s, ReconcileTurns(s, rs), RotatedIn(s, rs), {})
    decreases |rs|
  {
    hide OneTurnEach, Apart, Grants, ReconcileTurn, Free, Found;
    if rs == [] {
      SameGrantsGrant(s, s);
      assert RotatedIn(s, rs) == {};
    } else {
      var m := ReconcileTurn(s, rs[0].turn, rs[0].outcome);
      ReconcileTurnGrants(s, rs[0]);
      ReconcileTurnLeavesOthers(s, rs[0].turn, rs[0].outcome);
      var first := if ResumesElsewhere(s, rs[0]) then {rs[0].turn} else {};
      GrantsKeep(s, m, first, {});
      ReconcileGrants(m, mode, rs[1..]);
      GrantsThen(s, m, ReconcileTurns(m, rs[1..]), first, RotatedIn(m, rs[1..]));
      RotatedFirst(s, m, mode, rs);
    }
  }

  lemma RotatedFirst(s: State, m: State, mode: Mode, rs: seq<Resumption>)
    requires rs != [] && ActiveOnce(s, mode, rs) && OthersSame(s, m, rs[0].turn)
    ensures RotatedIn(s, rs) == (if ResumesElsewhere(s, rs[0]) then {rs[0].turn} else {}) + RotatedIn(m, rs[1..])
  {
    var rest := rs[1..];
    forall i | 0 <= i < |rest|
      ensures rest[i] == rs[i + 1] && (ResumesElsewhere(m, rest[i]) <==> ResumesElsewhere(s, rest[i]))
    {
    }
  }

  // ---------------------------------------------------------------- one operation

  function EnteredBy(s: State, op: Operation): set<nat> {
    set u: nat | u <= |s.turns| && EntersTurn(s, op, u)
  }

  function TakenBy(s: State, op: Operation): set<nat> {
    set u: nat | u < |s.turns| && LateRotation(s, op, u)
  }

  lemma GatewayGrants(s: State, m: Mode, id: string, e: GatewayEvent)
    requires Structured(s) && Apart(s) && Separate(s, GatewayOp(m, id, e))
    ensures Grants(s, HandleGatewayEvent(s, m, id, e), EnteredBy(s, GatewayOp(m, id, e)), TakenBy(s, GatewayOp(m, id, e)))
  {
    hide OneTurnEach, Stated, Apart, Grants, Free, HandleActive, Rotate;
    var op, key, none: set<nat> := GatewayOp(m, id, e), (m, id), {};
    SameGrantsGrant(s, s);
    if key in s.byRuntime {
      var t := s.byRuntime[key];
      ActiveEventGrants(s, t, e);
      assert EnteredBy(s, op) == if RotatesBy(s, t, e) then {t} else {};
      assert TakenBy(s, op) == {};
    } else {
      assert EnteredBy(s, op) == {};
      if key in s.recent && RotatesBy(s, s.recent[key], e) {
        var t := s.recent[key];
        RotateGrants(s, t, e.storedID);
        assert TakenBy(s, op) == Sharing(s, t);
      } else {
        assert TakenBy(s, op) == {};
      }
    }
  }

  lemma StepGrants(s: State, op: Operation)
    requires Invariant(s) && Apart(s) && Separate(s, op)
    ensures Grants(s, Step(s, op), EnteredBy(s, op), TakenBy(s, op))
  {
    hide OneTurnEach, Stated, Projected, Traced, Apart, Grants, Free, Submit, Stop, Respond, HandleGatewayEvent, ReconcileTurns, IsCommand, ActiveOnce, RotatedIn;
    match op
    case SubmitOp(c, m, content, outcome) =>
      SubmitGrants(s, c, m, content, outcome);
      SubmitSets(s, c, m, content, outcome);
    case StopOp(c, ok) =>
      StopGrants(s, c, ok);
      assert EnteredBy(s, op) == {} && TakenBy(s, op) == {};
    case RespondOp(c, q, ok) =>
      RespondGrants(s, c, q, ok);
      assert EnteredBy(s, op) == {} && TakenBy(s, op) == {};
    case GatewayOp(m, id, e) => GatewayGrants(s, m, id, e);
    case ReconcileOp(m, rs) =>
      assert TakenBy(s, op) == {};
      if ActiveOnce(s, m, rs) {
        ReconcileGrants(s, m, rs);
        ReconcileSets(s, m, rs);
      } else {
        SameGrantsGrant(s, s);
        assert EnteredBy(s, op) == {};
      }
    case ForgetOp(k) =>
      SameGrantsGrant(s, Forget(s, k));
      assert EnteredBy(s, op) == {} && TakenBy(s, op) == {};
  }

  lemma ReconcileSets(s: State, m: Mode, rs: seq<Resumption>)
    requires ActiveOnce(s, m, rs)
    ensures EnteredBy(s, ReconcileOp(m, rs)) == RotatedIn(s, rs)
  {
  }

  lemma SubmitSets(s: State, c: string, m: Mode, content: GoString, outcome: SubmitOutcome)
    requires Grants(s, Submit(s, c, m, content, outcome), if outcome.AcceptedWith? then {|s.turns|} else {}, {})
    ensures var op := SubmitOp(c, m, content, outcome);
            Grants(s, Submit(s, c, m, content, outcome), EnteredBy(s, op), TakenBy(s, op))
  {
    hide OneTurnEach, Apart, Grants, IsCommand, Begin, IndexSession, Finish, Publish;
    var op := SubmitOp(c, m, content, outcome);
    GrantsLike(s, Submit(s, c, m, content, outcome), if outcome.AcceptedWith? then {|s.turns|} else {}, {}, EnteredBy(s, op), TakenBy(s, op));
  }

  /** While conversations have different stored sessions, only a late rotation takes a turn that stays
      active out of the stored index. */
  lemma OnlyLateRotationDisplaces(s: State, op: Operation, u: nat)
    requires Invariant(s) && Apart(s) && Separate(s, op) && Found(s, u) && !s.turns[u].finalized
    requires u < |Step(s, op).turns| && !Step(s, op).turns[u].finalized
    ensures Found(Step(s, op), u) <==> !LateRotation(s, op, u)
  {
    hide Invariant, Apart, Separate, Step, OneTurnEach, IsCommand, ActiveOnce;
    StepGrants(s, op);
  }

  // ---------------------------------------------------------------- runs of whole operations

  /** Over a run, whatever session an operation gives to a conversation is no other conversation's. */
  ghost predicate SeparateRun(ops: seq<Operation>) {
    forall j :: 0 <= j < |ops| ==> Separate(Run(INITIAL, ops[..j]), ops[j])
  }

  lemma {:induction false} RunOneMore(s: State, ops: seq<Operation>, n: nat)
    requires n < |ops|
    ensures Run(s, ops[..n + 1]) == Step(Run(s, ops[..n]), ops[n])
    decreases |ops|
  {
    hide Step;
    if n == 0 {
      assert ops[..1] == [ops[0]] && ops[..0] == [] && [ops[0]][1..] == [];
      assert Run(Step(s, ops[0]), []) == Step(s, ops[0]);
    } else {
      RunOneMore(Step(s, ops[0]), ops[1..], n - 1);
      assert ops[..n + 1][1..] == ops[1..][..n] && ops[..n][1..] == ops[1..][..n - 1];
    }
  }

  ghost predicate EntersTurnAt(ops: seq<Operation>, k: nat, u: nat)
    requires k < |ops|
  {
    EntersTurn(Run(INITIAL, ops[..k]), ops[k], u)
  }

  ghost predicate LateRotationAt(ops: seq<Operation>, j: nat, u: nat)
    requires j < |ops|
  {
    LateRotation(Run(INITIAL, ops[..j]), ops[j], u)
  }

  /** Of the first `n` operations one entered turn `u`, and no later one was a late rotation of a turn with
      the same stored session. */
  ghost predicate GrantedLast(ops: seq<Operation>, n: nat, u: nat)
    requires n <= |ops|
  {
    exists k :: 0 <= k < n && EntersTurnAt(ops, k, u) && forall j :: k < j < n ==> !LateRotationAt(ops, j, u)
  }

  lemma GrantedOneMore(ops: seq<Operation>, n: nat, u: nat)
    requires n < |ops|
    ensures GrantedLast(ops, n + 1, u) <==> EntersTurnAt(ops, n, u) || (GrantedLast(ops, n, u) && !LateRotationAt(ops, n, u))
  {
    hide EntersTurnAt, LateRotationAt;
  }

  lemma EnteredExists(s: State, op: Operation, u: nat)
    requires Invariant(s) && EntersTurn(s, op, u)
    ensures u <= |s.turns| && u < |Step(s, op).turns|
  {
    hide OneTurnEach, Stated, Projected, Traced, IsCommand, HandleActive;
    match op
    case SubmitOp(_, _, _, _) =>
    case GatewayOp(m, id, e) => ActiveEventLeavesOthers(s, u, e);
    case ReconcileOp(m, rs) => ReconcileKeepsCount(s, rs);
    case _ =>
  }

  lemma {:induction false} ReconcileKeepsCount(s: State, rs: seq<Resumption>)
    ensures |ReconcileTurns(s, rs).turns| == |s.turns|
    decreases |rs|
  {
    hide ReconcileTurn;
    if rs != [] && rs[0].turn < |s.turns| {
      ReconcileKeepsCount(ReconcileTurn(s, rs[0].turn, rs[0].outcome), rs[1..]);
    }
  }

  lemma {:induction false} GrantInRun(ops: seq<Operation>, n: nat, u: nat)
    requires n <= |ops| && SeparateRun(ops)
    ensures var s := Run(INITIAL, ops[..n]);
            && Invariant(s) && Apart(s) && Ordered(s)
            && (GrantedLast(ops, n, u) ==> u < |s.turns|)
            && (u < |s.turns| && !s.turns[u].finalized ==> (Found(s, u) <==> GrantedLast(ops, n, u)))
    decreases n
  {
    hide Invariant, Step, Apart, Ordered, Separate, EntersTurn, LateRotation, OneTurnEach;
    if n == 0 {
      assert ops[..0] == [];
      InitialInvariant();
      InitialIsApart();
    } else {
      GrantInRun(ops, n - 1, u);
      RunOneMore(INITIAL, ops, n - 1);
      var s, op := Run(INITIAL, ops[..n - 1]), ops[n - 1];
      StepKeepsInvariant(s, op);
      StepGrants(s, op);
      GrantedOneMore(ops, n - 1, u);
      if EntersTurn(s, op, u) {
        EnteredExists(s, op, u);
      }
    }
  }

  lemma InitialIsApart()
    ensures Apart(INITIAL) && Ordered(INITIAL)
  {
  }

  /** Over every run in which conversations have different stored sessions, an active turn is found by its
      stored session exactly when no late rotation of a turn with the same session followed the operation
      that last entered it. */
  lemma GrantOverRuns(ops: seq<Operation>, u: nat)
    requires SeparateRun(ops)
    requires var s := Run(INITIAL, ops); u < |s.turns| && !s.turns[u].finalized
    ensures Found(Run(INITIAL, ops), u) <==> GrantedLast(ops, |ops|, u)
  {
    hide Run, GrantedLast, Found, SeparateRun, Invariant;
    assert ops[..|ops|] == ops;
    GrantInRun(ops, |ops|, u);
  }

  /** Such a rotation is of an earlier turn of the same conversation, which has ended. */
  lemma LateRotationIsOfEarlierTurn(ops: seq<Operation>, op: Operation, u: nat)
    requires SeparateRun(ops) && u < |Run(INITIAL, ops).turns| && !Run(INITIAL, ops).turns[u].finalized
    requires LateRotation(Run(INITIAL, ops), op, u)
    ensures var s := Run(INITIAL, ops);
            var t := s.recent[(op.mode, op.sessionID)];
            t < u && s.turns[t].finalized && s.turns[t].conversation == s.turns[u].conversation
  {
    hide Run, GrantedLast, Found, SeparateRun, Projected, Traced, OneTurnEach, Stated;
    assert ops[..|ops|] == ops;
    GrantInRun(ops, |ops|, u);
    var s := Run(INITIAL, ops);
    var t := s.recent[(op.mode, op.sessionID)];
  }

  /** The guard before the rotation: rotating a finished turn displaces an active one exactly when the
      stored index has an entry under the finished turn's session. */
  lemma RotationDisplacesIffEntry(s: State, t: nat, storedID: string)
    requires Invariant(s) && t < |s.turns| && s.turns[t].finalized
    ensures StoredKey(s.turns[t]) in s.byStored <==> exists u: nat :: Found(s, u) && !Found(Rotate(s, t, storedID), u)
  {
    hide OneTurnEach, Stated, Projected, Traced, Rotate, Found;
    var key := StoredKey(s.turns[t]);
    forall u: nat
      ensures Found(s, u) && !Found(Rotate(s, t, storedID), u) <==> key in s.byStored && s.byStored[key] == u
    {
      FinishedRotation(s, t, storedID, u);
    }
    if key in s.byStored {
      var u := s.byStored[key];
      assert Found(s, u) && !Found(Rotate(s, t, storedID), u);
    }
  }

  lemma FinishedRotation(s: State, t: nat, storedID: string, u: nat)
    requires OneTurnEach(s) && Indexed(s) && t < |s.turns| && s.turns[t].finalized
    ensures var key := StoredKey(s.turns[t]);
            Found(s, u) && !Found(Rotate(s, t, storedID), u) <==> key in s.byStored && s.byStored[key] == u
  {
  }

  // ---------------------------------------------------------------- an active turn without its grant

  /** Between the two turns the gateway reconnects, so the second resumes the stored session under a new
      runtime id; then an event for the first one's runtime id arrives. */
  const LATE: seq<Operation> := [
    SubmitOp("c", QA, "", AcceptedWith("r", "s")), StopOp("c", true), ReconcileOp(QA, []),
    SubmitOp("c", QA, "", AcceptedWith("q", "s")), GatewayOp(QA, "r", SessionInfo(true, "z", true))]

  const FIRST := NewTurn("c", QA).(runtimeID := "r", storedID := "s", accepted := true, events := [Activity])
  const ENDED := FIRST.(finalized := true, events := [Activity, StoppedEvent])
  const SECOND := NewTurn("c", QA).(runtimeID := "q", storedID := "s", accepted := true, events := [Activity])

  /** The states that run goes through. */
  const L1 := INITIAL.(
    turns := [FIRST], byConversation := map["c" := 0], byRuntime := map[(QA, "r") := 0], byStored := map[(QA, "s") := 0],
    conversation := map["c" := Running], published := [Published(0, Activity)])
  const L2 := INITIAL.(
    turns := [ENDED], recent := map[(QA, "r") := 0], conversation := map["c" := ConversationState.Stopped],
    published := [Published(0, Activity), Published(0, StoppedEvent)])
  const L3 := L2.(
    turns := [ENDED, SECOND], byConversation := map["c" := 1], byRuntime := map[(QA, "q") := 1], byStored := map[(QA, "s") := 1],
    conversation := map["c" := Running],
    published := [Published(0, Activity), Published(0, StoppedEvent), Published(1, Activity)])
  const L4 := L3.(turns := [ENDED.(storedID := "z"), SECOND], byStored := map[])

  lemma LateSubmits()
    ensures Step(INITIAL, LATE[0]) == L1
  {
    var s := Step(INITIAL, LATE[0]);
    assert TrimSpace("") == "";
    assert s.turns[0].events == [Activity] && s.turns[0] == FIRST;
    assert s.turns == [FIRST] && s.published == [Published(0, Activity)];
    assert s.clarifications == map[];
  }

  lemma LateStops()
    ensures Step(L1, LATE[1]) == L2
  {
    var s := Step(L1, LATE[1]);
    assert s.turns[0].events == [Activity, StoppedEvent] && s.turns[0] == ENDED;
    assert s.turns == [ENDED] && s.published == L2.published;
    assert s.byConversation == map[] && s.byRuntime == map[] && s.byStored == map[] && s.clarifications == map[];
    assert s.conversation == L2.conversation && s.recent == L2.recent;
  }

  lemma LateSubmitsAgain()
    ensures Step(L2, LATE[3]) == L3
  {
    var s := Step(L2, LATE[3]);
    assert TrimSpace("") == "";
    assert s.turns[1].events == [Activity] && s.turns[1] == SECOND;
    assert s.turns == [ENDED, SECOND] && s.published == L3.published;
    assert s.clarifications == map[] && s.conversation == L3.conversation;
  }

  lemma LateReconnects()
    ensures Step(L2, LATE[2]) == L2
  {
  }

  lemma LateRotates()
    ensures Step(L3, LATE[4]) == L4
  {
  }

  /** A late event for a finished turn takes away the grant of the next turn of the same conversation. */
  lemma LateEventHidesActiveTurn()
    ensures Run(INITIAL, LATE) == L4 && L4.turns[1].accepted && !L4.turns[1].finalized && !Found(L4, 1)
  {
    hide Step;
    LateSubmits();
    LateStops();
    LateReconnects();
    LateSubmitsAgain();
    LateRotates();
    RunOn(INITIAL, LATE);
    RunOn(L1, LATE[1..]);
    RunOn(L2, LATE[2..]);
    RunOn(L2, LATE[3..]);
    RunOn(L3, LATE[4..]);
  }

  /** It gives no session to two conversations. */
  lemma LateRunIsSeparate()
    ensures SeparateRun(LATE)
  {
    hide Separate;
    LateIsSeparate();
    forall n | 0 <= n < |LATE|
      ensures Separate(Run(INITIAL, LATE[..n]), LATE[n])
    {
      LateStates(n);
    }
  }

  function LateState(n: nat): State
  {
    if n == 0 then INITIAL else if n == 1 then L1 else if n <= 3 then L2 else L3
  }

  lemma {:induction false} LateStates(n: nat)
    requires n < |LATE|
    ensures Run(INITIAL, LATE[..n]) == LateState(n)
  {
    hide Step;
    if n == 0 {
      assert LATE[..0] == [];
    } else {
      LateSubmits();
      LateStops();
      LateReconnects();
      LateSubmitsAgain();
      LateStates(n - 1);
      RunOneMore(INITIAL, LATE, n - 1);
    }
  }

  lemma LateIsSeparate()
    ensures forall n :: 0 <= n < |LATE| ==> Separate(LateState(n), LATE[n])
  {
  }

  lemma RunOn(s: State, ops: seq<Operation>)
    requires ops != []
    ensures Run(s, ops) == Run(Step(s, ops[0]), ops[1..])
  {
  }
}
