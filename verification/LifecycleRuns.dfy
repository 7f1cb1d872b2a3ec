/** Runs of transactions on the governed wiki. */
module LifecycleRuns {
  import opened GoStrings
  import opened Options
  import opened BddSteps
  import opened PageStore
  import opened Lifecycle
  import C = ChangeSets
  import P = ChangeSetProofs

  datatype Transaction =
    | CreateTx(organization: string, input: NewPage, ids: NewIDs)
    | SaveTx(organization: string, page: string, base: string, content: Content, resolved: bool, revision: string)
    | ApproveTx(organization: string, revision: string)
    | ObjectTx(organization: string, revision: string, reason: GoString, objection: string)
    | ResolveTx(organization: string, objection: string)
    | ChangesTx(organization: string, clarification: GoString, operations: seq<C.Operation>, rows: seq<C.RowIDs>)
    | DevelopTx(revision: string, status: DevelopmentStatus)

  /** The database hands out unused ids only. */
  ghost predicate Possible(s: Tables, tx: Transaction) {
    match tx
    case CreateTx(_, _, ids) => Unused(s, ids)
    case SaveTx(_, _, _, _, _, r) => r !in s.revisions
    case ObjectTx(_, _, _, o) => o !in s.objections
    case ChangesTx(_, _, ops, ids) => |ops| <= |ids| && C.FreshIDs(s, ids)
    case _ => true
  }

  ghost function Outcome(s: Tables, tx: Transaction): Result<Tables>
    requires Possible(s, tx)
  {
    match tx
    case CreateTx(org, input, ids) => CreatePage(s, org, input, ids)
    case SaveTx(org, p, base, content, resolved, r) => SaveRevision(s, org, p, base, content, resolved, r)
    case ApproveTx(org, r) => ApproveRevision(s, org, r)
    case ObjectTx(org, r, reason, o) => AddObjection(s, org, r, reason, o)
    case ResolveTx(org, o) => ResolveObjection(s, org, o)
    case ChangesTx(org, clarification, ops, ids) =>
      var applied :- C.ApplyChangeSet(s, org, clarification, ops, ids);
      Ok(applied.tables)
    case DevelopTx(r, status) =>
      if r in s.developments then Ok(s.(developments := s.developments[r := status])) else Err(NotFound)
  }

  /** A failed transaction commits nothing. */
  ghost function Commit(s: Tables, tx: Transaction): Tables {
    if Possible(s, tx) && Outcome(s, tx).Ok? then Outcome(s, tx).value else s
  }

  ghost function Run(s: Tables, txs: seq<Transaction>): Tables
    decreases |txs|
  {
    if txs == [] then s else Run(Commit(s, txs[0]), txs[1..])
  }

  // ---------------------------------------------------------------- the invariant over runs

  lemma DevelopKeepsInvariant(s: Tables, r: string, status: DevelopmentStatus)
    requires Invariant(s) && r in s.developments
    ensures Invariant(s.(developments := s.developments[r := status]))
  {
    hide PageInputError, AllFit, SlugsUnique;
    var chains :| WellKept(s, chains);
    var s' := s.(developments := s.developments[r := status]);
    DevelopKeepsLinks(s, chains, r, status);
    DevelopKeepsRest(s, chains, r, status);
    assert WellKept(s', chains);
  }

  lemma DevelopKeepsLinks(s: Tables, chains: Chains, r: string, status: DevelopmentStatus)
    requires Chained(s, chains)
    ensures Chained(s.(developments := s.developments[r := status]), chains)
  {
    var s' := s.(developments := s.developments[r := status]);
    forall q, k | q in chains && 0 <= k < |chains[q]|
      ensures IsLink(s', chains, q, k)
    {
      assert IsLink(s, chains, q, k);
    }
    forall v | v in s'.revisions
      ensures InChain(s', chains, v)
    {
      assert InChain(s, chains, v);
    }
  }

  lemma DevelopKeepsPointers(s: Tables, chains: Chains, r: string, status: DevelopmentStatus)
    requires Pointed(s, chains)
    ensures Pointed(s.(developments := s.developments[r := status]), chains)
  {
    var s' := s.(developments := s.developments[r := status]);
    forall q | q in s'.pages
      ensures PagePointed(s', chains, q)
    {
      assert PagePointed(s, chains, q);
    }
    forall v | v in s'.revisions
      ensures RevisionPointed(s', v)
    {
      assert RevisionPointed(s, v);
    }
  }

  lemma DevelopKeepsRest(s: Tables, chains: Chains, r: string, status: DevelopmentStatus)
    requires WellKept(s, chains) && r in s.developments
    ensures var s' := s.(developments := s.developments[r := status]);
            Pointed(s', chains) && AllFit(s') && Parented(s') && Developing(s') && SlugsUnique(s')
  {
    hide PageInputError, Chained, Pointed;
    var s' := s.(developments := s.developments[r := status]);
    DevelopKeepsPointers(s, chains, r, status);
    forall q | q in s'.pages
      ensures PageParented(s', s'.pages[q])
    {
      assert PageParented(s, s.pages[q]);
    }
    forall v
      ensures v in s'.developments <==> v in s'.revisions && IsDeveloped(s', s'.revisions[v])
    {
      assert v in s.developments <==> v in s.revisions && IsDeveloped(s, s.revisions[v]);
    }
  }

  lemma CommitKeepsInvariant(s: Tables, tx: Transaction)
    requires Invariant(s)
    ensures Invariant(Commit(s, tx))
  {
    hide Invariant, CreatePage, SaveRevision, ApproveRevision, Unused, C.FreshIDs, C.ValidShape, C.ApplyFirst, TrimSpace;
    if Possible(s, tx) && Outcome(s, tx).Ok? {
      match tx
      case CreateTx(org, input, ids) => CreatePageKeepsInvariant(s, org, input, ids);
      case SaveTx(org, p, base, content, resolved, r) => SaveKeepsInvariant(s, org, p, base, content, resolved, r);
      case ApproveTx(org, r) => ApproveKeepsInvariant(s, org, r);
      case ObjectTx(_, _, _, _) => ObjectionsKeepInvariant(s, Outcome(s, tx).value.objections);
      case ResolveTx(_, _) => ObjectionsKeepInvariant(s, Outcome(s, tx).value.objections);
      case ChangesTx(org, clarification, ops, ids) =>
        if TrimSpace(clarification) == "" {
          P.ChangesKeepInvariant(s, org, ops, |ops|, ids);
        }
      case DevelopTx(r, status) => DevelopKeepsInvariant(s, r, status);
    }
  }

  const EMPTY := Tables({}, map[], map[], map[], map[])

  lemma EmptyInvariant(managed: set<string>)
    ensures Invariant(EMPTY.(managed := managed))
  {
    assert WellKept(EMPTY.(managed := managed), map[]);
  }

  /** The revision lifecycle holds after every run of transactions. */
  lemma {:induction false} RunKeepsInvariant(s: Tables, txs: seq<Transaction>)
    requires Invariant(s)
    ensures Invariant(Run(s, txs))
    decreases |txs|
  {
    hide Invariant, Commit;
    if txs != [] {
      CommitKeepsInvariant(s, txs[0]);
      RunKeepsInvariant(Commit(s, txs[0]), txs[1..]);
    }
  }

  // ---------------------------------------------------------------- what is never undone

  /** A revision keeps its page, number, base and text; superseded and approved-once are final. */
  predicate Lasts(a: Revision, b: Revision) {
    && b.page == a.page && b.number == a.number && b.base == a.base && b.content == a.content
    && (a.status == Superseded ==> b.status == Superseded) && (a.everApproved ==> b.everApproved)
    && (a.status == Approved ==> b.status != Draft)
  }

  /** Nothing is deleted: pages keep their identity and approval, revisions last, development rows stay. */
  ghost predicate Grown(s: Tables, s': Tables) {
    && (forall p :: p in s.pages ==> p in s'.pages && SamePage(s.pages[p], s'.pages[p]))
    && (forall r :: r in s.revisions ==> r in s'.revisions && Lasts(s.revisions[r], s'.revisions[r]))
    && s.developments.Keys <= s'.developments.Keys
  }

  lemma GrownTwice(a: Tables, b: Tables, c: Tables)
    requires Grown(a, b) && Grown(b, c)
    ensures Grown(a, c)
  {
    forall p | p in a.pages
      ensures p in c.pages && SamePage(a.pages[p], c.pages[p])
    {
      assert SamePage(a.pages[p], b.pages[p]);
    }
    forall r | r in a.revisions
      ensures r in c.revisions && Lasts(a.revisions[r], c.revisions[r])
    {
      assert Lasts(a.revisions[r], b.revisions[r]);
    }
  }

  lemma AddPageGrows(s: Tables, p: string, r: string, page: Page, content: Content, resolved: bool)
    requires p !in s.pages && r !in s.revisions && AddPage(s, p, r, page, content, resolved).Ok?
    ensures Grown(s, AddPage(s, p, r, page, content, resolved).value)
  {
    hide AddPage;
    AddPageAdds(s, p, r, page, content, resolved);
  }

  lemma ReviseGrows(s: Tables, p: string, base: string, content: Content, resolved: bool, r: string)
    requires p in s.pages && r !in s.revisions && Revise(s, p, base, content, resolved, r).Ok?
    ensures Grown(s, Revise(s, p, base, content, resolved, r).value)
  {
    hide Trimmed, PageInputError, NextNumber, ReferencesExist;
  }

  lemma ApproveLasts(s: Tables, organization: string, r: string)
    requires ApproveRevision(s, organization, r).Ok? && s.revisions[r].status == Draft
    ensures var s' := ApproveRevision(s, organization, r).value;
            && s.developments.Keys <= s'.developments.Keys
            && forall v :: v in s.revisions ==> v in s'.revisions && Lasts(s.revisions[v], s'.revisions[v])
  {
    hide ParentApproved, OpenObjection;
  }

  lemma ApproveGrows(s: Tables, chains: Chains, organization: string, r: string)
    requires WellKept(s, chains) && ApproveRevision(s, organization, r).Ok?
    ensures Grown(s, ApproveRevision(s, organization, r).value)
  {
    hide Chained, AllFit, Parented, Developing, SlugsUnique, ParentApproved, OpenObjection;
    assert RevisionPointed(s, r);
    hide Pointed;
    ApproveLasts(s, organization, r);
    ApproveSamePages(s, organization, r);
  }

  lemma CreatePageGrows(s: Tables, organization: string, input: NewPage, ids: NewIDs)
    requires Unused(s, ids) && CreatePage(s, organization, input, ids).Ok?
    ensures Grown(s, CreatePage(s, organization, input, ids).value)
  {
    hide CreatePageError, AddPage, Grown;
    var page := Page(organization, input.kind, input.conceptKind, input.parent, input.slug, None, None);
    var created := AddPage(s, ids.page, ids.revision, page, input.content, input.resolved).value;
    AddPageGrows(s, ids.page, ids.revision, page, input.content, input.resolved);
    if input.initial.Some? {
      var child := Page(organization, Scenario, None, Some(ids.page), input.initial.value.slug, None, None);
      AddPageAdds(s, ids.page, ids.revision, page, input.content, input.resolved);
      AddPageGrows(created, ids.childPage, ids.childRevision, child, input.initial.value.content, input.initial.value.resolved);
      GrownTwice(s, created, CreatePage(s, organization, input, ids).value);
    }
  }

  lemma ApplyOperationGrows(a: C.Applied, organization: string, op: C.Operation, ids: C.RowIDs)
    requires ids.page !in a.tables.pages && ids.revision !in a.tables.revisions
    requires C.ApplyOperation(a, organization, op, ids).Ok?
    ensures Grown(a.tables, C.ApplyOperation(a, organization, op, ids).value.tables)
  {
    hide C.ResolveReferences, ValidSlug, ValidParent, PageInputError, AddPage, Revise, Grown;
    var content := op.content.(references := C.ResolveReferences(a.created, op.content.references).value);
    if op.operation == C.CreateOperation {
      var page := Page(organization, op.kind, op.conceptKind, C.ResolveParent(a.created, op).value, op.slug, None, None);
      AddPageGrows(a.tables, ids.page, ids.revision, page, content, op.resolved);
    } else {
      ReviseGrows(a.tables, op.pageID.value, op.baseRevisionID.value, content, op.resolved, ids.revision);
    }
  }

  lemma {:induction false} ChangesGrow(s: Tables, organization: string, ops: seq<C.Operation>, n: nat, ids: seq<C.RowIDs>)
    requires n <= |ops| <= |ids| && Invariant(s) && C.FreshIDs(s, ids) && C.ApplyFirst(s, organization, ops, n, ids).Ok?
    ensures Grown(s, C.ApplyFirst(s, organization, ops, n, ids).value.tables)
  {
    hide C.ApplyOperation, Invariant;
    if n > 0 {
      hide Grown;
      P.ChangesKeepInvariant(s, organization, ops, n - 1, ids);
      ChangesGrow(s, organization, ops, n - 1, ids);
      var before := C.ApplyFirst(s, organization, ops, n - 1, ids).value;
      ApplyOperationGrows(before, organization, ops[n - 1], ids[n - 1]);
      GrownTwice(s, before.tables, C.ApplyFirst(s, organization, ops, n, ids).value.tables);
    }
  }

  lemma CommitGrows(s: Tables, tx: Transaction)
    requires Invariant(s)
    ensures Grown(s, Commit(s, tx))
  {
    hide Invariant, CreatePage, Revise, ApproveRevision, Unused, C.FreshIDs, C.ValidShape, C.ApplyFirst, TrimSpace;
    if Possible(s, tx) && Outcome(s, tx).Ok? {
      match tx
      case CreateTx(org, input, ids) => hide Grown; CreatePageGrows(s, org, input, ids);
      case SaveTx(org, p, base, content, resolved, r) => hide Grown; ReviseGrows(s, p, base, content, resolved, r);
      case ApproveTx(org, r) =>
        hide Grown;
        var chains := SomeChains(s);
        ApproveGrows(s, chains, org, r);
      case ChangesTx(org, clarification, ops, ids) =>
        if TrimSpace(clarification) == "" {
          ChangesGrow(s, org, ops, |ops|, ids);
        }
      case _ =>
    }
  }

  lemma SomeChains(s: Tables) returns (chains: Chains)
    requires Invariant(s)
    ensures WellKept(s, chains)
  {
    hide WellKept;
    chains :| WellKept(s, chains);
  }

  /** Nothing is ever undone, over any run. */
  lemma {:induction false} RunGrows(s: Tables, txs: seq<Transaction>)
    requires Invariant(s)
    ensures Grown(s, Run(s, txs))
    decreases |txs|
  {
    hide Invariant, Commit;
    if txs != [] {
      hide Grown;
      var next := Commit(s, txs[0]);
      CommitKeepsInvariant(s, txs[0]);
      CommitGrows(s, txs[0]);
      RunGrows(next, txs[1..]);
      GrownTwice(s, next, Run(next, txs[1..]));
    }
  }

  // ---------------------------------------------------------------- one save per base

  /** Once a page has a revision based on `base`, `base` is not its current revision. */
  lemma BasedOnIsNotCurrent(s: Tables, chains: Chains, p: string, base: string, r: string)
    requires WellKept(s, chains) && p in s.pages && r in s.revisions && s.revisions[r].page == p && s.revisions[r].base == Some(base)
    ensures Current(s.pages[p]) != Some(base)
  {
    hide AllFit, Parented, Developing, SlugsUnique;
    assert PagePointed(s, chains, p);
    assert InChain(s, chains, r);
    var n := s.revisions[r].number - 1;
    assert IsLink(s, chains, p, n) && IsLink(s, chains, p, n - 1);
    assert IsLink(s, chains, p, |chains[p]| - 1);
  }

  /** Of two saves on the same base at most one succeeds, whatever is committed between them. */
  lemma OneSavePerBase(s: Tables, organization: string, p: string, base: string, content: Content, resolved: bool, r: string,
                       txs: seq<Transaction>, organization': string, content': Content, resolved': bool, r': string)
    requires Invariant(s) && r !in s.revisions && SaveRevision(s, organization, p, base, content, resolved, r).Ok?
    ensures var later := Run(SaveRevision(s, organization, p, base, content, resolved, r).value, txs);
            SaveRevision(later, organization', p, base, content', resolved', r').Err?
  {
    hide Invariant, Run, PageInputError;
    var saved := SaveRevision(s, organization, p, base, content, resolved, r).value;
    SaveKeepsInvariant(s, organization, p, base, content, resolved, r);
    RunKeepsInvariant(saved, txs);
    RunGrows(saved, txs);
    var later := Run(saved, txs);
    assert Lasts(saved.revisions[r], later.revisions[r]);
    var chains := SomeChains(later);
    hide WellKept;
    BasedOnIsNotCurrent(later, chains, p, base, r);
  }

  // ---------------------------------------------------------------- review states predict approval

  lemma DraftFacts(s: Tables, chains: Chains, p: string)
    requires WellKept(s, chains) && p in s.pages && s.pages[p].draft.Some?
    ensures var d := s.pages[p].draft.value; d in s.revisions && s.revisions[d].page == p && d !in s.developments
    ensures PageParented(s, s.pages[p])
  {
    hide AllFit, SlugsUnique;
    DraftIsOwn(s, chains, p);
    assert RevisionPointed(s, s.pages[p].draft.value);
  }

  predicate Approvable(s: Tables, p: string)
    requires p in s.pages
  {
    (s.pages[p].kind == Scenario ==> ParentApproved(s, s.pages[p])) && !OpenObjection(s, p)
  }

  lemma ReadyIff(s: Tables, organization: string, p: string)
    requires IsPageOf(s, organization, p) && s.pages[p].draft.Some? && PageParented(s, s.pages[p])
    ensures var states := ReviewStates(s, organization, p);
            states.Some? && states.value != [] && states.value[|states.value| - 1] ==
              ReviewState(s.pages[p].draft.value, if Approvable(s, p) then ReviewReady else ReviewBlocked)
  {
    hide OpenObjection;
    var page := s.pages[p];
    if page.kind == Scenario {
      assert page.parent.Some? && IsPageOf(s, organization, page.parent.value);
    }
  }

  /** In every kept state the review state of a page's draft is ready exactly when approving that
      draft succeeds. */
  lemma ReviewPredictsApproval(s: Tables, organization: string, p: string)
    requires Invariant(s) && IsPageOf(s, organization, p) && organization !in s.managed && s.pages[p].draft.Some?
    ensures var d, states := s.pages[p].draft.value, ReviewStates(s, organization, p);
            && states.Some? && states.value != []
            && var state := states.value[|states.value| - 1];
               state.revision == d && (state.state == ReviewReady <==> ApproveRevision(s, organization, d).Ok?)
  {
    var chains := SomeChains(s);
    hide Invariant, WellKept, PageParented, Approvable, ApproveRevision, ReviewStates;
    DraftFacts(s, chains, p);
    ReadyIff(s, organization, p);
  }

  /** Two draft revisions of one page, or two approved ones. */
  predicate SameSlot(a: Revision, b: Revision) {
    a.page == b.page && a.status == b.status && a.status != Superseded
  }

  /** The revision lifecycle, read off the tables any run from an empty wiki leaves behind. */
  lemma LifecycleOverAllRuns(managed: set<string>, txs: seq<Transaction>)
    ensures var s := Run(EMPTY.(managed := managed), txs);
            && Invariant(s)
            && (forall a, b | a in s.revisions && b in s.revisions && SameSlot(s.revisions[a], s.revisions[b]) :: a == b)
            && (forall p :: p in s.pages && s.pages[p].kind == Scenario && s.pages[p].approved.Some? ==> ParentApproved(s, s.pages[p]))
            && (forall r :: r in s.developments <==> r in s.revisions && IsDeveloped(s, s.revisions[r]))
  {
    hide Run, Chained, AllFit, SlugsUnique;
    EmptyInvariant(managed);
    RunKeepsInvariant(EMPTY.(managed := managed), txs);
    var s := Run(EMPTY.(managed := managed), txs);
    var chains := SomeChains(s);
    forall a | a in s.revisions
      ensures RevisionPointed(s, a)
    {
    }
    forall p | p in s.pages
      ensures PageParented(s, s.pages[p])
    {
    }
  }
}
