/** Objections over runs of transactions: what an approval and a review state depend on, read off the
    rows themselves. */
module ObjectionRuns {
  import opened GoStrings
  import opened Options
  import opened PageStore
  import opened Lifecycle
  import opened LifecycleRuns
  import C = ChangeSets

  /** Every objection row of the page is resolved. */
  ghost predicate AllResolved(s: Tables, p: string) {
    forall o :: o in s.objections && s.objections[o].page == p ==> s.objections[o].resolved
  }

  /** A scenario's feature has an approved revision. */
  predicate FeatureApproved(s: Tables, p: string)
    requires p in s.pages
  {
    var page := s.pages[p];
    page.kind == Scenario ==> page.parent.Some? && page.parent.value in s.pages && s.pages[page.parent.value].approved.Some?
  }

  predicate IsDraftOf(s: Tables, organization: string, r: string) {
    && r in s.revisions && s.revisions[r].page in s.pages && s.pages[s.revisions[r].page].organization == organization
    && s.pages[s.revisions[r].page].draft == Some(r)
  }

  /** In every kept state an approval commits exactly when the revision is its page's draft, the feature
      of a scenario is approved and every objection of the page is resolved. */
  lemma ApprovalCommitsIff(s: Tables, organization: string, r: string)
    requires Invariant(s)
    ensures Outcome(s, ApproveTx(organization, r)).Ok? <==>
            && organization !in s.managed && IsDraftOf(s, organization, r)
            && FeatureApproved(s, s.revisions[r].page) && AllResolved(s, s.revisions[r].page)
  {
    hide Invariant, WellKept, PageParented, OpenObjection, AllResolved;
    var chains := SomeChains(s);
    if IsDraftOf(s, organization, r) {
      DraftFacts(s, chains, s.revisions[r].page);
      OpenIff(s, s.revisions[r].page);
    }
  }

  lemma OpenIff(s: Tables, p: string)
    ensures OpenObjection(s, p) <==> !AllResolved(s, p)
  {
  }

  /** What a committed approval leaves: the draft is the page's approved revision, the one approved before
      is superseded, a scenario is queued for development, and nothing else changes. */
  lemma ApprovalPublishes(s: Tables, organization: string, r: string)
    requires Invariant(s) && Outcome(s, ApproveTx(organization, r)).Ok?
    ensures var t, p := Commit(s, ApproveTx(organization, r)), s.revisions[r].page;
            && t.objections == s.objections && t.pages.Keys == s.pages.Keys && t.revisions.Keys == s.revisions.Keys
            && t.pages[p] == s.pages[p].(approved := Some(r), draft := None)
            && t.revisions[r] == s.revisions[r].(status := Approved, everApproved := true)
            && (forall q :: q in s.pages && q != p ==> t.pages[q] == s.pages[q])
            && (forall v :: v in s.revisions && v != r ==>
                  t.revisions[v] == if s.pages[p].approved == Some(v) then s.revisions[v].(status := Superseded) else s.revisions[v])
            && (if s.pages[p].kind == Scenario then r in t.developments && t.developments[r] == Queued && r !in s.developments
                else t.developments == s.developments)
            && forall v :: v in s.developments ==> v in t.developments && t.developments[v] == s.developments[v]
  {
    hide Invariant, WellKept, PageParented, AllResolved, FeatureApproved, ApproveRevision;
    var chains := SomeChains(s);
    ApprovalCommitsIff(s, organization, r);
    DraftFacts(s, chains, s.revisions[r].page);
    ApprovedIsNotDraft(s, chains, s.revisions[r].page, r);
    ApprovalEffect(s, organization, r);
  }

  lemma ApprovalEffect(s: Tables, organization: string, r: string)
    requires ApproveRevision(s, organization, r).Ok? && s.pages[s.revisions[r].page].approved != Some(r)
    requires var approved := s.pages[s.revisions[r].page].approved; approved.Some? ==> approved.value in s.revisions
    ensures var t, p := ApproveRevision(s, organization, r).value, s.revisions[r].page;
            && t.objections == s.objections && t.managed == s.managed
            && t.pages == s.pages[p := s.pages[p].(approved := Some(r), draft := None)]
            && t.revisions.Keys == s.revisions.Keys
            && t.revisions[r] == s.revisions[r].(status := Approved, everApproved := true)
            && (forall v :: v in s.revisions && v != r ==>
                  t.revisions[v] == if s.pages[p].approved == Some(v) then s.revisions[v].(status := Superseded) else s.revisions[v])
            && (if s.pages[p].kind == Scenario then r !in s.developments && t.developments == s.developments[r := Queued]
                else t.developments == s.developments)
  {
    hide ParentApproved, OpenObjection;
  }

  lemma ApprovedIsNotDraft(s: Tables, chains: Chains, p: string, r: string)
    requires WellKept(s, chains) && p in s.pages && r in s.revisions && s.revisions[r].page == p && s.pages[p].draft == Some(r)
    ensures s.pages[p].approved != Some(r)
    ensures s.pages[p].approved.Some? ==> s.pages[p].approved.value in s.revisions
  {
    hide Chained, AllFit, Parented, Developing, SlugsUnique;
    assert RevisionPointed(s, r);
    assert PagePointed(s, chains, p);
  }

  /** Over every run from an empty wiki. */
  lemma NothingApprovedOverObjections(managed: set<string>, txs: seq<Transaction>, organization: string, r: string)
    ensures var s := Run(EMPTY.(managed := managed), txs);
            Outcome(s, ApproveTx(organization, r)).Ok? ==> r in s.revisions && AllResolved(s, s.revisions[r].page)
  {
    hide Run, Invariant, AllResolved;
    EmptyInvariant(managed);
    RunKeepsInvariant(EMPTY.(managed := managed), txs);
    ApprovalCommitsIff(Run(EMPTY.(managed := managed), txs), organization, r);
  }

  // ---------------------------------------------------------------- objections only grow, and are resolved once

  predicate IsOpen(s: Tables, o: string, p: string) {
    o in s.objections && s.objections[o].page == p && !s.objections[o].resolved
  }

  ghost predicate Resolves(s: Tables, tx: Transaction, o: string) {
    tx.ResolveTx? && tx.objection == o && Outcome(s, tx).Ok?
  }

  /** A committed objection is open, on the page of its revision. */
  lemma ObjectionOpens(s: Tables, organization: string, r: string, reason: GoString, o: string)
    requires o !in s.objections
    ensures var tx := ObjectTx(organization, r, reason, o);
            && (Outcome(s, tx).Ok? <==> TrimSpace(reason) != "" && r in s.revisions && s.revisions[r].page in s.pages
                                        && s.pages[s.revisions[r].page].organization == organization)
            && (Outcome(s, tx).Ok? ==>
                  && IsOpen(Commit(s, tx), o, s.revisions[r].page) && Commit(s, tx).objections[o].revision == r
                  && Commit(s, tx) == s.(objections := Commit(s, tx).objections)
                  && Commit(s, tx).objections.Keys == s.objections.Keys + {o}
                  && forall x :: x in s.objections ==> Commit(s, tx).objections[x] == s.objections[x])
  {
    hide TrimSpace;
  }

  /** An objection is resolved exactly if it was open and its page belongs to the organization. */
  lemma ResolutionCloses(s: Tables, organization: string, o: string)
    ensures var tx := ResolveTx(organization, o);
            && (Outcome(s, tx).Ok? <==> o in s.objections && !s.objections[o].resolved && s.objections[o].page in s.pages
                                        && s.pages[s.objections[o].page].organization == organization)
            && (Outcome(s, tx).Ok? ==>
                  && Commit(s, tx) == s.(objections := s.objections[o := s.objections[o].(resolved := true)]))
  {
  }

  lemma {:induction false} ChangesKeepObjections(s: Tables, organization: string, ops: seq<C.Operation>, n: nat, ids: seq<C.RowIDs>)
    requires n <= |ops| <= |ids| && C.ApplyFirst(s, organization, ops, n, ids).Ok?
    ensures C.ApplyFirst(s, organization, ops, n, ids).value.tables.objections == s.objections
  {
    hide C.ApplyOperation;
    if n > 0 {
      ChangesKeepObjections(s, organization, ops, n - 1, ids);
      OperationKeepsObjections(C.ApplyFirst(s, organization, ops, n - 1, ids).value, organization, ops[n - 1], ids[n - 1]);
    }
  }

  lemma OperationKeepsObjections(a: C.Applied, organization: string, op: C.Operation, ids: C.RowIDs)
    requires C.ApplyOperation(a, organization, op, ids).Ok?
    ensures C.ApplyOperation(a, organization, op, ids).value.tables.objections == a.tables.objections
  {
    hide C.ResolveReferences, ValidSlug, ValidParent, PageInputError, NextNumber, ReferencesExist, SlugTaken, Trimmed;
  }

  lemma CreateKeepsObjections(s: Tables, organization: string, input: NewPage, ids: NewIDs)
    requires CreatePage(s, organization, input, ids).Ok?
    ensures CreatePage(s, organization, input, ids).value.objections == s.objections
  {
    hide CreatePageError, ValidParent, ReferencesExist, SlugTaken, Trimmed;
  }

  lemma SaveKeepsObjections(s: Tables, organization: string, p: string, base: string, content: Content, resolved: bool, r: string)
    requires SaveRevision(s, organization, p, base, content, resolved, r).Ok?
    ensures SaveRevision(s, organization, p, base, content, resolved, r).value.objections == s.objections
  {
    hide PageInputError, NextNumber, ReferencesExist, Trimmed;
  }

  /** No transaction removes an objection or changes what it is about, and only one that resolves it
      closes it. */
  lemma ObjectionStays(s: Tables, tx: Transaction, o: string)
    requires o in s.objections
    ensures var t := Commit(s, tx);
            && o in t.objections && t.objections[o].page == s.objections[o].page && t.objections[o].revision == s.objections[o].revision
            && (t.objections[o].resolved <==> s.objections[o].resolved || Resolves(s, tx, o))
  {
    hide CreatePage, SaveRevision, C.ApplyFirst, C.ValidShape, C.FreshIDs, Unused, TrimSpace, ParentApproved, OpenObjection;
    if Possible(s, tx) && Outcome(s, tx).Ok? {
      match tx
      case CreateTx(org, input, ids) => CreateKeepsObjections(s, org, input, ids);
      case SaveTx(org, p, base, content, resolved, r) => SaveKeepsObjections(s, org, p, base, content, resolved, r);
      case ChangesTx(org, clarification, ops, ids) =>
        if TrimSpace(clarification) == "" {
          ChangesKeepObjections(s, org, ops, |ops|, ids);
        }
      case _ =>
    }
  }

  /** Somewhere in the run the objection is resolved. */
  ghost predicate ResolvedIn(s: Tables, txs: seq<Transaction>, o: string)
    decreases |txs|
  {
    txs != [] && (Resolves(s, txs[0], o) || ResolvedIn(Commit(s, txs[0]), txs[1..], o))
  }

  lemma {:induction false} ObjectionOverRun(s: Tables, txs: seq<Transaction>, o: string)
    requires o in s.objections
    ensures var t := Run(s, txs);
            && o in t.objections && t.objections[o].page == s.objections[o].page
            && (t.objections[o].resolved <==> s.objections[o].resolved || ResolvedIn(s, txs, o))
    decreases |txs|
  {
    hide Commit, Resolves;
    if txs != [] {
      ObjectionStays(s, txs[0], o);
      ObjectionOverRun(Commit(s, txs[0]), txs[1..], o);
    }
  }

  /** After a committed objection every approval of the page fails, whatever runs in between, until that
      objection is resolved. */
  lemma ObjectionBlocksApproval(s: Tables, organization: string, r: string, reason: GoString, o: string, txs: seq<Transaction>,
                                approver: string, draft: string)
    requires Invariant(s) && o !in s.objections && Outcome(s, ObjectTx(organization, r, reason, o)).Ok?
    requires !ResolvedIn(Commit(s, ObjectTx(organization, r, reason, o)), txs, o)
    ensures var later := Run(Commit(s, ObjectTx(organization, r, reason, o)), txs);
            draft in later.revisions && later.revisions[draft].page == s.revisions[r].page ==>
              Outcome(later, ApproveTx(approver, draft)).Err?
  {
    hide Run, Invariant, Commit, Outcome, ResolvedIn;
    var objected := Commit(s, ObjectTx(organization, r, reason, o));
    ObjectionOpens(s, organization, r, reason, o);
    CommitKeepsInvariant(s, ObjectTx(organization, r, reason, o));
    ObjectionOverRun(objected, txs, o);
    RunKeepsInvariant(objected, txs);
    ApprovalCommitsIff(Run(objected, txs), approver, draft);
  }

  // ---------------------------------------------------------------- review states

  /** The review states of a page: its approved revision, and its draft, which is ready exactly when the
      feature of a scenario is approved and every objection of the page is resolved. */
  lemma ReviewReadsObjections(s: Tables, organization: string, p: string)
    requires Invariant(s) && IsPageOf(s, organization, p)
    ensures var page, states := s.pages[p], ReviewStates(s, organization, p);
            states == Some(
              (if page.approved.Some? then [ReviewState(page.approved.value, ReviewApproved)] else [])
              + if page.draft.None? then []
                else [ReviewState(page.draft.value, if FeatureApproved(s, p) && AllResolved(s, p) then ReviewReady else ReviewBlocked)])
  {
    hide Invariant, Chained, Pointed, AllFit, Developing, SlugsUnique, OpenObjection, AllResolved;
    var chains := SomeChains(s);
    assert PageParented(s, s.pages[p]);
    OpenIff(s, p);
    var page := s.pages[p];
    var approved := if page.approved.Some? then [ReviewState(page.approved.value, ReviewApproved)] else [];
    assert approved + [] == approved;
  }
}
