/** The repository in its own form: tables updated in order inside a transaction that commits as a
    whole or changes nothing. */
module WikiRepository {
  import opened GoStrings
  import opened Options
  import opened BddSteps
  import S = PageStore
  import opened PageStore
  import opened Lifecycle
  import C = ChangeSets
  import P = ChangeSetProofs
  import R = LifecycleRuns

  /** `governance.CanApprove` over whether each objection is resolved. */
  method CanApprove(resolved: seq<bool>) returns (ok: bool)
    ensures ok <==> forall i :: 0 <= i < |resolved| ==> resolved[i]
  {
    for i := 0 to |resolved|
      invariant forall j :: 0 <= j < i ==> resolved[j]
    {
      if !resolved[i] {
        return false;
      }
    }
    return true;
  }

  method CheckCreateInput(input: NewPage) returns (error: Option<Error>)
    ensures error == CreatePageError(input)
  {
    hide PageInputError, ValidSlug;
    if !ValidSlug(input.slug) {
      return Some(InvalidSlug);
    }
    error := P.ValidatePageInput(input.kind, input.conceptKind, input.parent, input.content);
    if error.Some? {
      return;
    }
    if input.initial.Some? {
      if input.kind != Feature {
        return Some(InvalidContent);
      }
      if !ValidSlug(input.initial.value.slug) {
        return Some(InvalidSlug);
      }
      error := P.ValidatePageInput(Scenario, None, Some("pending-feature"), input.initial.value.content);
    }
  }

  /** `insertRevision` and the draft pointer; each reference is looked up in turn. */
  method InsertRevision(tx: Tables, pageID: string, revisionID: string, revision: Revision, resolved: bool) returns (r: Result<Tables>)
    requires pageID in tx.pages
    ensures r == AddRevision(tx, pageID, revisionID, revision, resolved)
  {
    hide Trimmed;
    if !resolved {
      return Err(StepsRejected);
    }
    var references := revision.content.references;
    var organization := tx.pages[pageID].organization;
    for i := 0 to |references|
      invariant forall j :: 0 <= j < i ==>
                  references[j].targetPageID in tx.pages && tx.pages[references[j].targetPageID].organization == organization
    {
      var target := references[i].targetPageID;
      if target !in tx.pages || tx.pages[target].organization != organization {
        return Err(InvalidReference);
      }
    }
    var t := tx.(revisions := tx.revisions[revisionID := revision.(content := Trimmed(revision.content))]);
    return Ok(t.(pages := t.pages[pageID := t.pages[pageID].(draft := Some(revisionID))]));
  }

  method InsertPage(tx: Tables, pageID: string, revisionID: string, page: Page, content: Content, resolved: bool) returns (r: Result<Tables>)
    ensures r == AddPage(tx, pageID, revisionID, page, content, resolved)
  {
    hide AddRevision;
    if SlugTaken(tx, page.organization, page.slug) {
      return Err(DuplicateSlug);
    }
    var t := tx.(pages := tx.pages[pageID := page]);
    r := InsertRevision(t, pageID, revisionID, Revision(pageID, 1, Draft, None, content, false), resolved);
  }

  /** `max(number)` over the page's revisions. */
  method MaxNumber(tx: Tables, pageID: string) returns (n: nat)
    ensures n + 1 == NextNumber(tx, pageID)
  {
    n := 0;
    var rest := tx.revisions.Keys;
    while rest != {}
      invariant rest <= tx.revisions.Keys
      invariant forall r :: r in tx.revisions && r !in rest && tx.revisions[r].page == pageID ==> tx.revisions[r].number <= n
      invariant n > 0 ==> exists r :: r in tx.revisions && tx.revisions[r].page == pageID && tx.revisions[r].number == n
      decreases rest
    {
      var r :| r in rest;
      rest := rest - {r};
      if tx.revisions[r].page == pageID && tx.revisions[r].number > n {
        n := tx.revisions[r].number;
      }
    }
    assert IsMaxNumber(tx, pageID, n);
  }

  method ReviseRow(tx: Tables, pageID: string, base: string, content: Content, resolved: bool, revisionID: string) returns (r: Result<Tables>)
    requires pageID in tx.pages
    ensures r == Revise(tx, pageID, base, content, resolved, revisionID)
  {
    hide PageInputError, NextNumber, AddRevision;
    var page := tx.pages[pageID];
    if Current(page) != Some(base) {
      return Err(Conflict);
    }
    var error := P.ValidatePageInput(page.kind, page.conceptKind, page.parent, content);
    if error.Some? {
      return Err(error.value);
    }
    var max := MaxNumber(tx, pageID);
    var t := tx;
    if page.draft.Some? && page.draft.value in t.revisions && t.revisions[page.draft.value].status == Draft {
      t := t.(revisions := t.revisions[page.draft.value := t.revisions[page.draft.value].(status := Superseded)]);
    }
    r := InsertRevision(t, pageID, revisionID, Revision(pageID, max + 1, Draft, Some(base), content, false), resolved);
  }

  /** The rows `ApproveRevision` reads: one unresolved state per open objection of the page. */
  method OpenObjectionsOf(tx: Tables, pageID: string) returns (resolved: seq<bool>)
    ensures OpenObjection(tx, pageID) <==> exists i :: 0 <= i < |resolved| && !resolved[i]
  {
    resolved := [];
    var rest := tx.objections.Keys;
    while rest != {}
      invariant rest <= tx.objections.Keys
      invariant (exists i :: 0 <= i < |resolved| && !resolved[i]) <==>
                exists o :: o in tx.objections && o !in rest && tx.objections[o].page == pageID && !tx.objections[o].resolved
      decreases rest
    {
      var o :| o in rest;
      rest := rest - {o};
      if tx.objections[o].page == pageID && !tx.objections[o].resolved {
        resolved := resolved + [false];
        assert !resolved[|resolved| - 1];
      }
    }
  }

  lemma AddPageKeepsManaged(s: Tables, p: string, r: string, page: Page, content: Content, resolved: bool)
    requires AddPage(s, p, r, page, content, resolved).Ok?
    ensures AddPage(s, p, r, page, content, resolved).value.managed == s.managed
  {
    hide ReferencesExist, Trimmed, SlugTaken;
  }

  lemma ReviseKeepsManaged(s: Tables, p: string, base: string, content: Content, resolved: bool, r: string)
    requires p in s.pages && Revise(s, p, base, content, resolved, r).Ok?
    ensures Revise(s, p, base, content, resolved, r).value.managed == s.managed
  {
    hide ReferencesExist, Trimmed, PageInputError, NextNumber;
  }

  lemma ApplyKeepsManaged(a: C.Applied, organization: string, op: C.Operation, ids: C.RowIDs)
    requires C.ApplyOperation(a, organization, op, ids).Ok?
    ensures C.ApplyOperation(a, organization, op, ids).value.tables.managed == a.tables.managed
  {
    hide C.ResolveReferences, ValidSlug, ValidParent, PageInputError, AddPage, Revise;
    var content := op.content.(references := C.ResolveReferences(a.created, op.content.references).value);
    if op.operation == C.CreateOperation {
      var page := Page(organization, op.kind, op.conceptKind, C.ResolveParent(a.created, op).value, op.slug, None, None);
      AddPageKeepsManaged(a.tables, ids.page, ids.revision, page, content, op.resolved);
    } else {
      ReviseKeepsManaged(a.tables, op.pageID.value, op.baseRevisionID.value, content, op.resolved, ids.revision);
    }
  }

  /** One operation of a change set. */
  method ApplyOneOperation(a: C.Applied, organization: string, op: C.Operation, ids: C.RowIDs) returns (r: Result<C.Applied>)
    ensures r == C.ApplyOperation(a, organization, op, ids)
  {
    hide PageInputError, AddPage, Revise, ValidSlug, ValidParent, C.ResolveReferences;
    var parent := C.ResolveParent(a.created, op);
    if parent.Err? {
      return Err(parent.error);
    }
    var references := C.ResolveReferences(a.created, op.content.references);
    if references.Err? {
      return Err(references.error);
    }
    var content := op.content.(references := references.value);
    match op.operation {
      case CreateOperation =>
        if !ValidSlug(op.slug) {
          return Err(InvalidSlug);
        }
        var error := P.ValidatePageInput(op.kind, op.conceptKind, parent.value, content);
        if error.Some? {
          return Err(error.value);
        }
        if !ValidParent(a.tables, organization, op.kind, parent.value) {
          return Err(InvalidHierarchy);
        }
        var page := Page(organization, op.kind, op.conceptKind, parent.value, op.slug, None, None);
        var inserted := InsertPage(a.tables, ids.page, ids.revision, page, content, op.resolved);
        if inserted.Err? {
          return Err(inserted.error);
        }
        var created := a.created;
        if op.clientKey != "" {
          created := created[op.clientKey := ids.page];
        }
        return Ok(C.Applied(inserted.value, created, a.revisions + [ids.revision]));
      case ReviseOperation =>
        if op.pageID.None? || op.baseRevisionID.None? {
          return Err(InvalidChangeSet);
        }
        if !IsPageOf(a.tables, organization, op.pageID.value) {
          return Err(NotFound);
        }
        var page := a.tables.pages[op.pageID.value];
        if op.kind != page.kind || op.slug != page.slug || op.conceptKind != page.conceptKind || parent.value != page.parent {
          return Err(MetadataMismatch);
        }
        var revised := ReviseRow(a.tables, op.pageID.value, op.baseRevisionID.value, content, op.resolved, ids.revision);
        if revised.Err? {
          return Err(revised.error);
        }
        return Ok(C.Applied(revised.value, a.created, a.revisions + [ids.revision]));
      case OtherOperation =>
        return Err(InvalidChangeSet);
    }
  }

  class Repository {
    var managed: set<string>
    var pages: map<string, Page>
    var revisions: map<string, Revision>
    var objections: map<string, Objection>
    var developments: map<string, DevelopmentStatus>

    ghost function Abs(): Tables
      reads this
    {
      Tables(managed, pages, revisions, objections, developments)
    }

    ghost predicate Valid()
      reads this
    {
      Invariant(Abs())
    }

    constructor (managed: set<string>)
      ensures Valid() && Abs() == R.EMPTY.(managed := managed)
    {
      this.managed := managed;
      pages, revisions, objections, developments := map[], map[], map[], map[];
      new;
      R.EmptyInvariant(managed);
    }

    method Begin() returns (tx: Tables)
      ensures tx == Abs()
    {
      tx := Tables(managed, pages, revisions, objections, developments);
    }

    method Commit(tx: Tables)
      requires tx.managed == managed
      modifies this
      ensures Abs() == tx
    {
      pages, revisions, objections, developments := tx.pages, tx.revisions, tx.objections, tx.developments;
    }

    method CreatePage(organization: string, input: NewPage, ids: NewIDs) returns (r: Result<string>)
      requires Valid() && Unused(Abs(), ids)
      modifies this
      ensures Valid()
      ensures var outcome := S.CreatePage(old(Abs()), organization, input, ids);
              if outcome.Ok? then r == Ok(ids.page) && Abs() == outcome.value
              else r == Err(outcome.error) && Abs() == old(Abs())
    {
      hide Invariant, ValidSlug, PageInputError, SlugTaken, ReferencesExist, Trimmed, ValidParent;
      ghost var before := Abs();
      if organization in managed {
        return Err(ReadOnly);
      }
      var error := CheckCreateInput(input);
      if error.Some? {
        return Err(error.value);
      }
      var tx := Begin();
      if !ValidParent(tx, organization, input.kind, input.parent) {
        return Err(InvalidHierarchy);
      }
      var page := Page(organization, input.kind, input.conceptKind, input.parent, input.slug, None, None);
      var created := InsertPage(tx, ids.page, ids.revision, page, input.content, input.resolved);
      if created.Err? {
        return Err(created.error);
      }
      AddPageKeepsManaged(tx, ids.page, ids.revision, page, input.content, input.resolved);
      tx := created.value;
      if input.initial.Some? {
        var child := Page(organization, Scenario, None, Some(ids.page), input.initial.value.slug, None, None);
        created := InsertPage(tx, ids.childPage, ids.childRevision, child, input.initial.value.content, input.initial.value.resolved);
        if created.Err? {
          return Err(created.error);
        }
        AddPageKeepsManaged(tx, ids.childPage, ids.childRevision, child, input.initial.value.content, input.initial.value.resolved);
        tx := created.value;
      }
      assert S.CreatePage(before, organization, input, ids) == Ok(tx);
      CreatePageKeepsInvariant(before, organization, input, ids);
      Commit(tx);
      return Ok(ids.page);
    }

    method SaveRevision(organization: string, pageID: string, base: string, content: Content, resolved: bool, revisionID: string) returns (r: Result<string>)
      requires Valid() && revisionID !in revisions
      modifies this
      ensures Valid()
      ensures var outcome := S.SaveRevision(old(Abs()), organization, pageID, base, content, resolved, revisionID);
              if outcome.Ok? then r == Ok(revisionID) && Abs() == outcome.value
              else r == Err(outcome.error) && Abs() == old(Abs())
    {
      hide Invariant, PageInputError, ReferencesExist, Trimmed;
      ghost var before := Abs();
      if organization in managed {
        return Err(ReadOnly);
      }
      var tx := Begin();
      if !IsPageOf(tx, organization, pageID) {
        return Err(NotFound);
      }
      var saved := ReviseRow(tx, pageID, base, content, resolved, revisionID);
      if saved.Err? {
        return Err(saved.error);
      }
      SaveKeepsInvariant(before, organization, pageID, base, content, resolved, revisionID);
      ReviseKeepsManaged(before, pageID, base, content, resolved, revisionID);
      hide Revise;
      Commit(saved.value);
      return Ok(revisionID);
    }

    method ApproveRevision(organization: string, revisionID: string) returns (r: Result<string>)
      requires Valid()
      modifies this
      ensures Valid()
      ensures var outcome := S.ApproveRevision(old(Abs()), organization, revisionID);
              if outcome.Ok? then r == Ok(revisionID) && Abs() == outcome.value
              else r == Err(outcome.error) && Abs() == old(Abs())
    {
      hide Invariant, ParentApproved;
      ghost var before := Abs();
      if organization in managed {
        return Err(ReadOnly);
      }
      var tx := Begin();
      if revisionID !in tx.revisions || !IsPageOf(tx, organization, tx.revisions[revisionID].page) {
        return Err(NotFound);
      }
      var pageID := tx.revisions[revisionID].page;
      var page := tx.pages[pageID];
      if page.draft != Some(revisionID) {
        return Err(Conflict);
      }
      if page.kind == Scenario && !ParentApproved(tx, page) {
        return Err(ParentNotApproved);
      }
      var open := OpenObjectionsOf(tx, pageID);
      var ok := CanApprove(open);
      if !ok {
        return Err(UnresolvedObjection);
      }
      if page.approved.Some? && page.approved.value in tx.revisions {
        tx := tx.(revisions := tx.revisions[page.approved.value := tx.revisions[page.approved.value].(status := Superseded)]);
      }
      tx := tx.(revisions := tx.revisions[revisionID := tx.revisions[revisionID].(status := Approved, everApproved := true)]);
      tx := tx.(pages := tx.pages[pageID := page.(approved := Some(revisionID), draft := None)]);
      if page.kind == Scenario {
        if revisionID in tx.developments {
          return Err(DatabaseFailure);
        }
        tx := tx.(developments := tx.developments[revisionID := Queued]);
      }
      assert S.ApproveRevision(before, organization, revisionID) == Ok(tx);
      ApproveKeepsInvariant(before, organization, revisionID);
      Commit(tx);
      return Ok(revisionID);
    }

    method AddObjection(organization: string, revisionID: string, reason: GoString, objectionID: string) returns (r: Result<string>)
      requires Valid() && objectionID !in objections
      modifies this`objections
      ensures Valid()
      ensures var outcome := S.AddObjection(old(Abs()), organization, revisionID, reason, objectionID);
              if outcome.Ok? then r == Ok(objectionID) && Abs() == outcome.value
              else r == Err(outcome.error) && Abs() == old(Abs())
    {
      hide Invariant, TrimSpace;
      if TrimSpace(reason) == "" {
        return Err(InvalidContent);
      }
      var tx := Begin();
      if revisionID !in revisions || !IsPageOf(tx, organization, revisions[revisionID].page) {
        return Err(NotFound);
      }
      ghost var before := Abs();
      objections := objections[objectionID := Objection(revisions[revisionID].page, revisionID, false)];
      ObjectionsKeepInvariant(before, objections);
      return Ok(objectionID);
    }

    method ResolveObjection(organization: string, objectionID: string) returns (r: Result<string>)
      requires Valid()
      modifies this`objections
      ensures Valid()
      ensures var outcome := S.ResolveObjection(old(Abs()), organization, objectionID);
              if outcome.Ok? then r == Ok(objectionID) && Abs() == outcome.value
              else r == Err(outcome.error) && Abs() == old(Abs())
    {
      hide Invariant;
      var tx := Begin();
      if objectionID !in objections || !IsPageOf(tx, organization, objections[objectionID].page) || objections[objectionID].resolved {
        return Err(NotFound);
      }
      ghost var before := Abs();
      objections := objections[objectionID := objections[objectionID].(resolved := true)];
      ObjectionsKeepInvariant(before, objections);
      return Ok(objectionID);
    }

    method ApplyAIChangeSet(organization: string, clarification: GoString, ops: seq<C.Operation>, ids: seq<C.RowIDs>) returns (r: Result<seq<string>>)
      requires Valid() && |ops| <= |ids| && C.FreshIDs(Abs(), ids)
      modifies this
      ensures Valid()
      ensures var outcome := C.ApplyChangeSet(old(Abs()), organization, clarification, ops, ids);
              if outcome.Ok? then r == Ok(outcome.value.revisions) && Abs() == outcome.value.tables
              else r == Err(outcome.error) && Abs() == old(Abs())
    {
      hide Invariant, TrimSpace, C.ValidShape, C.ApplyOperation, C.FreshIDs;
      ghost var before := Abs();
      if organization in managed {
        return Err(ReadOnly);
      }
      if TrimSpace(clarification) != "" {
        return Ok([]);
      }
      if |ops| == 0 {
        return Err(InvalidChangeSet);
      }
      var ok := P.ValidateAssistantChangeSetShape(ops);
      if !ok {
        return Err(InvalidChangeSet);
      }
      var tx := Begin();
      var applied := C.Applied(tx, map[], []);
      for i := 0 to |ops|
        invariant C.ApplyFirst(tx, organization, ops, i, ids) == Ok(applied) && applied.tables.managed == managed
        invariant Abs() == before
      {
        var next := ApplyOneOperation(applied, organization, ops[i], ids[i]);
        if next.Err? {
          FailureIsFinal(tx, organization, ops, i + 1, |ops|, ids);
          return Err(next.error);
        }
        ApplyKeepsManaged(applied, organization, ops[i], ids[i]);
        applied := next.value;
      }
      P.ChangesKeepInvariant(before, organization, ops, |ops|, ids);
      Commit(applied.tables);
      return Ok(applied.revisions);
    }

    /** The review states of a page, its blockers collected row by row. */
    method ReviewStates(organization: string, pageID: string) returns (states: Option<seq<ReviewState>>)
      requires Valid() && pageID in pages
      ensures states == S.ReviewStates(Abs(), organization, pageID)
    {
      hide Invariant;
      var tx := Begin();
      var page := pages[pageID];
      var result: seq<ReviewState> := [];
      if page.approved.Some? {
        result := [ReviewState(page.approved.value, ReviewApproved)];
      }
      if page.draft.None? {
        return Some(result);
      }
      var blockers := 0;
      if page.kind == Scenario && page.parent.Some? {
        if !IsPageOf(tx, organization, page.parent.value) {
          return None;
        }
        if pages[page.parent.value].approved.None? {
          blockers := blockers + 1;
        }
      }
      var open := OpenObjectionsOf(tx, pageID);
      ghost var parentBlocks := blockers;
      for i := 0 to |open|
        invariant blockers >= parentBlocks
        invariant blockers > parentBlocks <==> exists j :: 0 <= j < i && !open[j]
      {
        if !open[i] {
          blockers := blockers + 1;
        }
      }
      return Some(result + [ReviewState(page.draft.value, if blockers > 0 then ReviewBlocked else ReviewReady)]);
    }
  }

  lemma FailureIsFinal(s: Tables, organization: string, ops: seq<C.Operation>, n: nat, m: nat, ids: seq<C.RowIDs>)
    requires n <= m <= |ops| <= |ids| && C.ApplyFirst(s, organization, ops, n, ids).Err?
    ensures C.ApplyFirst(s, organization, ops, m, ids) == C.ApplyFirst(s, organization, ops, n, ids)
  {
    hide C.ApplyOperation;
    if n < m {
      FailureIsFinal(s, organization, ops, n, m - 1, ids);
    }
  }
}
