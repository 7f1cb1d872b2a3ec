/** Change sets resolve their keys, leave no created feature without a scenario, and keep the
    lifecycle invariant. */
module ChangeSetProofs {
  import opened GoStrings
  import opened Options
  import opened BddSteps
  import opened PageStore
  import opened ChangeSets
  import L = Lifecycle

  // ---------------------------------------------------------------- the check as a loop

  method ValidateAssistantChangeSetShape(ops: seq<Operation>) returns (ok: bool)
    ensures ok <==> ValidShape(ops)
  {
    hide OperationFits, Extended, TrimSpace;
    var shape := NO_SHAPE;
    for index := 0 to |ops|
      invariant shape == ShapeOf(ops[..index])
      invariant forall i :: 0 <= i < index ==> OperationFits(ShapeOf(ops[..i]), ops[i])
    {
      var op := ops[index];
      assert ops[..index + 1][..index] == ops[..index];
      var fits := CheckOperation(shape, op);
      if !fits {
        return false;
      }
      shape := NoteOperation(shape, op);
    }
    assert ops[..|ops|] == ops;
    var features := shape.features;
    while features != {}
      invariant features <= shape.features && shape.features - features <= shape.covered
      decreases features
    {
      var f :| f in features;
      if f !in shape.covered {
        return false;
      }
      features := features - {f};
    }
    return true;
  }

  method NoteOperation(shape: Shape, op: Operation) returns (r: Shape)
    ensures r == Extended(shape, op)
  {
    r := shape;
    if op.clientKey != "" {
      r := r.(kinds := r.kinds[op.clientKey := op.kind]);
    }
    if op.operation == CreateOperation && op.kind == Feature {
      r := r.(features := r.features + {op.clientKey});
    }
    if op.operation == CreateOperation && op.kind == Scenario && op.parentClientKey != "" {
      r := r.(covered := r.covered + {op.parentClientKey});
    }
  }

  method CheckOperation(shape: Shape, op: Operation) returns (fits: bool)
    ensures fits <==> OperationFits(shape, op)
  {
    hide TrimSpace, WellFormed, ValidReference;
    match op.operation {
      case CreateOperation =>
        if op.pageID.Some? || op.baseRevisionID.Some? {
          return false;
        }
      case ReviseOperation =>
        if op.pageID.None? || op.baseRevisionID.None? {
          return false;
        }
      case OtherOperation =>
        return false;
    }
    var parent := op.parentID;
    if op.parentClientKey != "" {
      if !HasKind(shape.kinds, op.parentClientKey, Feature) {
        return false;
      }
      parent := Some(op.parentClientKey);
    }
    var error := ValidatePageInput(op.kind, op.conceptKind, parent, op.content);
    if error.Some? {
      return false;
    }
    if op.kind != Concept && op.content.references == [] {
      return false;
    }
    var references := op.content.references;
    for i := 0 to |references|
      invariant forall j :: 0 <= j < i ==> ValidReference(shape.kinds, references[j])
    {
      if !ValidReference(shape.kinds, references[i]) {
        return false;
      }
    }
    if op.clientKey != "" && op.clientKey in shape.kinds {
      return false;
    }
    if op.operation == CreateOperation && op.kind == Feature && op.clientKey == "" {
      return false;
    }
    return true;
  }

  method ValidatePageInput(kind: PageKind, conceptKind: Option<ConceptKind>, parent: Option<string>, content: Content) returns (error: Option<Error>)
    ensures error == PageInputError(kind, conceptKind, parent, content)
  {
    hide TrimSpace, WellFormed;
    if TrimSpace(content.title) == "" {
      return Some(InvalidContent);
    }
    match kind {
      case Concept =>
        if conceptKind.None? || (conceptKind.value != Noun && conceptKind.value != Verb) || parent.Some? {
          return Some(InvalidHierarchy);
        }
        if |content.steps| != 0 {
          return Some(InvalidContent);
        }
      case Feature =>
        if conceptKind.Some? || parent.Some? || |content.steps| != 0 {
          return Some(InvalidHierarchy);
        }
      case Scenario =>
        if conceptKind.Some? || parent.None? {
          return Some(InvalidHierarchy);
        }
        var stepError := ValidateBDDSteps(content.steps);
        if stepError.Some? {
          return Some(InvalidContent);
        }
      case OtherKind =>
        return Some(InvalidContent);
    }
    return None;
  }

  // ---------------------------------------------------------------- key resolution

  /** An earlier operation that revises a page carries the key. */
  predicate RevisedKey(ops: seq<Operation>, m: nat, key: string) {
    exists k :: 0 <= k < m && k < |ops| && ops[k].clientKey == key && ops[k].operation == ReviseOperation
  }

  predicate NeedsKey(reference: Reference) {
    reference.targetPageID == "" && reference.targetClientKey != ""
  }

  /** The operation needs a key that stands for a revised page, to find its parent or a reference. */
  predicate NeedsRevisedKey(ops: seq<Operation>, m: nat)
    requires m < |ops|
  {
    var op := ops[m];
    || (op.parentID.None? && op.parentClientKey != "" && RevisedKey(ops, m, op.parentClientKey))
    || exists i :: 0 <= i < |op.content.references| && NeedsKey(op.content.references[i])
                   && RevisedKey(ops, m, op.content.references[i].targetClientKey)
  }

  lemma {:induction false} ReferencesResolveIff(created: map<string, string>, references: seq<Reference>)
    ensures ResolveReferences(created, references).Ok? <==>
            forall i :: 0 <= i < |references| && NeedsKey(references[i]) ==> references[i].targetClientKey in created
    ensures ResolveReferences(created, references).Err? ==> ResolveReferences(created, references) == Err(UnknownClientKey)
  {
    if references != [] {
      ReferencesResolveIff(created, references[1..]);
      assert references == [references[0]] + references[1..];
    }
  }

  /** In a set of valid shape every key an operation needs is carried by an earlier one. */
  lemma NeededKeyIsKnown(ops: seq<Operation>, m: nat, reference: Reference)
    requires AllFit(ops) && m < |ops| && reference in ops[m].content.references && NeedsKey(reference)
    ensures reference.targetClientKey in ShapeOf(ops[..m]).kinds
  {
    hide PageInputError, ShapeOf;
    assert OperationFits(ShapeOf(ops[..m]), ops[m]);
    assert TrimSpace("") == "";
    hide TrimSpace;
  }

  /** A key is known to the transaction unless the operation that carries it revises a page. */
  lemma KeyIsCreatedIff(s: Tables, organization: string, ops: seq<Operation>, m: nat, ids: seq<RowIDs>, key: string)
    requires m <= |ops| <= |ids| && AllFit(ops) && ApplyFirst(s, organization, ops, m, ids).Ok?
    requires key in ShapeOf(ops[..m]).kinds
    ensures key in ApplyFirst(s, organization, ops, m, ids).value.created <==> !RevisedKey(ops, m, key)
  {
    hide AllFit, ApplyFirst, OperationFits, Extended;
    var k := KindsComeFromOperations(ops, m, key);
    OperationIsKnown(ops, k);
    if ops[k].operation == CreateOperation {
      CreatedPageOfKey(s, organization, ops, m, ids, k);
    }
    if key in ApplyFirst(s, organization, ops, m, ids).value.created {
      var c := CreatedComesFrom(s, organization, ops, m, ids, key);
      KeysAreDistinct(ops, c, k);
    }
    if RevisedKey(ops, m, key) {
      var r :| 0 <= r < m && r < |ops| && ops[r].clientKey == key && ops[r].operation == ReviseOperation;
      KeysAreDistinct(ops, r, k);
    }
  }

  lemma OperationIsKnown(ops: seq<Operation>, k: nat)
    requires AllFit(ops) && k < |ops|
    ensures ops[k].operation == CreateOperation || ops[k].operation == ReviseOperation
  {
    hide PageInputError, ShapeOf, ValidReference;
    assert OperationFits(ShapeOf(ops[..k]), ops[k]);
  }

  lemma ParentKeyIsKnown(ops: seq<Operation>, m: nat)
    requires AllFit(ops) && m < |ops| && ops[m].parentClientKey != ""
    ensures ops[m].parentClientKey in ShapeOf(ops[..m]).kinds
  {
    hide PageInputError, ShapeOf, ValidReference;
    assert OperationFits(ShapeOf(ops[..m]), ops[m]);
  }

  lemma OperationResolvesIff(s: Tables, organization: string, ops: seq<Operation>, m: nat, ids: seq<RowIDs>)
    requires m < |ops| <= |ids| && AllFit(ops) && ApplyFirst(s, organization, ops, m, ids).Ok?
    ensures var created := ApplyFirst(s, organization, ops, m, ids).value.created;
            ResolveParent(created, ops[m]).Ok? && ResolveReferences(created, ops[m].content.references).Ok? <==> !NeedsRevisedKey(ops, m)
  {
    hide AllFit, ApplyFirst, RevisedKey, ShapeOf, ResolveReferences;
    var op, created := ops[m], ApplyFirst(s, organization, ops, m, ids).value.created;
    ReferencesResolveIff(created, op.content.references);
    forall i | 0 <= i < |op.content.references| && NeedsKey(op.content.references[i])
      ensures op.content.references[i].targetClientKey in created <==> !RevisedKey(ops, m, op.content.references[i].targetClientKey)
    {
      NeededKeyIsKnown(ops, m, op.content.references[i]);
      KeyIsCreatedIff(s, organization, ops, m, ids, op.content.references[i].targetClientKey);
    }
    if op.parentClientKey != "" {
      ParentKeyIsKnown(ops, m);
      KeyIsCreatedIff(s, organization, ops, m, ids, op.parentClientKey);
    }
  }

  lemma ApplyOperationKnowsKeysIff(a: Applied, organization: string, op: Operation, ids: RowIDs)
    ensures ApplyOperation(a, organization, op, ids) == Err(UnknownClientKey) <==>
            !(ResolveParent(a.created, op).Ok? && ResolveReferences(a.created, op.content.references).Ok?)
  {
    ReferencesResolveIff(a.created, op.content.references);
    hide ResolveReferences, ValidSlug, ValidParent, TrimSpace, WellFormed, NextNumber, ReferencesExist, SlugTaken;
  }

  /** The transaction meets a key it does not know exactly when its operations succeed up to one that
      needs a key only a revision carries; with such an operation it never commits. */
  lemma {:induction false} KeyResolutionFailsIff(s: Tables, organization: string, ops: seq<Operation>, n: nat, ids: seq<RowIDs>)
    requires n <= |ops| <= |ids| && AllFit(ops)
    ensures ApplyFirst(s, organization, ops, n, ids) == Err(UnknownClientKey) <==>
            exists m :: 0 <= m < n && NeedsRevisedKey(ops, m) && ApplyFirst(s, organization, ops, m, ids).Ok?
    ensures (exists m :: 0 <= m < n && NeedsRevisedKey(ops, m)) ==> ApplyFirst(s, organization, ops, n, ids).Err?
  {
    hide ApplyOperation, AllFit, NeedsRevisedKey, ResolveParent, ResolveReferences;
    if n > 0 {
      KeyResolutionFailsIff(s, organization, ops, n - 1, ids);
      var before := ApplyFirst(s, organization, ops, n - 1, ids);
      if before.Ok? {
        OperationResolvesIff(s, organization, ops, n - 1, ids);
        ApplyOperationKnowsKeysIff(before.value, organization, ops[n - 1], ids[n - 1]);
      }
    }
  }

  // ---------------------------------------------------------------- the lifecycle invariant

  /** Old pages keep their identity, and at most the operation's own rows are new. */
  ghost predicate OnlyOwnRows(s: Tables, s': Tables, ids: RowIDs) {
    && s'.pages.Keys <= s.pages.Keys + {ids.page} && s'.revisions.Keys <= s.revisions.Keys + {ids.revision}
    && forall p :: p in s.pages ==> p in s'.pages && L.SamePage(s.pages[p], s'.pages[p])
  }

  lemma ReviseOnlyOwnRows(s: Tables, p: string, base: string, content: Content, resolved: bool, ids: RowIDs)
    requires p in s.pages && Revise(s, p, base, content, resolved, ids.revision).Ok?
    ensures OnlyOwnRows(s, Revise(s, p, base, content, resolved, ids.revision).value, ids)
  {
    hide PageInputError, NextNumber, ReferencesExist, TrimSpace;
  }

  lemma AddPageOnlyOwnRows(s: Tables, page: Page, content: Content, resolved: bool, ids: RowIDs)
    requires ids.page !in s.pages && AddPage(s, ids.page, ids.revision, page, content, resolved).Ok?
    ensures var s' := AddPage(s, ids.page, ids.revision, page, content, resolved).value;
            OnlyOwnRows(s, s', ids) && ids.page in s'.pages && L.SamePage(page, s'.pages[ids.page])
  {
    hide ReferencesExist, TrimSpace, SlugTaken;
  }

  lemma ApplyOperationOnlyOwnRows(a: Applied, organization: string, op: Operation, ids: RowIDs)
    requires ids.page !in a.tables.pages && ApplyOperation(a, organization, op, ids).Ok?
    ensures OnlyOwnRows(a.tables, ApplyOperation(a, organization, op, ids).value.tables, ids)
  {
    hide ResolveReferences, ValidSlug, ValidParent, PageInputError, AddPage, Revise, OnlyOwnRows;
    var content := op.content.(references := ResolveReferences(a.created, op.content.references).value);
    if op.operation == CreateOperation {
      var page := Page(organization, op.kind, op.conceptKind, ResolveParent(a.created, op).value, op.slug, None, None);
      AddPageOnlyOwnRows(a.tables, page, content, op.resolved, ids);
    } else {
      ReviseOnlyOwnRows(a.tables, op.pageID.value, op.baseRevisionID.value, content, op.resolved, ids);
    }
  }

  lemma ApplyOperationKeepsInvariant(a: Applied, organization: string, op: Operation, ids: RowIDs)
    requires L.Invariant(a.tables) && ids.page !in a.tables.pages && ids.revision !in a.tables.revisions
    requires ApplyOperation(a, organization, op, ids).Ok?
    ensures L.Invariant(ApplyOperation(a, organization, op, ids).value.tables)
  {
    hide L.WellKept, ResolveReferences, ValidSlug, ValidParent, PageInputError, AddPage, Revise;
    var chains :| L.WellKept(a.tables, chains);
    var parent := ResolveParent(a.created, op).value;
    var content := op.content.(references := ResolveReferences(a.created, op.content.references).value);
    if op.operation == CreateOperation {
      var page := Page(organization, op.kind, op.conceptKind, parent, op.slug, None, None);
      L.AddPageKeeps(a.tables, chains, ids.page, ids.revision, page, content, op.resolved);
    } else {
      L.ReviseKeeps(a.tables, chains, op.pageID.value, op.baseRevisionID.value, content, op.resolved, ids.revision);
    }
  }

  /** The rows still to be inserted are new after the first `n` operations, whose result keeps the
      lifecycle invariant. */
  lemma {:induction false} ChangesKeepInvariant(s: Tables, organization: string, ops: seq<Operation>, n: nat, ids: seq<RowIDs>)
    requires n <= |ops| <= |ids| && L.Invariant(s) && FreshIDs(s, ids) && ApplyFirst(s, organization, ops, n, ids).Ok?
    ensures var a := ApplyFirst(s, organization, ops, n, ids).value;
            && L.Invariant(a.tables)
            && forall i :: n <= i < |ids| ==> ids[i].page !in a.tables.pages && ids[i].revision !in a.tables.revisions
  {
    hide ApplyOperation, L.Invariant;
    if n > 0 {
      ChangesKeepInvariant(s, organization, ops, n - 1, ids);
      var before := ApplyFirst(s, organization, ops, n - 1, ids).value;
      ApplyOperationKeepsInvariant(before, organization, ops[n - 1], ids[n - 1]);
      ApplyOperationOnlyOwnRows(before, organization, ops[n - 1], ids[n - 1]);
    }
  }

  // ---------------------------------------------------------------- created features have scenarios

  ghost predicate CreatesKind(op: Operation, kind: PageKind) {
    op.operation == CreateOperation && op.kind == kind
  }

  /** Operation `j` creates a scenario page below the page created by operation `i`. */
  ghost predicate IsScenarioBelow(tables: Tables, ops: seq<Operation>, ids: seq<RowIDs>, i: nat, j: nat)
    requires i < |ids| && j < |ops| && j < |ids|
  {
    && i < j && CreatesKind(ops[j], Scenario) && ids[j].page in tables.pages
    && tables.pages[ids[j].page].kind == Scenario && tables.pages[ids[j].page].parent == Some(ids[i].page)
  }

  ghost predicate Covered(tables: Tables, ops: seq<Operation>, ids: seq<RowIDs>, i: nat)
    requires i < |ops| <= |ids|
  {
    exists j :: 0 <= j < |ops| && IsScenarioBelow(tables, ops, ids, i, j)
  }

  /** Every created feature has a scenario that was created below it later in the set. */
  ghost predicate Closed(tables: Tables, ops: seq<Operation>, ids: seq<RowIDs>)
    requires |ops| <= |ids|
  {
    forall i :: 0 <= i < |ops| && CreatesKind(ops[i], Feature) ==> Covered(tables, ops, ids, i)
  }

  /** Operation `j` names the feature of operation `i` as parent by its key, and gives no parent ID. */
  ghost predicate NamesByKeyAlone(ops: seq<Operation>, i: nat, j: nat)
    requires i < |ops| && j < |ops|
  {
    CreatesKind(ops[j], Scenario) && ops[j].parentID.None? && ops[j].parentClientKey == ops[i].clientKey
  }

  ghost predicate EveryFeatureNamed(ops: seq<Operation>) {
    forall i :: 0 <= i < |ops| && CreatesKind(ops[i], Feature) ==> exists j :: 0 <= j < |ops| && NamesByKeyAlone(ops, i, j)
  }

  /** The caller cannot know the ids of rows that are not inserted yet. */
  ghost predicate IDsUnknown(ops: seq<Operation>, ids: seq<RowIDs>) {
    forall i, j :: 0 <= i < |ops| && 0 <= j < |ids| ==> ops[i].parentID != Some(ids[j].page)
  }

  lemma {:induction false} KindsComeFromOperations(ops: seq<Operation>, n: nat, key: string) returns (i: nat)
    requires n <= |ops| && key in ShapeOf(ops[..n]).kinds
    ensures i < n && ops[i].clientKey == key != ""
  {
    assert n > 0;
    assert ops[..n][..n - 1] == ops[..n - 1];
    if ops[n - 1].clientKey == key && key != "" {
      return n - 1;
    }
    i := KindsComeFromOperations(ops, n - 1, key);
  }

  lemma {:induction false} OperationsGiveKinds(ops: seq<Operation>, n: nat, i: nat)
    requires i < n <= |ops| && ops[i].clientKey != ""
    ensures ops[i].clientKey in ShapeOf(ops[..n]).kinds
  {
    assert ops[..n][..n - 1] == ops[..n - 1];
    if i < n - 1 {
      OperationsGiveKinds(ops, n - 1, i);
    }
  }

  lemma LaterKeyDiffers(ops: seq<Operation>, i: nat, j: nat)
    requires AllFit(ops) && i < j < |ops| && ops[i].clientKey != ""
    ensures ops[j].clientKey != ops[i].clientKey
  {
    hide PageInputError, ShapeOf, ValidReference;
    OperationsGiveKinds(ops, j, i);
    assert OperationFits(ShapeOf(ops[..j]), ops[j]);
  }

  lemma KeysAreDistinct(ops: seq<Operation>, i: nat, j: nat)
    requires AllFit(ops) && i < |ops| && j < |ops| && ops[i].clientKey == ops[j].clientKey != ""
    ensures i == j
  {
    if i < j {
      LaterKeyDiffers(ops, i, j);
    } else if j < i {
      LaterKeyDiffers(ops, j, i);
    }
  }

  lemma ApplyOperationCreated(a: Applied, organization: string, op: Operation, ids: RowIDs)
    requires ApplyOperation(a, organization, op, ids).Ok? && op.operation == CreateOperation
    ensures ApplyOperation(a, organization, op, ids).value.created ==
            if op.clientKey != "" then a.created[op.clientKey := ids.page] else a.created
  {
    hide ResolveReferences, AddPage, PageInputError, ValidSlug, ValidParent;
  }

  lemma ApplyOperationRevised(a: Applied, organization: string, op: Operation, ids: RowIDs)
    requires ApplyOperation(a, organization, op, ids).Ok? && op.operation != CreateOperation
    ensures ApplyOperation(a, organization, op, ids).value.created == a.created
  {
    hide ResolveReferences, Revise, ValidSlug, ValidParent;
  }

  /** A key stands for the page its operation created. */
  lemma {:induction false} CreatedPageOfKey(s: Tables, organization: string, ops: seq<Operation>, n: nat, ids: seq<RowIDs>, i: nat)
    requires i < n <= |ops| <= |ids| && ApplyFirst(s, organization, ops, n, ids).Ok?
    requires AllFit(ops) && ops[i].operation == CreateOperation && ops[i].clientKey != ""
    ensures var created := ApplyFirst(s, organization, ops, n, ids).value.created;
            ops[i].clientKey in created && created[ops[i].clientKey] == ids[i].page
  {
    hide ApplyOperation, AllFit;
    var before, op := ApplyFirst(s, organization, ops, n - 1, ids).value, ops[n - 1];
    if i < n - 1 {
      CreatedPageOfKey(s, organization, ops, n - 1, ids, i);
      if op.clientKey == ops[i].clientKey {
        KeysAreDistinct(ops, i, n - 1);
      }
    }
    if op.operation == CreateOperation {
      ApplyOperationCreated(before, organization, op, ids[n - 1]);
    } else {
      ApplyOperationRevised(before, organization, op, ids[n - 1]);
    }
  }

  lemma {:induction false} CreatedComesFrom(s: Tables, organization: string, ops: seq<Operation>, n: nat, ids: seq<RowIDs>, key: string) returns (k: nat)
    requires n <= |ops| <= |ids| && ApplyFirst(s, organization, ops, n, ids).Ok?
    requires key in ApplyFirst(s, organization, ops, n, ids).value.created
    ensures k < n && ops[k].operation == CreateOperation && ops[k].clientKey == key != ""
    ensures ApplyFirst(s, organization, ops, n, ids).value.created[key] == ids[k].page
  {
    hide ApplyOperation;
    var before, op := ApplyFirst(s, organization, ops, n - 1, ids).value, ops[n - 1];
    if op.operation == CreateOperation {
      ApplyOperationCreated(before, organization, op, ids[n - 1]);
      if op.clientKey == key && key != "" {
        return n - 1;
      }
    } else {
      ApplyOperationRevised(before, organization, op, ids[n - 1]);
    }
    k := CreatedComesFrom(s, organization, ops, n - 1, ids, key);
  }

  lemma CreatedPageRow(a: Applied, organization: string, op: Operation, ids: RowIDs)
    requires ids.page !in a.tables.pages && ApplyOperation(a, organization, op, ids).Ok? && op.operation == CreateOperation
    ensures var pages := ApplyOperation(a, organization, op, ids).value.tables.pages;
            && ids.page in pages && pages[ids.page].kind == op.kind
            && ResolveParent(a.created, op) == Ok(pages[ids.page].parent)
  {
    hide ResolveReferences, AddPage, PageInputError, ValidSlug, ValidParent, OnlyOwnRows;
    var content := op.content.(references := ResolveReferences(a.created, op.content.references).value);
    var page := Page(organization, op.kind, op.conceptKind, ResolveParent(a.created, op).value, op.slug, None, None);
    AddPageOnlyOwnRows(a.tables, page, content, op.resolved, ids);
  }

  /** A created page keeps the kind and the parent it was created with. */
  lemma {:induction false} CreatedPageStays(s: Tables, organization: string, ops: seq<Operation>, n: nat, ids: seq<RowIDs>, j: nat)
    requires j < n <= |ops| <= |ids| && L.Invariant(s) && FreshIDs(s, ids)
    requires ApplyFirst(s, organization, ops, n, ids).Ok? && ops[j].operation == CreateOperation
    ensures var pages := ApplyFirst(s, organization, ops, n, ids).value.tables.pages;
            && ids[j].page in pages && pages[ids[j].page].kind == ops[j].kind
            && ApplyFirst(s, organization, ops, j, ids).Ok?
            && ResolveParent(ApplyFirst(s, organization, ops, j, ids).value.created, ops[j]) == Ok(pages[ids[j].page].parent)
  {
    hide ApplyOperation, L.Invariant, FreshIDs;
    ChangesKeepInvariant(s, organization, ops, n - 1, ids);
    var before := ApplyFirst(s, organization, ops, n - 1, ids).value;
    if j == n - 1 {
      CreatedPageRow(before, organization, ops[j], ids[j]);
    } else {
      CreatedPageStays(s, organization, ops, n - 1, ids, j);
      ApplyOperationOnlyOwnRows(before, organization, ops[n - 1], ids[n - 1]);
    }
  }

  /** A scenario that names a feature's key comes after the feature. */
  lemma NamedFeatureIsEarlier(ops: seq<Operation>, i: nat, j: nat)
    requires AllFit(ops) && i < |ops| && j < |ops| && CreatesKind(ops[i], Feature) && ops[j].parentClientKey == ops[i].clientKey
    ensures i < j && ops[i].clientKey != ""
  {
    hide PageInputError, ShapeOf, ValidReference;
    assert OperationFits(ShapeOf(ops[..i]), ops[i]);
    assert OperationFits(ShapeOf(ops[..j]), ops[j]);
    var k := KindsComeFromOperations(ops, j, ops[i].clientKey);
    KeysAreDistinct(ops, i, k);
  }

  lemma NamedIsBelow(s: Tables, organization: string, ops: seq<Operation>, ids: seq<RowIDs>, i: nat, j: nat)
    requires |ops| <= |ids| && L.Invariant(s) && FreshIDs(s, ids) && AllFit(ops)
    requires ApplyFirst(s, organization, ops, |ops|, ids).Ok?
    requires i < |ops| && j < |ops| && CreatesKind(ops[i], Feature) && NamesByKeyAlone(ops, i, j)
    ensures IsScenarioBelow(ApplyFirst(s, organization, ops, |ops|, ids).value.tables, ops, ids, i, j)
  {
    hide ApplyOperation, L.Invariant, FreshIDs, AllFit, ApplyFirst;
    NamedFeatureIsEarlier(ops, i, j);
    CreatedPageStays(s, organization, ops, |ops|, ids, j);
    CreatedPageOfKey(s, organization, ops, j, ids, i);
  }

  lemma BelowIsNamed(s: Tables, organization: string, ops: seq<Operation>, ids: seq<RowIDs>, i: nat, j: nat)
    requires |ops| <= |ids| && L.Invariant(s) && FreshIDs(s, ids) && AllFit(ops) && IDsUnknown(ops, ids)
    requires ApplyFirst(s, organization, ops, |ops|, ids).Ok?
    requires i < |ops| && j < |ops| && IsScenarioBelow(ApplyFirst(s, organization, ops, |ops|, ids).value.tables, ops, ids, i, j)
    ensures NamesByKeyAlone(ops, i, j)
  {
    hide ApplyOperation, L.Invariant, AllFit, ApplyFirst, ShapeOf;
    CreatedPageStays(s, organization, ops, |ops|, ids, j);
    var k := CreatedComesFrom(s, organization, ops, j, ids, ops[j].parentClientKey);
    assert ids[k].page == ids[i].page;
    assert k == i;
  }

  /** A committed change set is closed exactly when every created feature is named as parent, by its
      key alone, by some created scenario. */
  lemma ClosedIffEveryFeatureNamed(s: Tables, organization: string, ops: seq<Operation>, ids: seq<RowIDs>)
    requires |ops| <= |ids| && L.Invariant(s) && FreshIDs(s, ids) && AllFit(ops) && IDsUnknown(ops, ids)
    requires ApplyFirst(s, organization, ops, |ops|, ids).Ok?
    ensures Closed(ApplyFirst(s, organization, ops, |ops|, ids).value.tables, ops, ids) <==> EveryFeatureNamed(ops)
  {
    hide ApplyFirst, L.Invariant, FreshIDs, AllFit, IDsUnknown, IsScenarioBelow, NamesByKeyAlone;
    var tables := ApplyFirst(s, organization, ops, |ops|, ids).value.tables;
    forall i, j | 0 <= i < |ops| && 0 <= j < |ops| && CreatesKind(ops[i], Feature)
      ensures IsScenarioBelow(tables, ops, ids, i, j) <==> NamesByKeyAlone(ops, i, j)
    {
      if NamesByKeyAlone(ops, i, j) {
        NamedIsBelow(s, organization, ops, ids, i, j);
      }
      if IsScenarioBelow(tables, ops, ids, i, j) {
        BelowIsNamed(s, organization, ops, ids, i, j);
      }
    }
  }

  /** No operation gives a parent both by ID and by key. */
  ghost predicate OneParentEach(ops: seq<Operation>) {
    forall i :: 0 <= i < |ops| ==> ops[i].parentID.None? || ops[i].parentClientKey == ""
  }

  lemma {:induction false} CoverComesFromOperations(ops: seq<Operation>, n: nat, key: string) returns (j: nat)
    requires n <= |ops| && key in ShapeOf(ops[..n]).covered
    ensures j < n && CreatesKind(ops[j], Scenario) && ops[j].parentClientKey == key != ""
  {
    assert n > 0;
    assert ops[..n][..n - 1] == ops[..n - 1];
    if CreatesKind(ops[n - 1], Scenario) && ops[n - 1].parentClientKey == key != "" {
      return n - 1;
    }
    j := CoverComesFromOperations(ops, n - 1, key);
  }

  lemma {:induction false} FeatureIsNoted(ops: seq<Operation>, n: nat, i: nat)
    requires i < n <= |ops| && CreatesKind(ops[i], Feature)
    ensures ops[i].clientKey in ShapeOf(ops[..n]).features
  {
    assert ops[..n][..n - 1] == ops[..n - 1];
    if i < n - 1 {
      FeatureIsNoted(ops, n - 1, i);
    }
  }

  /** For sets that give each operation one parent the shape check is enough. */
  lemma ValidShapeNamesEveryFeature(ops: seq<Operation>)
    requires ValidShape(ops) && OneParentEach(ops)
    ensures EveryFeatureNamed(ops)
  {
    hide AllFit, ShapeOf;
    assert ops[..|ops|] == ops;
    forall i | 0 <= i < |ops| && CreatesKind(ops[i], Feature)
      ensures exists j :: 0 <= j < |ops| && NamesByKeyAlone(ops, i, j)
    {
      FeatureIsNoted(ops, |ops|, i);
      var j := CoverComesFromOperations(ops, |ops|, ops[i].clientKey);
      assert NamesByKeyAlone(ops, i, j);
    }
  }

  // ---------------------------------------------------------------- why one parent each is needed

  const THREE_STEPS := [Step(Given, "", "", "a"), Step(When, "", "", "b"), Step(Then, "", "", "c")]

  const TO_CONCEPT := [Reference("c", "", "c", "u")]

  const NEW_FEATURE := Operation(
    CreateOperation, "f", None, None, Feature, None, None, "", "f", Content("F", "", [], TO_CONCEPT), true)

  /** Names the new feature by key but also gives another feature's ID. */
  const NEW_SCENARIO := Operation(
    CreateOperation, "", None, None, Scenario, None, Some("old"), "f", "s", Content("S", "", THREE_STEPS, TO_CONCEPT), true)

  const TWO_PARENTS := [NEW_FEATURE, NEW_SCENARIO]

  lemma TrimsToItself(c: char)
    requires 'A' <= c <= 'z'
    ensures TrimSpace([c]) == [c]
  {
  }

  lemma ThreeStepsWellFormed()
    ensures WellFormed(THREE_STEPS)
  {
    hide TrimSpace;
    TrimsToItself('a');
    TrimsToItself('b');
    TrimsToItself('c');
    assert Phased(THREE_STEPS, 1, 2);
  }

  lemma ConceptReferenceIsValid(kinds: map<string, PageKind>)
    ensures ValidReference(kinds, TO_CONCEPT[0])
  {
    hide TrimSpace;
    TrimsToItself('c');
    TrimsToItself('u');
    EmptyTrims();
  }

  lemma EmptyTrims()
    ensures TrimSpace("") == ""
  {
  }

  lemma TwoParentsInput()
    ensures PageInputError(Feature, None, None, NEW_FEATURE.content) == None
    ensures forall parent :: PageInputError(Scenario, None, Some(parent), NEW_SCENARIO.content) == None
  {
    hide TrimSpace, WellFormed;
    ThreeStepsWellFormed();
    TrimsToItself('F');
    TrimsToItself('S');
  }

  lemma TwoParentsFit()
    ensures OperationFits(NO_SHAPE, NEW_FEATURE) && OperationFits(Extended(NO_SHAPE, NEW_FEATURE), NEW_SCENARIO)
  {
    hide PageInputError, ValidReference;
    TwoParentsInput();
    ConceptReferenceIsValid(NO_SHAPE.kinds);
    ConceptReferenceIsValid(Extended(NO_SHAPE, NEW_FEATURE).kinds);
  }

  lemma TwoParentsShape()
    ensures ShapeOf(TWO_PARENTS[..0]) == NO_SHAPE && ShapeOf(TWO_PARENTS[..1]) == Extended(NO_SHAPE, NEW_FEATURE)
    ensures ShapeOf(TWO_PARENTS) == Extended(Extended(NO_SHAPE, NEW_FEATURE), NEW_SCENARIO)
  {
    hide Extended;
    assert TWO_PARENTS[..1][..0] == [] && TWO_PARENTS[..1][0] == NEW_FEATURE;
  }

  /** The shape check accepts the set. */
  lemma TwoParentsPassTheCheck()
    ensures ValidShape(TWO_PARENTS) && !EveryFeatureNamed(TWO_PARENTS)
  {
    TwoParentsFit();
    TwoParentsShape();
    hide OperationFits, ShapeOf;
    assert CreatesKind(TWO_PARENTS[0], Feature);
  }

  /** It commits in every store that has the concept and the other feature and in which the two slugs
      are free, and it leaves the new feature without a scenario. */
  lemma TwoParentsLeaveFeatureBare(s: Tables, organization: string, ids: seq<RowIDs>)
    requires |ids| == 2 && L.Invariant(s) && FreshIDs(s, ids) && IDsUnknown(TWO_PARENTS, ids)
    requires IsPageOf(s, organization, "c") && IsPageOf(s, organization, "old") && s.pages["old"].kind == Feature
    requires !SlugTaken(s, organization, "f") && !SlugTaken(s, organization, "s")
    ensures var a := ApplyFirst(s, organization, TWO_PARENTS, 2, ids);
            a.Ok? && !Closed(a.value.tables, TWO_PARENTS, ids)
  {
    hide ApplyFirst, L.Invariant, Closed, OperationFits, ShapeOf, EveryFeatureNamed;
    TwoParentsPassTheCheck();
    TwoParentsCommit(s, organization, ids);
    ClosedIffEveryFeatureNamed(s, organization, TWO_PARENTS, ids);
  }

  lemma TwoParentsCommit(s: Tables, organization: string, ids: seq<RowIDs>)
    requires |ids| == 2 && FreshIDs(s, ids)
    requires IsPageOf(s, organization, "c") && IsPageOf(s, organization, "old") && s.pages["old"].kind == Feature
    requires !SlugTaken(s, organization, "f") && !SlugTaken(s, organization, "s")
    ensures ApplyFirst(s, organization, TWO_PARENTS, 2, ids).Ok?
  {
    var start := Applied(s, map[], []);
    FeatureCommits(start, organization, ids[0]);
    var first := ApplyOperation(start, organization, NEW_FEATURE, ids[0]);
    ApplyOperationOnlyOwnRows(start, organization, NEW_FEATURE, ids[0]);
    ScenarioCommits(first.value, organization, ids[1]);
    hide ApplyOperation;
    assert ApplyFirst(s, organization, TWO_PARENTS, 1, ids) == first;
  }

  lemma ReferenceStays(created: map<string, string>)
    ensures ResolveReferences(created, TO_CONCEPT) == Ok(TO_CONCEPT)
  {
    assert TO_CONCEPT[1..] == [];
    assert ResolveReferences(created, []) == Ok([]);
    assert ResolveReference(created, TO_CONCEPT[0]) == Ok(TO_CONCEPT[0]);
    assert [TO_CONCEPT[0]] + [] == TO_CONCEPT;
  }

  lemma CreateCommits(a: Applied, organization: string, op: Operation, parent: Option<string>, ids: RowIDs)
    requires ids.page !in a.tables.pages && ValidSlug(op.slug) && !SlugTaken(a.tables, organization, op.slug) && op.resolved
    requires PageInputError(op.kind, op.conceptKind, parent, op.content) == None
    requires ValidParent(a.tables, organization, op.kind, parent) && ReferencesExist(a.tables, organization, op.content.references)
    ensures var r := ApplyCreate(a, organization, op, parent, op.content, ids);
            && r.Ok? && r.value.tables.pages.Keys == a.tables.pages.Keys + {ids.page}
            && (forall p :: p in a.tables.pages ==> r.value.tables.pages[p] == a.tables.pages[p])
            && r.value.tables.pages[ids.page].slug == op.slug
  {
    hide PageInputError, TrimSpace, SlugTaken, ValidSlug, ValidParent;
  }

  lemma FeatureCommits(a: Applied, organization: string, ids: RowIDs)
    requires ids.page !in a.tables.pages && IsPageOf(a.tables, organization, "c")
    requires !SlugTaken(a.tables, organization, "f") && !SlugTaken(a.tables, organization, "s")
    ensures var r := ApplyOperation(a, organization, NEW_FEATURE, ids);
            && r.Ok? && !SlugTaken(r.value.tables, organization, "s")
            && (forall p :: p in a.tables.pages ==> p in r.value.tables.pages && r.value.tables.pages[p] == a.tables.pages[p])
  {
    hide ApplyCreate, PageInputError, ResolveReferences;
    ReferenceStays(a.created);
    TwoParentsInput();
    assert NEW_FEATURE.content.(references := TO_CONCEPT) == NEW_FEATURE.content;
    CreateCommits(a, organization, NEW_FEATURE, None, ids);
    assert "f" != "s";
  }

  lemma ScenarioCommits(a: Applied, organization: string, ids: RowIDs)
    requires ids.page !in a.tables.pages && !SlugTaken(a.tables, organization, "s")
    requires IsPageOf(a.tables, organization, "c") && IsPageOf(a.tables, organization, "old") && a.tables.pages["old"].kind == Feature
    ensures ApplyOperation(a, organization, NEW_SCENARIO, ids).Ok?
  {
    hide ApplyCreate, PageInputError, ResolveReferences, SlugTaken;
    ReferenceStays(a.created);
    TwoParentsInput();
    assert NEW_SCENARIO.content.(references := TO_CONCEPT) == NEW_SCENARIO.content;
    CreateCommits(a, organization, NEW_SCENARIO, Some("old"), ids);
  }
}
