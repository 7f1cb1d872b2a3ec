/** The assistant's change sets: the shape check, and the transaction that applies them. */
module ChangeSets {
  import opened GoStrings
  import opened Options
  import opened BddSteps
  import opened PageStore

  datatype OperationKind = CreateOperation | ReviseOperation | OtherOperation

  datatype Operation = Operation(
    operation: OperationKind, clientKey: string, pageID: Option<string>, baseRevisionID: Option<string>,
    kind: PageKind, conceptKind: Option<ConceptKind>, parentID: Option<string>, parentClientKey: string,
    slug: GoString, content: Content, resolved: bool)

  // ---------------------------------------------------------------- the shape check

  /** What the check has seen: the kind behind each client key, the created features and the
      features that a created scenario names as its parent. */
  datatype Shape = Shape(kinds: map<string, PageKind>, features: set<string>, covered: set<string>)

  predicate HasKind(kinds: map<string, PageKind>, key: string, kind: PageKind) {
    key in kinds && kinds[key] == kind
  }

  predicate ValidReference(kinds: map<string, PageKind>, reference: Reference) {
    var hasPageID, hasClientKey := TrimSpace(reference.targetPageID) != "", TrimSpace(reference.targetClientKey) != "";
    && hasPageID != hasClientKey && TrimSpace(reference.relation) != "" && TrimSpace(reference.targetTitle) != ""
    && (hasClientKey ==> HasKind(kinds, reference.targetClientKey, Concept))
  }

  /** The parent the page input is checked with. */
  function ShapeParent(op: Operation): Option<string> {
    if op.parentClientKey != "" then Some(op.parentClientKey) else op.parentID
  }

  ghost predicate OperationFits(shape: Shape, op: Operation) {
    && (op.operation == CreateOperation ==> op.pageID.None? && op.baseRevisionID.None?)
    && (op.operation == ReviseOperation ==> op.pageID.Some? && op.baseRevisionID.Some?)
    && op.operation != OtherOperation
    && (op.parentClientKey != "" ==> HasKind(shape.kinds, op.parentClientKey, Feature))
    && PageInputError(op.kind, op.conceptKind, ShapeParent(op), op.content) == None
    && (op.kind != Concept ==> op.content.references != [])
    && (forall i :: 0 <= i < |op.content.references| ==> ValidReference(shape.kinds, op.content.references[i]))
    && (op.clientKey != "" ==> op.clientKey !in shape.kinds)
    && (op.operation == CreateOperation && op.kind == Feature ==> op.clientKey != "")
  }

  function Extended(shape: Shape, op: Operation): Shape {
    Shape(if op.clientKey != "" then shape.kinds[op.clientKey := op.kind] else shape.kinds,
          if op.operation == CreateOperation && op.kind == Feature then shape.features + {op.clientKey} else shape.features,
          if op.operation == CreateOperation && op.kind == Scenario && op.parentClientKey != ""
          then shape.covered + {op.parentClientKey} else shape.covered)
  }

  const NO_SHAPE := Shape(map[], {}, {})

  function ShapeOf(ops: seq<Operation>): Shape {
    if ops == [] then NO_SHAPE else Extended(ShapeOf(ops[..|ops| - 1]), ops[|ops| - 1])
  }

  ghost predicate AllFit(ops: seq<Operation>) {
    forall i :: 0 <= i < |ops| ==> OperationFits(ShapeOf(ops[..i]), ops[i])
  }

  ghost predicate ValidShape(ops: seq<Operation>) {
    AllFit(ops) && ShapeOf(ops).features <= ShapeOf(ops).covered
  }

  // ---------------------------------------------------------------- applying

  /** The ids of the rows an operation may insert. */
  datatype RowIDs = RowIDs(page: string, revision: string)

  datatype Applied = Applied(tables: Tables, created: map<string, string>, revisions: seq<string>)

  function ResolveReference(created: map<string, string>, reference: Reference): Result<Reference> {
    if reference.targetPageID == "" && reference.targetClientKey != "" then
      if reference.targetClientKey in created then Ok(reference.(targetPageID := created[reference.targetClientKey]))
      else Err(UnknownClientKey)
    else Ok(reference)
  }

  function ResolveReferences(created: map<string, string>, references: seq<Reference>): Result<seq<Reference>> {
    if references == [] then Ok([])
    else
      var first :- ResolveReference(created, references[0]);
      var rest :- ResolveReferences(created, references[1..]);
      Ok([first] + rest)
  }

  function ResolveParent(created: map<string, string>, op: Operation): Result<Option<string>> {
    if op.parentID.None? && op.parentClientKey != "" then
      if op.parentClientKey in created then Ok(Some(created[op.parentClientKey])) else Err(UnknownClientKey)
    else Ok(op.parentID)
  }

  ghost function ApplyCreate(a: Applied, organization: string, op: Operation, parent: Option<string>, content: Content, ids: RowIDs): Result<Applied> {
    if !ValidSlug(op.slug) then Err(InvalidSlug)
    else
      var error := PageInputError(op.kind, op.conceptKind, parent, content);
      if error.Some? then Err(error.value)
      else if !ValidParent(a.tables, organization, op.kind, parent) then Err(InvalidHierarchy)
      else
        var page := Page(organization, op.kind, op.conceptKind, parent, op.slug, None, None);
        var tables :- AddPage(a.tables, ids.page, ids.revision, page, content, op.resolved);
        Ok(Applied(tables, if op.clientKey != "" then a.created[op.clientKey := ids.page] else a.created, a.revisions + [ids.revision]))
  }

  ghost function ApplyRevise(a: Applied, organization: string, op: Operation, parent: Option<string>, content: Content, ids: RowIDs): Result<Applied> {
    if op.pageID.None? || op.baseRevisionID.None? then Err(InvalidChangeSet)
    else if !IsPageOf(a.tables, organization, op.pageID.value) then Err(NotFound)
    else
      var page := a.tables.pages[op.pageID.value];
      if op.kind != page.kind || op.slug != page.slug || op.conceptKind != page.conceptKind || parent != page.parent
      then Err(MetadataMismatch)
      else
        var tables :- Revise(a.tables, op.pageID.value, op.baseRevisionID.value, content, op.resolved, ids.revision);
        Ok(Applied(tables, a.created, a.revisions + [ids.revision]))
  }

  ghost function ApplyOperation(a: Applied, organization: string, op: Operation, ids: RowIDs): Result<Applied> {
    var parent :- ResolveParent(a.created, op);
    var references :- ResolveReferences(a.created, op.content.references);
    var content := op.content.(references := references);
    match op.operation
    case CreateOperation => ApplyCreate(a, organization, op, parent, content, ids)
    case ReviseOperation => ApplyRevise(a, organization, op, parent, content, ids)
    case OtherOperation => Err(InvalidChangeSet)
  }

  /** The first `n` operations applied in order. */
  ghost function ApplyFirst(s: Tables, organization: string, ops: seq<Operation>, n: nat, ids: seq<RowIDs>): Result<Applied>
    requires n <= |ops| <= |ids|
  {
    if n == 0 then Ok(Applied(s, map[], []))
    else
      var before :- ApplyFirst(s, organization, ops, n - 1, ids);
      ApplyOperation(before, organization, ops[n - 1], ids[n - 1])
  }

  /** The ids the database hands out are new and pairwise different. */
  ghost predicate FreshIDs(s: Tables, ids: seq<RowIDs>) {
    && (forall i :: 0 <= i < |ids| ==> ids[i].page !in s.pages && ids[i].revision !in s.revisions)
    && (forall i, j :: 0 <= i < j < |ids| ==> ids[i].page != ids[j].page && ids[i].revision != ids[j].revision)
  }

  ghost function ApplyChangeSet(s: Tables, organization: string, clarification: GoString, ops: seq<Operation>, ids: seq<RowIDs>): Result<Applied>
    requires |ops| <= |ids|
  {
    if organization in s.managed then Err(ReadOnly)
    else if TrimSpace(clarification) != "" then Ok(Applied(s, map[], []))
    else if ops == [] || !ValidShape(ops) then Err(InvalidChangeSet)
    else ApplyFirst(s, organization, ops, |ops|, ids)
  }
}
