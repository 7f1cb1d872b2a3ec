/** Which change sets the shape check accepts, read off the positions of their operations. */
module ChangeSetShapes {
  import opened GoStrings
  import opened Options
  import opened PageStore
  import opened ChangeSets
  import CommittedRows

  /** An operation before the `n`-th carries the key, for a page of that kind. */
  ghost predicate GivenBefore(ops: seq<Operation>, n: nat, key: string, kind: PageKind)
    requires n <= |ops|
  {
    key != "" && exists j :: 0 <= j < n && ops[j].clientKey == key && ops[j].kind == kind
  }

  /** A reference has a relation and a title, and names either a page or an earlier concept. */
  ghost predicate GoodReference(ops: seq<Operation>, n: nat, r: Reference)
    requires n <= |ops|
  {
    && TrimSpace(r.relation) != "" && TrimSpace(r.targetTitle) != ""
    && if TrimSpace(r.targetClientKey) == "" then TrimSpace(r.targetPageID) != ""
       else TrimSpace(r.targetPageID) == "" && GivenBefore(ops, n, r.targetClientKey, Concept)
  }

  /** Concepts are nouns or verbs; scenarios have a parent, given by id or by key, and nothing else has. */
  ghost predicate GoodPage(op: Operation) {
    && CommittedRows.TextFits(op.kind, op.content)
    && var below := op.parentID.Some? || op.parentClientKey != "";
       match op.kind
       case Concept => (op.conceptKind == Some(Noun) || op.conceptKind == Some(Verb)) && !below
       case Feature => op.conceptKind == None && !below
       case Scenario => op.conceptKind == None && below
       case OtherKind => false
  }

  ghost predicate GoodOperation(ops: seq<Operation>, i: nat)
    requires i < |ops|
  {
    var op := ops[i];
    && (match op.operation
        case CreateOperation => op.pageID == None && op.baseRevisionID == None
        case ReviseOperation => op.pageID != None && op.baseRevisionID != None
        case OtherOperation => false)
    && GoodPage(op) && (op.parentClientKey != "" ==> GivenBefore(ops, i, op.parentClientKey, Feature))
    && (op.kind == Concept || op.content.references != [])
    && (forall r :: r in op.content.references ==> GoodReference(ops, i, r))
    && (op.clientKey != "" ==> forall j :: 0 <= j < i ==> ops[j].clientKey != op.clientKey)
  }

  predicate Creates(op: Operation, kind: PageKind) {
    op.operation == CreateOperation && op.kind == kind
  }

  /** Some created scenario names the key as its parent. */
  ghost predicate HasScenario(ops: seq<Operation>, key: string) {
    exists j :: 0 <= j < |ops| && Creates(ops[j], Scenario) && ops[j].parentClientKey == key
  }

  ghost predicate GoodShape(ops: seq<Operation>) {
    forall i :: 0 <= i < |ops| ==>
      GoodOperation(ops, i) && (Creates(ops[i], Feature) ==> ops[i].clientKey != "" && HasScenario(ops, ops[i].clientKey))
  }

  ghost predicate KeysDiffer(ops: seq<Operation>, n: nat)
    requires n <= |ops|
  {
    forall i, j :: 0 <= i < j < n && ops[i].clientKey != "" ==> ops[i].clientKey != ops[j].clientKey
  }

  lemma {:induction false} KindsAre(ops: seq<Operation>, n: nat, key: string)
    requires n <= |ops| && KeysDiffer(ops, n)
    ensures forall kind :: HasKind(ShapeOf(ops[..n]).kinds, key, kind) <==> GivenBefore(ops, n, key, kind)
    ensures key in ShapeOf(ops[..n]).kinds <==> key != "" && exists j :: 0 <= j < n && ops[j].clientKey == key
  {
    if n > 0 {
      KindsAre(ops, n - 1, key);
      assert ops[..n][..n - 1] == ops[..n - 1];
      var op := ops[n - 1];
      forall kind
        ensures GivenBefore(ops, n, key, kind) <==> if key != "" && op.clientKey == key then op.kind == kind else GivenBefore(ops, n - 1, key, kind)
      {
        if j :| 0 <= j < n && ops[j].clientKey == key && ops[j].kind == kind && key != "" {
          assert op.clientKey == key ==> j == n - 1;
        }
      }
    }
  }

  lemma {:induction false} FeaturesAre(ops: seq<Operation>, n: nat, key: string)
    requires n <= |ops|
    ensures key in ShapeOf(ops[..n]).features <==> exists j :: 0 <= j < n && Creates(ops[j], Feature) && ops[j].clientKey == key
    ensures key in ShapeOf(ops[..n]).covered <==>
              key != "" && exists j :: 0 <= j < n && Creates(ops[j], Scenario) && ops[j].parentClientKey == key
  {
    if n > 0 {
      FeaturesAre(ops, n - 1, key);
      assert ops[..n][..n - 1] == ops[..n - 1];
    }
  }

  lemma PageIff(op: Operation)
    ensures PageInputError(op.kind, op.conceptKind, ShapeParent(op), op.content) == None <==> GoodPage(op)
  {
    hide TrimSpace;
  }

  lemma ReferenceIff(ops: seq<Operation>, n: nat, r: Reference)
    requires n <= |ops| && KeysDiffer(ops, n)
    ensures ValidReference(ShapeOf(ops[..n]).kinds, r) <==> GoodReference(ops, n, r)
  {
    hide TrimSpace, HasKind, GivenBefore, ShapeOf;
    KindsAre(ops, n, r.targetClientKey);
  }

  lemma OperationIff(ops: seq<Operation>, i: nat)
    requires i < |ops| && KeysDiffer(ops, i)
    ensures OperationFits(ShapeOf(ops[..i]), ops[i]) <==> GoodOperation(ops, i) && (Creates(ops[i], Feature) ==> ops[i].clientKey != "")
  {
    hide ValidReference, GoodReference, HasKind, GivenBefore, ShapeOf, PageInputError, GoodPage, ShapeParent;
    var op, shape := ops[i], ShapeOf(ops[..i]);
    PageIff(op);
    KindsAre(ops, i, op.parentClientKey);
    KindsAre(ops, i, op.clientKey);
    forall r
      ensures ValidReference(shape.kinds, r) <==> GoodReference(ops, i, r)
    {
      ReferenceIff(ops, i, r);
    }
    assert forall r :: r in op.content.references <==> exists k :: 0 <= k < |op.content.references| && op.content.references[k] == r;
  }

  lemma {:induction false} FitDiffer(ops: seq<Operation>, n: nat)
    requires n <= |ops|
    requires AllFit(ops) || forall i :: 0 <= i < |ops| ==> GoodOperation(ops, i)
    ensures KeysDiffer(ops, n)
  {
    hide GoodPage, GoodReference, GivenBefore, ValidReference, PageInputError, HasKind, ShapeOf;
    if n > 0 {
      FitDiffer(ops, n - 1);
      if AllFit(ops) {
        assert OperationFits(ShapeOf(ops[..n - 1]), ops[n - 1]);
        OperationIff(ops, n - 1);
      }
      assert GoodOperation(ops, n - 1);
    }
  }

  /** A change set has a valid shape exactly when every operation is good where it stands, its keys name
      earlier operations of the right kind, and every created feature has a key that a created scenario
      names as its parent. */
  lemma ShapeIff(ops: seq<Operation>)
    ensures ValidShape(ops) <==> GoodShape(ops)
  {
    hide GoodOperation, OperationFits, ShapeOf;
    assert ops[..|ops|] == ops;
    if ValidShape(ops) || GoodShape(ops) {
      forall i | 0 <= i < |ops|
        ensures OperationFits(ShapeOf(ops[..i]), ops[i]) <==> GoodOperation(ops, i) && (Creates(ops[i], Feature) ==> ops[i].clientKey != "")
      {
        FitDiffer(ops, i);
        OperationIff(ops, i);
      }
      forall key
        ensures key in ShapeOf(ops).features <==> exists j :: 0 <= j < |ops| && Creates(ops[j], Feature) && ops[j].clientKey == key
        ensures key in ShapeOf(ops).covered <==> key != "" && HasScenario(ops, key)
      {
        FeaturesAre(ops, |ops|, key);
      }
    }
  }
}
