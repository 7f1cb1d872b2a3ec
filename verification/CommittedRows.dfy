/** When a transaction on the governed wiki commits, and the rows it leaves, read off its input. */
module CommittedRows {
  import opened GoStrings
  import opened Options
  import opened BddSteps
  import opened PageStore
  import opened Lifecycle
  import R = LifecycleRuns
  import C = ChangeSets
  import P = ChangeSetProofs

  // ---------------------------------------------------------------- what an input must be

  predicate IsWord(s: GoString) {
    s != "" && forall i :: 0 <= i < |s| ==> 'a' <= s[i] <= 'z' || '0' <= s[i] <= '9'
  }

  /** Words of lowercase letters and digits, joined by single hyphens. */
  ghost predicate IsSlug(slug: GoString)
    decreases |slug|
  {
    IsWord(slug) || exists i :: 0 <= i < |slug| && IsWord(slug[..i]) && slug[i] == '-' && IsSlug(slug[i + 1..])
  }

  lemma {:induction false} SlugIff(slug: GoString)
    ensures ValidSlug(slug) <==> IsSlug(slug)
    decreases |slug|
  {
    if ValidSlug(slug) && !IsWord(slug) {
      var i := FirstHyphen(slug);
      SlugIff(slug[i + 1..]);
      assert IsWord(slug[..i]);
      assert ValidSlug(slug[i + 1..]);
    }
    if IsSlug(slug) && !IsWord(slug) {
      var i :| 0 <= i < |slug| && IsWord(slug[..i]) && slug[i] == '-' && IsSlug(slug[i + 1..]);
      SlugIff(slug[i + 1..]);
      JoinedIsValid(slug, i);
    }
  }

  lemma FirstHyphen(slug: GoString) returns (i: nat)
    requires ValidSlug(slug) && !IsWord(slug)
    ensures 0 < i < |slug| - 1 && slug[i] == '-' && forall k :: 0 <= k < i ==> slug[k] != '-'
  {
    i := 0;
    while slug[i] != '-'
      invariant 0 <= i < |slug| && exists k :: i <= k < |slug| - 1 && slug[k] == '-'
      invariant forall k :: 0 <= k < i ==> slug[k] != '-'
      decreases |slug| - i
    {
      i := i + 1;
    }
  }

  lemma JoinedIsValid(slug: GoString, i: nat)
    requires i < |slug| && IsWord(slug[..i]) && slug[i] == '-' && ValidSlug(slug[i + 1..])
    ensures ValidSlug(slug)
  {
    var rest := slug[i + 1..];
    forall k | 0 <= k < |slug|
      ensures k < i ==> slug[k] == slug[..i][k]
      ensures k > i ==> slug[k] == rest[k - i - 1]
    {
    }
  }

  /** A title, and steps exactly where the kind asks for them. */
  ghost predicate TextFits(kind: PageKind, content: Content) {
    TrimSpace(content.title) != "" && if kind == Scenario then WellFormed(content.steps) else content.steps == []
  }

  /** Concepts are nouns or verbs, scenarios belong to a feature of the organization, nothing else has a
      parent. */
  predicate HierarchyFits(s: Tables, organization: string, kind: PageKind, conceptKind: Option<ConceptKind>, parent: Option<string>) {
    match kind
    case Concept => (conceptKind == Some(Noun) || conceptKind == Some(Verb)) && parent == None
    case Feature => conceptKind == None && parent == None
    case Scenario =>
      conceptKind == None && parent.Some? && parent.value in s.pages
      && s.pages[parent.value].organization == organization && s.pages[parent.value].kind == Feature
    case OtherKind => false
  }

  /** The pages referred to are of the organization, or among the new ones. */
  predicate RefersTo(s: Tables, organization: string, references: seq<Reference>, added: set<string>) {
    forall i :: 0 <= i < |references| ==>
      references[i].targetPageID in added
      || (references[i].targetPageID in s.pages && s.pages[references[i].targetPageID].organization == organization)
  }

  ghost predicate SlugFree(s: Tables, organization: string, slug: GoString) {
    forall p :: p in s.pages && s.pages[p].organization == organization ==> s.pages[p].slug != slug
  }

  /** A stored text is the given one with its title trimmed. */
  predicate Says(stored: Content, given: Content) {
    && stored.title == TrimSpace(given.title) && stored.body == given.body
    && stored.steps == given.steps && stored.references == given.references
  }

  // ---------------------------------------------------------------- saving

  /** The revision a page's next one must be based on: its draft, or else what was approved. */
  predicate IsCurrent(page: Page, base: string) {
    if page.draft.Some? then page.draft == Some(base) else page.approved == Some(base)
  }

  lemma PageInputFits(s: Tables, chains: Chains, p: string, content: Content)
    requires WellKept(s, chains) && p in s.pages
    ensures var page := s.pages[p];
            PageInputError(page.kind, page.conceptKind, page.parent, content) == None <==> TextFits(page.kind, content)
  {
    hide TrimSpace, WellFormed, Pointed, Parented, Developing, SlugsUnique;
    assert chains[p] != [] && IsLink(s, chains, p, 0);
    var r := chains[p][0];
    assert Fits(s.pages[p], s.revisions[r].content);
  }

  /** A save commits exactly when it is based on the page's current revision and its text fits the page. */
  lemma SaveCommitsIff(s: Tables, organization: string, p: string, base: string, content: Content, resolved: bool, r: string)
    requires Invariant(s) && r !in s.revisions
    ensures R.Outcome(s, R.SaveTx(organization, p, base, content, resolved, r)).Ok? <==>
            && organization !in s.managed && p in s.pages && s.pages[p].organization == organization
            && IsCurrent(s.pages[p], base) && TextFits(s.pages[p].kind, content) && resolved
            && RefersTo(s, organization, content.references, {})
  {
    hide Invariant, WellKept, Revise, TextFits;
    if p in s.pages {
      ReviseIff(s, p, base, content, resolved, r);
    }
  }

  lemma ReviseIff(s: Tables, p: string, base: string, content: Content, resolved: bool, r: string)
    requires Invariant(s) && p in s.pages
    ensures Revise(s, p, base, content, resolved, r).Ok? <==>
            && IsCurrent(s.pages[p], base) && TextFits(s.pages[p].kind, content) && resolved
            && RefersTo(s, s.pages[p].organization, content.references, {})
  {
    hide Invariant, WellKept, PageInputError, TextFits, NextNumber, Trimmed;
    var chains := R.SomeChains(s);
    PageInputFits(s, chains, p, content);
  }

  /** The rows a save leaves: a new draft with the text given, numbered after its base, the draft before it
      superseded, and nothing else changed. */
  lemma SaveAddsDraft(s: Tables, organization: string, p: string, base: string, content: Content, resolved: bool, r: string)
    requires Invariant(s) && r !in s.revisions && R.Outcome(s, R.SaveTx(organization, p, base, content, resolved, r)).Ok?
    ensures var t := R.Commit(s, R.SaveTx(organization, p, base, content, resolved, r));
            && t == s.(pages := t.pages, revisions := t.revisions)
            && t.pages == s.pages[p := s.pages[p].(draft := Some(r))] && t.revisions.Keys == s.revisions.Keys + {r}
            && Says(t.revisions[r].content, content)
            && base in s.revisions && t.revisions[r] == Revision(p, s.revisions[base].number + 1, Draft, Some(base), t.revisions[r].content, false)
            && forall v :: v in s.revisions ==>
                 t.revisions[v] == if s.pages[p].draft == Some(v) then s.revisions[v].(status := Superseded) else s.revisions[v]
  {
    hide Invariant, WellKept, Revise;
    var chains := R.SomeChains(s);
    ReviseRows(s, chains, p, base, content, resolved, r);
  }

  lemma ReviseRows(s: Tables, chains: Chains, p: string, base: string, content: Content, resolved: bool, r: string)
    requires WellKept(s, chains) && p in s.pages && r !in s.revisions && Revise(s, p, base, content, resolved, r).Ok?
    ensures var t := Revise(s, p, base, content, resolved, r).value;
            && t == s.(pages := t.pages, revisions := t.revisions)
            && t.pages == s.pages[p := s.pages[p].(draft := Some(r))] && t.revisions.Keys == s.revisions.Keys + {r}
            && Says(t.revisions[r].content, content)
            && base in s.revisions && t.revisions[r] == Revision(p, s.revisions[base].number + 1, Draft, Some(base), t.revisions[r].content, false)
            && forall v :: v in s.revisions ==>
                 t.revisions[v] == if s.pages[p].draft == Some(v) then s.revisions[v].(status := Superseded) else s.revisions[v]
  {
    hide TrimSpace, Revise, Pointed, AllFit, Parented, Developing, SlugsUnique;
    ReviseAdds(s, chains, p, base, content, resolved, r);
    LastIsLink(s, chains, p);
    if s.pages[p].draft.Some? {
      DraftIsOwn(s, chains, p);
    }
  }

  // ---------------------------------------------------------------- creating

  /** What a page row and its first draft are. */
  ghost predicate NewPageRows(t: Tables, p: string, r: string, page: Page, content: Content) {
    && p in t.pages && t.pages[p] == page.(draft := Some(r)) && r in t.revisions
    && t.revisions[r] == Revision(p, 1, Draft, None, t.revisions[r].content, false) && Says(t.revisions[r].content, content)
  }

  lemma AddPageIff(s: Tables, p: string, r: string, page: Page, content: Content, resolved: bool)
    requires p !in s.pages && r !in s.revisions
    ensures AddPage(s, p, r, page, content, resolved).Ok? <==>
            SlugFree(s, page.organization, page.slug) && resolved && RefersTo(s, page.organization, content.references, {p})
    ensures AddPage(s, p, r, page, content, resolved).Ok? ==>
              var t := AddPage(s, p, r, page, content, resolved).value;
              && t == s.(pages := t.pages, revisions := t.revisions) && t.pages.Keys == s.pages.Keys + {p}
              && t.revisions.Keys == s.revisions.Keys + {r} && NewPageRows(t, p, r, page, content)
              && (forall q :: q in s.pages ==> t.pages[q] == s.pages[q]) && forall v :: v in s.revisions ==> t.revisions[v] == s.revisions[v]
  {
    hide TrimSpace;
  }

  /** The first scenario of a new feature. */
  ghost predicate InitialFits(s: Tables, organization: string, input: NewPage, ids: NewIDs) {
    input.initial.Some? ==>
      var i := input.initial.value;
      && input.kind == Feature && IsSlug(i.slug) && i.slug != input.slug && SlugFree(s, organization, i.slug)
      && TextFits(Scenario, i.content) && i.resolved && RefersTo(s, organization, i.content.references, {ids.page, ids.childPage})
  }

  ghost predicate PageFits(s: Tables, organization: string, input: NewPage, ids: NewIDs) {
    && IsSlug(input.slug) && SlugFree(s, organization, input.slug) && TextFits(input.kind, input.content)
    && HierarchyFits(s, organization, input.kind, input.conceptKind, input.parent)
    && input.resolved && RefersTo(s, organization, input.content.references, {ids.page})
  }

  lemma InputErrorIff(s: Tables, organization: string, kind: PageKind, conceptKind: Option<ConceptKind>, parent: Option<string>, content: Content)
    ensures PageInputError(kind, conceptKind, parent, content) == None && ValidParent(s, organization, kind, parent) <==>
            TextFits(kind, content) && HierarchyFits(s, organization, kind, conceptKind, parent)
  {
    hide TrimSpace, WellFormed;
  }

  lemma PendingIff(content: Content)
    ensures PageInputError(Scenario, None, Some("pending-feature"), content) == None <==> TextFits(Scenario, content)
  {
    hide TrimSpace, WellFormed;
  }

  /** Creating a page commits exactly when the page, and the scenario given with a feature, fit. */
  lemma CreateCommitsIff(s: Tables, organization: string, input: NewPage, ids: NewIDs)
    requires Unused(s, ids)
    ensures R.Outcome(s, R.CreateTx(organization, input, ids)).Ok? <==>
            organization !in s.managed && PageFits(s, organization, input, ids) && InitialFits(s, organization, input, ids)
  {
    hide PageInputError, ValidParent, HierarchyFits, TextFits, ValidSlug, IsSlug, AddPage, NewPageRows, RefersTo, SlugFree;
    SlugIff(input.slug);
    InputErrorIff(s, organization, input.kind, input.conceptKind, input.parent, input.content);
    var page := Page(organization, input.kind, input.conceptKind, input.parent, input.slug, None, None);
    AddPageIff(s, ids.page, ids.revision, page, input.content, input.resolved);
    if input.initial.Some? {
      var i := input.initial.value;
      SlugIff(i.slug);
      PendingIff(i.content);
      if AddPage(s, ids.page, ids.revision, page, input.content, input.resolved).Ok? {
        var created := AddPage(s, ids.page, ids.revision, page, input.content, input.resolved).value;
        var child := Page(organization, Scenario, None, Some(ids.page), i.slug, None, None);
        AddPageIff(created, ids.childPage, ids.childRevision, child, i.content, i.resolved);
        AfterTheFirst(s, created, organization, ids.page, ids.revision, page, input.content, i.slug, i.content.references, ids.childPage);
      }
    }
  }

  lemma AfterTheFirst(s: Tables, t: Tables, organization: string, p: string, r: string, page: Page, content: Content, slug: GoString,
                      references: seq<Reference>, child: string)
    requires p !in s.pages && t.pages.Keys == s.pages.Keys + {p} && NewPageRows(t, p, r, page, content) && page.organization == organization
    requires forall q :: q in s.pages ==> t.pages[q] == s.pages[q]
    ensures SlugFree(t, organization, slug) <==> SlugFree(s, organization, slug) && slug != page.slug
    ensures RefersTo(t, organization, references, {child}) <==> RefersTo(s, organization, references, {p, child})
  {
  }

  /** The rows it leaves: the page and its first draft with the text given, and the same for the scenario. */
  lemma CreateAddsPages(s: Tables, organization: string, input: NewPage, ids: NewIDs)
    requires Unused(s, ids) && R.Outcome(s, R.CreateTx(organization, input, ids)).Ok?
    ensures var t := R.Commit(s, R.CreateTx(organization, input, ids));
            && t == s.(pages := t.pages, revisions := t.revisions)
            && NewPageRows(t, ids.page, ids.revision, Page(organization, input.kind, input.conceptKind, input.parent, input.slug, None, None), input.content)
            && (input.initial.Some? ==>
                  NewPageRows(t, ids.childPage, ids.childRevision,
                              Page(organization, Scenario, None, Some(ids.page), input.initial.value.slug, None, None), input.initial.value.content))
            && t.pages.Keys == s.pages.Keys + {ids.page} + (if input.initial.Some? then {ids.childPage} else {})
            && t.revisions.Keys == s.revisions.Keys + {ids.revision} + (if input.initial.Some? then {ids.childRevision} else {})
            && (forall q :: q in s.pages ==> t.pages[q] == s.pages[q]) && forall v :: v in s.revisions ==> t.revisions[v] == s.revisions[v]
  {
    hide CreatePageError, ValidParent, AddPage, RefersTo, SlugFree, Says;
    var page := Page(organization, input.kind, input.conceptKind, input.parent, input.slug, None, None);
    AddPageIff(s, ids.page, ids.revision, page, input.content, input.resolved);
    if input.initial.Some? {
      var i := input.initial.value;
      var created := AddPage(s, ids.page, ids.revision, page, input.content, input.resolved).value;
      var child := Page(organization, Scenario, None, Some(ids.page), i.slug, None, None);
      AddPageIff(created, ids.childPage, ids.childRevision, child, i.content, i.resolved);
    }
  }

  // ---------------------------------------------------------------- change sets

  /** A reference as it is stored: a client key is replaced by the page created under it. */
  ghost predicate Resolves(created: map<string, string>, given: Reference, stored: Reference) {
    && stored == given.(targetPageID := stored.targetPageID)
    && if given.targetPageID == "" && given.targetClientKey != ""
       then given.targetClientKey in created && stored.targetPageID == created[given.targetClientKey]
       else stored.targetPageID == given.targetPageID
  }

  lemma {:induction false} ReferencesAre(created: map<string, string>, references: seq<Reference>)
    ensures var r := C.ResolveReferences(created, references);
            r.Ok? ==> |r.value| == |references| && forall i :: 0 <= i < |references| ==> Resolves(created, references[i], r.value[i])
  {
    if references != [] {
      ReferencesAre(created, references[1..]);
    }
  }

  /** A stored text says what an operation gives, its references resolved. */
  ghost predicate SaysResolved(created: map<string, string>, stored: Content, given: Content) {
    && stored.title == TrimSpace(given.title) && stored.body == given.body && stored.steps == given.steps
    && |stored.references| == |given.references|
    && forall i :: 0 <= i < |given.references| ==> Resolves(created, given.references[i], stored.references[i])
  }

  /** A parent key stands for the page created under it, unless a parent is given. */
  predicate ParentIs(created: map<string, string>, op: C.Operation, parent: Option<string>) {
    if op.parentID.None? && op.parentClientKey != ""
    then op.parentClientKey in created && parent == Some(created[op.parentClientKey])
    else parent == op.parentID
  }

  /** An operation that creates inserts its page and first draft; one that revises adds a draft to its page,
      whose metadata it must repeat. */
  lemma OperationCommits(a: C.Applied, organization: string, op: C.Operation, ids: C.RowIDs)
    requires Invariant(a.tables) && ids.page !in a.tables.pages && ids.revision !in a.tables.revisions
    requires C.ApplyOperation(a, organization, op, ids).Ok?
    ensures var s, b := a.tables, C.ApplyOperation(a, organization, op, ids).value;
            var t, r := b.tables, ids.revision;
            && b.revisions == a.revisions + [r] && t == s.(pages := t.pages, revisions := t.revisions)
            && t.revisions.Keys == s.revisions.Keys + {r} && SaysResolved(a.created, t.revisions[r].content, op.content)
            && (op.operation == C.CreateOperation ==>
                  && b.created == (if op.clientKey != "" then a.created[op.clientKey := ids.page] else a.created)
                  && t.pages.Keys == s.pages.Keys + {ids.page}
                  && t.pages[ids.page] == Page(organization, op.kind, op.conceptKind, t.pages[ids.page].parent, op.slug, None, Some(r))
                  && ParentIs(a.created, op, t.pages[ids.page].parent)
                  && t.revisions[r] == Revision(ids.page, 1, Draft, None, t.revisions[r].content, false)
                  && HierarchyFits(s, organization, op.kind, op.conceptKind, t.pages[ids.page].parent))
            && (op.operation == C.ReviseOperation ==>
                  && b.created == a.created && op.pageID.Some? && op.baseRevisionID.Some?
                  && op.pageID.value in s.pages
                  && var page := s.pages[op.pageID.value];
                     && page.organization == organization && page.kind == op.kind && page.slug == op.slug
                     && page.conceptKind == op.conceptKind && ParentIs(a.created, op, page.parent) && IsCurrent(page, op.baseRevisionID.value)
                     && t.pages == s.pages[op.pageID.value := page.(draft := Some(r))]
                     && t.revisions[r].page == op.pageID.value && t.revisions[r].base == op.baseRevisionID && t.revisions[r].status == Draft)
            && op.operation != C.OtherOperation
  {
    hide Invariant, WellKept, AddPage, Revise, PageInputError, ValidSlug, ValidParent, TrimSpace, C.ResolveReferences, HierarchyFits, Resolves, TextFits;
    ReferencesAre(a.created, op.content.references);
    var content := op.content.(references := C.ResolveReferences(a.created, op.content.references).value);
    if op.operation == C.CreateOperation {
      var parent := C.ResolveParent(a.created, op).value;
      InputErrorIff(a.tables, organization, op.kind, op.conceptKind, parent, content);
      AddPageIff(a.tables, ids.page, ids.revision, Page(organization, op.kind, op.conceptKind, parent, op.slug, None, None), content, op.resolved);
    } else if op.operation == C.ReviseOperation {
      var chains := R.SomeChains(a.tables);
      CurrentIs(a.tables, op.pageID.value, op.baseRevisionID.value, content, op.resolved, ids.revision);
      ReviseRows(a.tables, chains, op.pageID.value, op.baseRevisionID.value, content, op.resolved, ids.revision);
    }
  }

  /** A reference names a page of the organization or a new one, by its id or by the key it was created
      under. */
  predicate NamesPage(s: Tables, organization: string, created: map<string, string>, r: Reference, added: set<string>) {
    if r.targetPageID == "" && r.targetClientKey != ""
    then r.targetClientKey in created && RefersTo(s, organization, [r.(targetPageID := created[r.targetClientKey])], added)
    else RefersTo(s, organization, [r], added)
  }

  predicate AllNamePages(s: Tables, organization: string, created: map<string, string>, references: seq<Reference>, added: set<string>) {
    forall r :: r in references ==> NamesPage(s, organization, created, r, added)
  }

  lemma {:induction false} ReferencesIff(s: Tables, organization: string, created: map<string, string>, references: seq<Reference>, added: set<string>)
    ensures var r := C.ResolveReferences(created, references);
            r.Ok? && RefersTo(s, organization, r.value, added) <==> AllNamePages(s, organization, created, references, added)
  {
    hide RefersTo;
    if references == [] {
      NoReferences(s, organization, added);
    } else {
      ReferencesIff(s, organization, created, references[1..], added);
      var rest, first := C.ResolveReferences(created, references[1..]), C.ResolveReference(created, references[0]);
      assert references == [references[0]] + references[1..];
      assert AllNamePages(s, organization, created, references, added) <==>
               NamesPage(s, organization, created, references[0], added) && AllNamePages(s, organization, created, references[1..], added);
      if rest.Ok? && first.Ok? {
        FirstRefers(s, organization, first.value, rest.value, added);
      }
    }
  }

  lemma NoReferences(s: Tables, organization: string, added: set<string>)
    ensures RefersTo(s, organization, [], added)
  {
  }

  lemma FirstRefers(s: Tables, organization: string, first: Reference, rest: seq<Reference>, added: set<string>)
    ensures RefersTo(s, organization, [first] + rest, added) <==> RefersTo(s, organization, [first], added) && RefersTo(s, organization, rest, added)
  {
    var all := [first] + rest;
    assert all[0] == first && forall i :: 0 <= i < |rest| ==> all[i + 1] == rest[i];
  }

  /** An operation that creates commits exactly when the page fits, and one that revises when it repeats
      the metadata of its page, is based on its current revision and its text fits; all keys must be known. */
  lemma OperationCommitsIff(a: C.Applied, organization: string, op: C.Operation, ids: C.RowIDs)
    requires Invariant(a.tables) && ids.page !in a.tables.pages && ids.revision !in a.tables.revisions
    ensures C.ApplyOperation(a, organization, op, ids).Ok? <==>
            exists parent :: ParentIs(a.created, op, parent) && OperationFits(a, organization, op, parent, ids)
  {
    hide Invariant, AddPage, Revise, PageInputError, ValidSlug, IsSlug, ValidParent, SlugFree, RefersTo, TextFits, HierarchyFits, C.ResolveReferences;
    var parent := C.ResolveParent(a.created, op);
    assert forall p :: ParentIs(a.created, op, p) <==> parent == Ok(p);
    if parent.Ok? {
      ApplyIff(a, organization, op, parent.value, ids);
    }
  }

  ghost predicate OperationFits(a: C.Applied, organization: string, op: C.Operation, parent: Option<string>, ids: C.RowIDs) {
    match op.operation
    case CreateOperation =>
      && IsSlug(op.slug) && SlugFree(a.tables, organization, op.slug) && TextFits(op.kind, op.content)
      && HierarchyFits(a.tables, organization, op.kind, op.conceptKind, parent) && op.resolved
      && AllNamePages(a.tables, organization, a.created, op.content.references, {ids.page})
    case ReviseOperation =>
      && op.pageID.Some? && op.baseRevisionID.Some? && op.pageID.value in a.tables.pages
      && var page := a.tables.pages[op.pageID.value];
         && page.organization == organization && page.kind == op.kind && page.slug == op.slug && page.conceptKind == op.conceptKind
         && page.parent == parent && IsCurrent(page, op.baseRevisionID.value) && TextFits(op.kind, op.content) && op.resolved
         && AllNamePages(a.tables, organization, a.created, op.content.references, {})
    case OtherOperation => false
  }

  lemma ApplyIff(a: C.Applied, organization: string, op: C.Operation, parent: Option<string>, ids: C.RowIDs)
    requires Invariant(a.tables) && ids.page !in a.tables.pages && ids.revision !in a.tables.revisions
    requires C.ResolveParent(a.created, op) == Ok(parent)
    ensures C.ApplyOperation(a, organization, op, ids).Ok? <==> OperationFits(a, organization, op, parent, ids)
  {
    hide Invariant, AddPage, Revise, PageInputError, ValidSlug, IsSlug, ValidParent, SlugFree, RefersTo, HierarchyFits, C.ResolveReferences, C.ResolveParent;
    var references := C.ResolveReferences(a.created, op.content.references);
    ReferencesIff(a.tables, organization, a.created, op.content.references, {ids.page});
    ReferencesIff(a.tables, organization, a.created, op.content.references, {});
    hide AllNamePages;
    if references.Ok? {
      var content := op.content.(references := references.value);
      SlugIff(op.slug);
      InputErrorIff(a.tables, organization, op.kind, op.conceptKind, parent, content);
      AddPageIff(a.tables, ids.page, ids.revision, Page(organization, op.kind, op.conceptKind, parent, op.slug, None, None), content, op.resolved);
      if op.pageID.Some? && op.baseRevisionID.Some? && op.pageID.value in a.tables.pages {
        ReviseIff(a.tables, op.pageID.value, op.baseRevisionID.value, content, op.resolved, ids.revision);
      }
    }
  }

  lemma CurrentIs(s: Tables, p: string, base: string, content: Content, resolved: bool, r: string)
    requires p in s.pages && Revise(s, p, base, content, resolved, r).Ok?
    ensures IsCurrent(s.pages[p], base)
  {
    hide PageInputError, NextNumber, ReferencesExist, Trimmed;
  }

  /** A change set is refused in a managed organization; with a question it changes nothing; else it has a
      valid shape, and every operation's revision is there at the end, with the text the operation gives. */
  lemma ChangesSay(s: Tables, organization: string, clarification: GoString, ops: seq<C.Operation>, ids: seq<C.RowIDs>)
    requires Invariant(s) && |ops| <= |ids| && C.FreshIDs(s, ids)
    requires R.Outcome(s, R.ChangesTx(organization, clarification, ops, ids)).Ok?
    ensures var t := R.Commit(s, R.ChangesTx(organization, clarification, ops, ids));
            && organization !in s.managed
            && if TrimSpace(clarification) != "" then t == s
               else
                 && ops != [] && C.ValidShape(ops)
                 && forall i :: 0 <= i < |ops| ==>
                      && ids[i].revision in t.revisions && C.ApplyFirst(s, organization, ops, i, ids).Ok?
                      && SaysResolved(C.ApplyFirst(s, organization, ops, i, ids).value.created, t.revisions[ids[i].revision].content, ops[i].content)
  {
    hide Invariant, C.ApplyFirst, C.ValidShape, SaysResolved, C.FreshIDs, TrimSpace;
    if TrimSpace(clarification) == "" {
      forall i | 0 <= i < |ops|
        ensures var t := C.ApplyFirst(s, organization, ops, |ops|, ids).value.tables;
                && ids[i].revision in t.revisions && C.ApplyFirst(s, organization, ops, i, ids).Ok?
                && SaysResolved(C.ApplyFirst(s, organization, ops, i, ids).value.created, t.revisions[ids[i].revision].content, ops[i].content)
      {
        OperationSays(s, organization, ops, |ops|, ids, i);
      }
    }
  }

  lemma {:induction false} OperationSays(s: Tables, organization: string, ops: seq<C.Operation>, n: nat, ids: seq<C.RowIDs>, i: nat)
    requires i < n <= |ops| <= |ids| && Invariant(s) && C.FreshIDs(s, ids) && C.ApplyFirst(s, organization, ops, n, ids).Ok?
    ensures var t := C.ApplyFirst(s, organization, ops, n, ids).value.tables;
            && ids[i].revision in t.revisions && C.ApplyFirst(s, organization, ops, i, ids).Ok?
            && SaysResolved(C.ApplyFirst(s, organization, ops, i, ids).value.created, t.revisions[ids[i].revision].content, ops[i].content)
  {
    hide Invariant, C.ApplyOperation, SaysResolved, C.FreshIDs;
    P.ChangesKeepInvariant(s, organization, ops, n - 1, ids);
    var before := C.ApplyFirst(s, organization, ops, n - 1, ids).value;
    if i == n - 1 {
      OperationCommits(before, organization, ops[i], ids[i]);
    } else {
      OperationSays(s, organization, ops, n - 1, ids, i);
      R.ApplyOperationGrows(before, organization, ops[n - 1], ids[n - 1]);
    }
  }
}
