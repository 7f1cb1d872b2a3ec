/** Pages, revisions, objections and development rows of the governed wiki, and its transactions.

    A transaction is a function from tables to a result: `Ok` with the committed tables, or `Err`,
    in which case nothing is committed. New row ids are inputs; they are not in use before. */
module PageStore {
  import opened GoStrings
  import opened Options
  import opened BddSteps

  datatype PageKind = Concept | Feature | Scenario | OtherKind
  datatype ConceptKind = Noun | Verb | OtherConceptKind

  datatype Reference = Reference(targetPageID: string, targetClientKey: string, targetTitle: GoString, relation: GoString)

  datatype Content = Content(title: GoString, body: GoString, steps: seq<Step>, references: seq<Reference>)

  datatype Page = Page(
    organization: string, kind: PageKind, conceptKind: Option<ConceptKind>, parent: Option<string>, slug: GoString,
    approved: Option<string>, draft: Option<string>)

  datatype Status = Draft | Approved | Superseded

  /** `everApproved` is whether the approval time is set. */
  datatype Revision = Revision(
    page: string, number: nat, status: Status, base: Option<string>, content: Content, everApproved: bool)

  datatype Objection = Objection(page: string, revision: string, resolved: bool)

  datatype DevelopmentStatus = Queued | Running | Developed | Blocked

  datatype Tables = Tables(
    managed: set<string>,
    pages: map<string, Page>,
    revisions: map<string, Revision>,
    objections: map<string, Objection>,
    developments: map<string, DevelopmentStatus>)

  datatype Error =
    | ReadOnly | InvalidSlug | InvalidContent | InvalidHierarchy | DuplicateSlug | InvalidReference
    | StepsRejected | NotFound | Conflict | ParentNotApproved | UnresolvedObjection | InvalidChangeSet
    | UnknownClientKey | MetadataMismatch | DatabaseFailure

  datatype Result<+T> = Ok(value: T) | Err(error: Error) {
    predicate IsFailure() { Err? }
    function PropagateFailure<U>(): Result<U>
      requires Err?
    {
      Err(error)
    }
    function Extract(): T
      requires Ok?
    {
      value
    }
  }

  // ---------------------------------------------------------------- input checks

  /** Lowercase ASCII words of letters and digits, separated by single hyphens. */
  predicate ValidSlug(slug: GoString) {
    && slug != "" && slug[0] != '-' && slug[|slug| - 1] != '-'
    && (forall i :: 0 <= i < |slug| ==> 'a' <= slug[i] <= 'z' || '0' <= slug[i] <= '9' || slug[i] == '-')
    && (forall i :: 0 <= i < |slug| - 1 ==> slug[i] != '-' || slug[i + 1] != '-')
  }

  /** `validatePageInput`. */
  ghost function PageInputError(kind: PageKind, conceptKind: Option<ConceptKind>, parent: Option<string>, content: Content): Option<Error> {
    if TrimSpace(content.title) == "" then Some(InvalidContent)
    else
      match kind
      case Concept =>
        if conceptKind.None? || conceptKind.value == OtherConceptKind || parent.Some? then Some(InvalidHierarchy)
        else if content.steps != [] then Some(InvalidContent) else None
      case Feature =>
        if conceptKind.Some? || parent.Some? || content.steps != [] then Some(InvalidHierarchy) else None
      case Scenario =>
        if conceptKind.Some? || parent.None? then Some(InvalidHierarchy)
        else if !WellFormed(content.steps) then Some(InvalidContent) else None
      case OtherKind => Some(InvalidContent)
  }

  /** `validateParent`: the parent of a scenario is a feature of the same organization. */
  predicate ValidParent(s: Tables, organization: string, kind: PageKind, parent: Option<string>) {
    kind != Scenario ||
    (parent.Some? && parent.value in s.pages
     && s.pages[parent.value].organization == organization && s.pages[parent.value].kind == Feature)
  }

  predicate SlugTaken(s: Tables, organization: string, slug: GoString) {
    exists p :: p in s.pages && s.pages[p].organization == organization && s.pages[p].slug == slug
  }

  predicate ReferencesExist(s: Tables, organization: string, references: seq<Reference>) {
    forall i :: 0 <= i < |references| ==>
      references[i].targetPageID in s.pages && s.pages[references[i].targetPageID].organization == organization
  }

  // ---------------------------------------------------------------- rows

  /** Inserting a page row with its first draft: `resolved` is whether the steps' definitions resolve. */
  ghost function AddPage(s: Tables, pageID: string, revisionID: string, page: Page, content: Content, resolved: bool): Result<Tables> {
    if SlugTaken(s, page.organization, page.slug) then Err(DuplicateSlug)
    else
      var inserted := s.(pages := s.pages[pageID := page]);
      AddRevision(inserted, pageID, revisionID, Revision(pageID, 1, Draft, None, content, false), resolved)
  }

  /** Titles are stored trimmed. */
  function Trimmed(content: Content): Content {
    content.(title := TrimSpace(content.title))
  }

  /** `insertRevision` and the update of the page's draft pointer. */
  function AddRevision(s: Tables, pageID: string, revisionID: string, revision: Revision, resolved: bool): Result<Tables>
    requires pageID in s.pages
  {
    if !resolved then Err(StepsRejected)
    else if !ReferencesExist(s, s.pages[pageID].organization, revision.content.references) then Err(InvalidReference)
    else Ok(s.(revisions := s.revisions[revisionID := revision.(content := Trimmed(revision.content))],
               pages := s.pages[pageID := s.pages[pageID].(draft := Some(revisionID))]))
  }

  /** The revision a new one must be based on. */
  function Current(page: Page): Option<string> {
    if page.draft.Some? then page.draft else page.approved
  }

  ghost predicate IsMaxNumber(s: Tables, pageID: string, n: nat) {
    && (forall r :: r in s.revisions && s.revisions[r].page == pageID ==> s.revisions[r].number <= n)
    && (n > 0 ==> exists r :: r in s.revisions && s.revisions[r].page == pageID && s.revisions[r].number == n)
  }

  /** `COALESCE(max(number), 0) + 1`. */
  ghost function NextNumber(s: Tables, pageID: string): nat {
    if n: nat :| IsMaxNumber(s, pageID, n) then n + 1 else 1
  }

  function Supersede(s: Tables, revision: Option<string>): Tables {
    if revision.Some? && revision.value in s.revisions
    then s.(revisions := s.revisions[revision.value := s.revisions[revision.value].(status := Superseded)])
    else s
  }

  function SupersedeDraft(s: Tables, revision: Option<string>): Tables {
    if revision.Some? && revision.value in s.revisions && s.revisions[revision.value].status == Draft
    then Supersede(s, revision) else s
  }

  // ---------------------------------------------------------------- transactions

  datatype InitialScenario = InitialScenario(slug: GoString, content: Content, resolved: bool)

  datatype NewPage = NewPage(
    kind: PageKind, conceptKind: Option<ConceptKind>, parent: Option<string>, slug: GoString, content: Content,
    resolved: bool, initial: Option<InitialScenario>)

  /** The ids the database hands out, none of them in use. */
  datatype NewIDs = NewIDs(page: string, revision: string, childPage: string, childRevision: string)

  predicate Unused(s: Tables, ids: NewIDs) {
    && ids.page !in s.pages && ids.childPage !in s.pages && ids.page != ids.childPage
    && ids.revision !in s.revisions && ids.childRevision !in s.revisions && ids.revision != ids.childRevision
  }

  ghost function CreatePageError(input: NewPage): Option<Error> {
    if !ValidSlug(input.slug) then Some(InvalidSlug)
    else
      var error := PageInputError(input.kind, input.conceptKind, input.parent, input.content);
      if error.Some? || input.initial.None? then error
      else if input.kind != Feature then Some(InvalidContent)
      else if !ValidSlug(input.initial.value.slug) then Some(InvalidSlug)
      else PageInputError(Scenario, None, Some("pending-feature"), input.initial.value.content)
  }

  ghost function CreatePage(s: Tables, organization: string, input: NewPage, ids: NewIDs): Result<Tables> {
    if organization in s.managed then Err(ReadOnly)
    else
      var error := CreatePageError(input);
      if error.Some? then Err(error.value)
      else if !ValidParent(s, organization, input.kind, input.parent) then Err(InvalidHierarchy)
      else
        var page := Page(organization, input.kind, input.conceptKind, input.parent, input.slug, None, None);
        var created :- AddPage(s, ids.page, ids.revision, page, input.content, input.resolved);
        if input.initial.None? then Ok(created)
        else
          var child := Page(organization, Scenario, None, Some(ids.page), input.initial.value.slug, None, None);
          AddPage(created, ids.childPage, ids.childRevision, child, input.initial.value.content, input.initial.value.resolved)
  }

  /** The shared part of saving and of an assistant's revision. */
  ghost function Revise(s: Tables, pageID: string, base: string, content: Content, resolved: bool, revisionID: string): Result<Tables>
    requires pageID in s.pages
  {
    var page := s.pages[pageID];
    if Current(page) != Some(base) then Err(Conflict)
    else
      var error := PageInputError(page.kind, page.conceptKind, page.parent, content);
      if error.Some? then Err(error.value)
      else
        var revision := Revision(pageID, NextNumber(s, pageID), Draft, Some(base), content, false);
        AddRevision(SupersedeDraft(s, page.draft), pageID, revisionID, revision, resolved)
  }

  predicate IsPageOf(s: Tables, organization: string, pageID: string) {
    pageID in s.pages && s.pages[pageID].organization == organization
  }

  ghost function SaveRevision(s: Tables, organization: string, pageID: string, base: string, content: Content, resolved: bool, revisionID: string): Result<Tables> {
    if organization in s.managed then Err(ReadOnly)
    else if !IsPageOf(s, organization, pageID) then Err(NotFound)
    else Revise(s, pageID, base, content, resolved, revisionID)
  }

  predicate OpenObjection(s: Tables, pageID: string) {
    exists o :: o in s.objections && s.objections[o].page == pageID && !s.objections[o].resolved
  }

  predicate ParentApproved(s: Tables, page: Page) {
    page.parent.Some? && page.parent.value in s.pages && s.pages[page.parent.value].approved.Some?
  }

  function ApproveRevision(s: Tables, organization: string, revisionID: string): Result<Tables> {
    if organization in s.managed then Err(ReadOnly)
    else if revisionID !in s.revisions || !IsPageOf(s, organization, s.revisions[revisionID].page) then Err(NotFound)
    else
      var pageID := s.revisions[revisionID].page;
      var page := s.pages[pageID];
      if page.draft != Some(revisionID) then Err(Conflict)
      else if page.kind == Scenario && !ParentApproved(s, page) then Err(ParentNotApproved)
      else if OpenObjection(s, pageID) then Err(UnresolvedObjection)
      else if page.kind == Scenario && revisionID in s.developments then Err(DatabaseFailure)
      else
        var freed := Supersede(s, page.approved);
        var approved := s.revisions[revisionID].(status := Approved, everApproved := true);
        Ok(freed.(revisions := freed.revisions[revisionID := approved],
                  pages := s.pages[pageID := page.(approved := Some(revisionID), draft := None)],
                  developments := if page.kind == Scenario then s.developments[revisionID := Queued] else s.developments))
  }

  function AddObjection(s: Tables, organization: string, revisionID: string, reason: GoString, objectionID: string): Result<Tables> {
    if TrimSpace(reason) == "" then Err(InvalidContent)
    else if revisionID !in s.revisions || !IsPageOf(s, organization, s.revisions[revisionID].page) then Err(NotFound)
    else Ok(s.(objections := s.objections[objectionID := Objection(s.revisions[revisionID].page, revisionID, false)]))
  }

  function ResolveObjection(s: Tables, organization: string, objectionID: string): Result<Tables> {
    if objectionID !in s.objections || !IsPageOf(s, organization, s.objections[objectionID].page) || s.objections[objectionID].resolved
    then Err(NotFound)
    else Ok(s.(objections := s.objections[objectionID := s.objections[objectionID].(resolved := true)]))
  }

  // ---------------------------------------------------------------- reading review states

  datatype Readiness = ReviewApproved | ReviewReady | ReviewBlocked
  datatype ReviewState = ReviewState(revision: string, state: Readiness)

  /** `reviewStates`, with failure when the scenario's parent cannot be loaded. */
  function ReviewStates(s: Tables, organization: string, pageID: string): Option<seq<ReviewState>>
    requires pageID in s.pages
  {
    var page := s.pages[pageID];
    var approved := if page.approved.Some? then [ReviewState(page.approved.value, ReviewApproved)] else [];
    if page.draft.None? then Some(approved)
    else if page.kind == Scenario && page.parent.Some? && !IsPageOf(s, organization, page.parent.value) then None
    else
      var blocked := (page.kind == Scenario && page.parent.Some? && s.pages[page.parent.value].approved.None?) || OpenObjection(s, pageID);
      Some(approved + [ReviewState(page.draft.value, if blocked then ReviewBlocked else ReviewReady)])
  }
}
