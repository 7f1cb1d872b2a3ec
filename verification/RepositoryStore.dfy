/** Pages, revisions and snapshots of a Git-managed workspace, and importing a snapshot into them.

    Row ids are positions: rows are only ever added. The rows of repository_snapshot_entries are
    kept with their snapshot, in the order they were inserted. */
module RepositoryStore {
  import opened GoStrings
  import opened Options
  import opened Collections
  import opened Snapshots
  import opened Catalogues

  datatype Page = Page(externalID: GoString, kind: Kind, current: Option<nat>, archived: bool)

  /** `entry` is the entry the revision was first imported with. */
  datatype Revision = Revision(page: nat, number: nat, hash: GoString, entry: Entry)

  datatype Item = Item(page: nat, revision: nat, entry: Entry)

  datatype SnapshotRow = SnapshotRow(runID: int, runAttempt: int, snapshot: Snapshot, items: seq<Item>)

  datatype Tables = Tables(
    repository: Option<GoString>, pages: seq<Page>, revisions: seq<Revision>, snapshots: seq<SnapshotRow>, current: Option<nat>)

  datatype ImportError =
    Ineligible | Unacceptable | NotConfigured | OtherRepository | Stale | ConflictingRun | DuplicateRun | KindChanged | DuplicateItem

  datatype Imported = Committed(tables: Tables) | Rejected(error: ImportError)

  // ---------------------------------------------------------------- lookups

  function PageNamed(pages: seq<Page>, id: GoString): (r: Option<nat>)
    ensures r.Some? ==> r.value < |pages| && pages[r.value].externalID == id
    ensures r.None? ==> forall p :: 0 <= p < |pages| ==> pages[p].externalID != id
  {
    if pages == [] then None
    else if pages[|pages| - 1].externalID == id then Some(|pages| - 1)
    else PageNamed(pages[..|pages| - 1], id)
  }

  function RevisionWith(revisions: seq<Revision>, page: nat, hash: GoString): (r: Option<nat>)
    ensures r.Some? ==> r.value < |revisions| && revisions[r.value].page == page && revisions[r.value].hash == hash
    ensures r.None? ==> forall i :: 0 <= i < |revisions| ==> revisions[i].page != page || revisions[i].hash != hash
  {
    if revisions == [] then None
    else
      var last := revisions[|revisions| - 1];
      if last.page == page && last.hash == hash then Some(|revisions| - 1)
      else RevisionWith(revisions[..|revisions| - 1], page, hash)
  }

  /** `COALESCE(max(number), 0)` over a page's revisions. */
  function MaxNumber(revisions: seq<Revision>, page: nat): nat {
    if revisions == [] then 0
    else
      var last, before := revisions[|revisions| - 1], MaxNumber(revisions[..|revisions| - 1], page);
      if last.page == page && last.number > before then last.number else before
  }

  predicate ItemFor(items: seq<Item>, page: nat) {
    exists i :: 0 <= i < |items| && items[i].page == page
  }

  // ---------------------------------------------------------------- importing one entry

  function Upserted(pages: seq<Page>, e: Entry): (seq<Page>, nat) {
    match PageNamed(pages, e.externalID)
    case Some(p) => (pages[p := pages[p].(archived := false)], p)
    case None => (pages + [Page(e.externalID, e.kind, None, false)], |pages|)
  }

  function Revised(revisions: seq<Revision>, page: nat, e: Entry): (seq<Revision>, nat) {
    match RevisionWith(revisions, page, e.businessHash)
    case Some(r) => (revisions, r)
    case None => (revisions + [Revision(page, MaxNumber(revisions, page) + 1, e.businessHash, e)], |revisions|)
  }

  function ImportEntry(t: Tables, e: Entry): Imported
    requires t.snapshots != []
  {
    var found, last := PageNamed(t.pages, e.externalID), |t.snapshots| - 1;
    if found.Some? && t.pages[found.value].kind != e.kind then Rejected(KindChanged)
    else
      var (pages, page) := Upserted(t.pages, e);
      var (revisions, revision) := Revised(t.revisions, page, e);
      var row := t.snapshots[last];
      if ItemFor(row.items, page) then Rejected(DuplicateItem)
      else
        Committed(t.(
                  pages := pages[page := pages[page].(current := Some(revision), archived := false)],
                  revisions := revisions,
                  snapshots := t.snapshots[last := row.(items := row.items + [Item(page, revision, e)])]))
  }

  /** Importing entries in order; an error ends the import. */
  function ImportEntries(t: Tables, entries: seq<Entry>): (r: Imported)
    requires t.snapshots != []
    ensures r.Committed? ==> r.tables.snapshots != []
  {
    if entries == [] then Committed(t)
    else
      var before := ImportEntries(t, entries[..|entries| - 1]);
      if before.Rejected? then before else ImportEntry(before.tables, entries[|entries| - 1])
  }

  // ---------------------------------------------------------------- importing a snapshot

  predicate RunBefore(run: int, attempt: int, otherRun: int, otherAttempt: int) {
    run < otherRun || (run == otherRun && attempt < otherAttempt)
  }

  predicate KnownRun(rows: seq<SnapshotRow>, run: int, attempt: int) {
    exists k :: 0 <= k < |rows| && rows[k].runID == run && rows[k].runAttempt == attempt
  }

  function Archived(pages: seq<Page>): seq<Page> {
    Map(pages, (p: Page) => p.(archived := true))
  }

  /** A new snapshot row, with every page archived until its entry arrives. */
  function Begun(t: Tables, s: Snapshot): Tables
    requires s.publication.runID.Some?
  {
    t.(snapshots := t.snapshots + [SnapshotRow(s.publication.runID.value, s.publication.runAttempt, s, [])],
       pages := Archived(t.pages))
  }

  function ImportNew(t: Tables, s: Snapshot, entries: seq<Entry>): Imported
    requires s.publication.runID.Some?
  {
    if KnownRun(t.snapshots, s.publication.runID.value, s.publication.runAttempt) then Rejected(DuplicateRun)
    else
      match ImportEntries(Begun(t, s), entries)
      case Committed(u) => Committed(u.(current := Some(|u.snapshots| - 1)))
      case Rejected(e) => Rejected(e)
  }

  ghost function ImportInto(t: Tables, s: Snapshot, entries: seq<Entry>): Imported
    requires s.publication.runID.Some?
    requires t.current.Some? ==> t.current.value < |t.snapshots|
  {
    var run, attempt := s.publication.runID.value, s.publication.runAttempt;
    if t.repository.None? then Rejected(NotConfigured)
    else if t.repository.value != s.source.repository then Rejected(OtherRepository)
    else if t.current.None? then ImportNew(t, s, entries)
    else
      var last := t.snapshots[t.current.value];
      if RunBefore(run, attempt, last.runID, last.runAttempt) then Rejected(Stale)
      else if run == last.runID && attempt == last.runAttempt then
        if last.snapshot != s then Rejected(ConflictingRun) else Committed(t)
      else ImportNew(t, s, entries)
  }

  /** `ImportRepositorySnapshot` on the tables; an error commits nothing. */
  ghost function Import(lib: Library, t: Tables, s: Snapshot): Imported
    requires t.current.Some? ==> t.current.value < |t.snapshots|
  {
    if !Eligible(s) then Rejected(Ineligible)
    else if !Acceptable(lib, s) then Rejected(Unacceptable)
    else ImportInto(t, s, CatalogueOf(lib, s))
  }

  // ---------------------------------------------------------------- invariant

  /** How many of these revisions belong to a page. */
  function CountOf(revisions: seq<Revision>, page: nat): nat {
    if revisions == [] then 0
    else CountOf(revisions[..|revisions| - 1], page) + if revisions[|revisions| - 1].page == page then 1 else 0
  }

  ghost predicate PagesNamed(pages: seq<Page>) {
    && (forall p, q :: 0 <= p < q < |pages| ==> pages[p].externalID != pages[q].externalID)
    && (forall p :: 0 <= p < |pages| ==> pages[p].kind == KindOfID(pages[p].externalID) != UnknownKind)
  }

  ghost predicate PagesCurrent(pages: seq<Page>, revisions: seq<Revision>) {
    forall p :: 0 <= p < |pages| ==>
      pages[p].current.Some? && pages[p].current.value < |revisions| && revisions[pages[p].current.value].page == p
  }

  ghost predicate Numbered(revisions: seq<Revision>, pages: nat) {
    forall r :: 0 <= r < |revisions| ==>
      revisions[r].page < pages && revisions[r].number == CountOf(revisions[..r], revisions[r].page) + 1
  }

  ghost predicate HashesDiffer(revisions: seq<Revision>) {
    forall i, j :: 0 <= i < j < |revisions| && revisions[i].page == revisions[j].page ==> revisions[i].hash != revisions[j].hash
  }

  predicate ItemFits(pages: seq<Page>, revisions: seq<Revision>, item: Item) {
    && item.page < |pages| && pages[item.page].externalID == item.entry.externalID && pages[item.page].kind == item.entry.kind
    && item.revision < |revisions| && revisions[item.revision].page == item.page
    && revisions[item.revision].hash == item.entry.businessHash
  }

  ghost predicate ItemsFit(t: Tables) {
    forall k, i :: 0 <= k < |t.snapshots| && 0 <= i < |t.snapshots[k].items| ==>
      ItemFits(t.pages, t.revisions, t.snapshots[k].items[i])
  }

  /** Some snapshot carries the revision, with the entry it was created from. */
  ghost predicate Carried(t: Tables, r: nat)
    requires r < |t.revisions|
  {
    exists k, i :: 0 <= k < |t.snapshots| && 0 <= i < |t.snapshots[k].items|
      && t.snapshots[k].items[i] == Item(t.revisions[r].page, r, t.revisions[r].entry)
  }

  ghost predicate AllCarried(t: Tables) {
    forall r :: 0 <= r < |t.revisions| ==> Carried(t, r)
  }

  /** The unarchived pages are those of the items, at the items' revisions. */
  ghost predicate Lists(pages: seq<Page>, items: seq<Item>) {
    && (forall p :: 0 <= p < |pages| ==> (!pages[p].archived <==> ItemFor(items, p)))
    && (forall i :: 0 <= i < |items| ==> items[i].page < |pages| && pages[items[i].page].current == Some(items[i].revision))
    && (forall i, j :: 0 <= i < j < |items| ==> items[i].page != items[j].page)
  }

  ghost predicate LastIsListed(t: Tables) {
    if t.snapshots == [] then t.pages == [] else Lists(t.pages, t.snapshots[|t.snapshots| - 1].items)
  }

  /** What holds of the rows even while a snapshot is being imported. */
  ghost predicate Rows(t: Tables) {
    && PagesNamed(t.pages) && PagesCurrent(t.pages, t.revisions)
    && Numbered(t.revisions, |t.pages|) && HashesDiffer(t.revisions)
    && ItemsFit(t) && AllCarried(t) && LastIsListed(t)
  }

  function EntryOf(item: Item): Entry { item.entry }

  ghost predicate Complete(lib: Library, row: SnapshotRow) {
    && Eligible(row.snapshot) && Acceptable(lib, row.snapshot) && Map(row.items, EntryOf) == CatalogueOf(lib, row.snapshot)
    && row.snapshot.publication.runID == Some(row.runID) && row.snapshot.publication.runAttempt == row.runAttempt
  }

  ghost predicate AllComplete(lib: Library, rows: seq<SnapshotRow>) {
    forall k :: 0 <= k < |rows| ==> Complete(lib, rows[k])
  }

  ghost predicate RunsIncrease(rows: seq<SnapshotRow>) {
    forall j, k :: 0 <= j < k < |rows| ==> RunBefore(rows[j].runID, rows[j].runAttempt, rows[k].runID, rows[k].runAttempt)
  }

  ghost predicate Invariant(lib: Library, t: Tables) {
    && Rows(t) && AllComplete(lib, t.snapshots) && RunsIncrease(t.snapshots)
    && t.current == if t.snapshots == [] then None else Some(|t.snapshots| - 1)
  }

  const UNCONFIGURED := Tables(None, [], [], [], None)
}
