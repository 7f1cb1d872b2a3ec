/** The workspace tables of a Git-managed organization and the operations on them. */
module RepositorySync {
  import opened GoStrings
  import opened Options
  import opened Collections
  import opened Snapshots
  import opened Catalogues
  import opened RepositoryStore
  import opened RepositoryImports
  import opened RepositoryViews
  import SnapshotReader

  lemma {:induction false} RejectionIsFinal(t: Tables, entries: seq<Entry>, n: nat)
    requires t.snapshots != [] && n <= |entries| && ImportEntries(t, entries[..n]).Rejected?
    ensures ImportEntries(t, entries) == ImportEntries(t, entries[..n])
  {
    hide ImportEntry;
    if n < |entries| {
      var front := entries[..|entries| - 1];
      assert front[..n] == entries[..n];
      RejectionIsFinal(t, front, n);
    } else {
      assert entries[..n] == entries;
    }
  }

  // ---------------------------------------------------------------- the two passes of the listing

  /** The rows of the listing query, parents not yet resolved. */
  function RowsIn(t: Tables, collated: seq<nat>): seq<PageView>
    requires Defined(t)
  {
    if collated == [] then []
    else
      var p, before := collated[|collated| - 1], RowsIn(t, collated[..|collated| - 1]);
      if Listed(t, p).Some? then before + [ViewOf(t, p).(parent := None)] else before
  }

  predicate IsRow(t: Tables, v: PageView)
    requires Defined(t)
  {
    v.page < |t.pages| && Listed(t, v.page).Some? && v == ViewOf(t, v.page).(parent := None)
  }

  function Resolved(t: Tables, rows: seq<PageView>, kind: Option<Kind>): seq<PageView>
    requires Defined(t) && forall i :: 0 <= i < |rows| ==> IsRow(t, rows[i])
  {
    if rows == [] then []
    else
      var v, before := rows[|rows| - 1], Resolved(t, rows[..|rows| - 1], kind);
      assert IsRow(t, v);
      if kind.None? || v.kind == kind.value then before + [ViewOf(t, v.page)] else before
  }

  lemma {:induction false} TwoPasses(t: Tables, collated: seq<nat>, kind: Option<Kind>)
    requires Defined(t)
    ensures forall i :: 0 <= i < |RowsIn(t, collated)| ==> IsRow(t, RowsIn(t, collated)[i])
    ensures Resolved(t, RowsIn(t, collated), kind) == ListingIn(t, collated, kind)
  {
    if collated != [] {
      var n := |collated| - 1;
      TwoPasses(t, collated[..n], kind);
      if Listed(t, collated[n]).Some? {
        assert RowsIn(t, collated)[..|RowsIn(t, collated)| - 1] == RowsIn(t, collated[..n]);
      }
    }
  }

  /** The table of listed ids seen so far. */
  ghost predicate Names(t: Tables, seen: seq<nat>, parents: map<GoString, nat>)
    requires Defined(t)
  {
    && (forall id :: id in parents ==> parents[id] < |t.pages| && Listed(t, parents[id]).Some? && t.pages[parents[id]].externalID == id)
    && (forall p :: p in seen && p < |t.pages| && Listed(t, p).Some? ==> t.pages[p].externalID in parents)
  }

  lemma NamesResolve(lib: Library, t: Tables, collated: seq<nat>, parents: map<GoString, nat>, id: GoString)
    requires Invariant(lib, t) && Names(t, collated, parents) && Collates(collated, |t.pages|)
    ensures ListedNamed(t, id) == if id in parents then Some(parents[id]) else None
  {
    hide Invariant, Listed, KindOfID;
    CurrentExists(lib, t);
    if id in parents {
      NamesDiffer(lib, t, PageNamed(t.pages, id).value, parents[id]);
    }
  }

  /** A row and the parent its external id leads to. */
  lemma RowResolves(lib: Library, t: Tables, collated: seq<nat>, parents: map<GoString, nat>, row: PageView)
    requires Invariant(lib, t) && Names(t, collated, parents) && Collates(collated, |t.pages|) && Defined(t) && IsRow(t, row)
    ensures row.parent == None && row.kind == ViewOf(t, row.page).kind
    ensures var id := Listed(t, row.page).value.entry.parentID;
            ViewOf(t, row.page) == row.(parent := if id in parents then Some(parents[id]) else None)
  {
    hide Invariant, Listed, Names;
    NamesResolve(lib, t, collated, parents, Listed(t, row.page).value.entry.parentID);
  }

  class RepositoryWorkspace {
    const lib: Library
    var repository: Option<GoString>
    var pages: seq<Page>
    var revisions: seq<Revision>
    var snapshots: seq<SnapshotRow>
    var current: Option<nat>
    var lastCheckedAt: Option<int>
    var lastError: GoString
    var lastErrorAt: Option<int>

    constructor (library: Library, configured: Option<GoString>)
      ensures lib == library && Valid() && All() == UNCONFIGURED.(repository := configured)
      ensures lastCheckedAt == None && lastError == "" && lastErrorAt == None
    {
      lib, repository := library, configured;
      pages, revisions, snapshots, current := [], [], [], None;
      lastCheckedAt, lastError, lastErrorAt := None, "", None;
      new;
    }

    function All(): Tables
      reads this
    {
      Tables(repository, pages, revisions, snapshots, current)
    }

    ghost predicate Valid()
      reads this
    {
      Invariant(lib, All())
    }

    ghost predicate Polled(at: int)
      reads this
    {
      lastCheckedAt == Some(at) && lastError == "" && lastErrorAt == None
    }

    /** Commits the whole snapshot, or nothing. */
    method ImportRepositorySnapshot(s: Snapshot, now: int) returns (error: Option<ImportError>)
      requires Valid()
      modifies this
      ensures Valid()
      ensures match Import(lib, old(All()), s)
              case Committed(t) => error == None && All() == t && Polled(now)
              case Rejected(e) =>
                error == Some(e) && All() == old(All()) && lastCheckedAt == old(lastCheckedAt)
                && lastError == old(lastError) && lastErrorAt == old(lastErrorAt)
    {
      hide Invariant, Eligible, Acceptable, CatalogueOf, ImportNew;
      CurrentExists(lib, All());
      if !Eligible(s) {
        return Some(Ineligible);
      }
      EligibleHasRun(s);
      var read := SnapshotReader.Entries(lib, s);
      if read.None? {
        return Some(Unacceptable);
      }
      if repository.None? {
        return Some(NotConfigured);
      }
      if repository.value != s.source.repository {
        return Some(OtherRepository);
      }
      var run, attempt := s.publication.runID.value, s.publication.runAttempt;
      if current.Some? {
        var last := snapshots[current.value];
        if RunBefore(run, attempt, last.runID, last.runAttempt) {
          return Some(Stale);
        }
        if run == last.runID && attempt == last.runAttempt {
          if last.snapshot != s {
            return Some(ConflictingRun);
          }
          lastCheckedAt, lastError, lastErrorAt := Some(now), "", None;
          return None;
        }
      }
      ghost var before := All();
      var failure, tx := InsertSnapshot(All(), s, read.value);
      if failure.Some? {
        return failure;
      }
      ImportKeepsInvariant(lib, before, s);
      pages, revisions, snapshots, current := tx.pages, tx.revisions, tx.snapshots, tx.current;
      lastCheckedAt, lastError, lastErrorAt := Some(now), "", None;
      InsertKeepsRepository(before, s, read.value);
      assert All() == tx;
      return None;
    }

    /** The inserts and updates of one transaction, row by row. */
    static method InsertSnapshot(t: Tables, s: Snapshot, entries: seq<Entry>) returns (failure: Option<ImportError>, tx: Tables)
      requires s.publication.runID.Some?
      ensures ImportNew(t, s, entries) == if failure.None? then Committed(tx) else Rejected(failure.value)
    {
      hide ImportEntries, KnownRun, Archived, MaxNumber;
      tx := t;
      var run, attempt := s.publication.runID.value, s.publication.runAttempt;
      if KnownRun(tx.snapshots, run, attempt) {
        return Some(DuplicateRun), tx;
      }
      var snapshotID := |tx.snapshots|;
      tx := tx.(snapshots := tx.snapshots + [SnapshotRow(run, attempt, s, [])]);
      tx := tx.(pages := Archived(tx.pages));
      ghost var begun := Begun(t, s);
      assert entries[..0] == [];
      NoEntries(begun);
      for i := 0 to |entries|
        invariant ImportEntries(begun, entries[..i]) == Committed(tx) && |tx.snapshots| == snapshotID + 1
      {
        NextEntry(begun, entries, i, tx);
        var entry := entries[i];
        var found := PageNamed(tx.pages, entry.externalID);
        if found.Some? && tx.pages[found.value].kind != entry.kind {
          RejectionIsFinal(begun, entries, i + 1);
          return Some(KindChanged), tx;
        }
        var rows, pageID := tx.pages, |tx.pages|;
        if found.Some? {
          pageID := found.value;
          rows := rows[pageID := rows[pageID].(archived := false)];
        } else {
          rows := rows + [Page(entry.externalID, entry.kind, None, false)];
        }
        var versions, revisionID := tx.revisions, |tx.revisions|;
        var revision := RevisionWith(versions, pageID, entry.businessHash);
        if revision.Some? {
          revisionID := revision.value;
        } else {
          versions := versions + [Revision(pageID, MaxNumber(versions, pageID) + 1, entry.businessHash, entry)];
        }
        var row := tx.snapshots[snapshotID];
        if ItemFor(row.items, pageID) {
          RejectionIsFinal(begun, entries, i + 1);
          return Some(DuplicateItem), tx;
        }
        row := row.(items := row.items + [Item(pageID, revisionID, entry)]);
        rows := rows[pageID := rows[pageID].(current := Some(revisionID), archived := false)];
        tx := tx.(pages := rows, revisions := versions, snapshots := tx.snapshots[snapshotID := row]);
      }
      assert entries[..|entries|] == entries;
      tx := tx.(current := Some(snapshotID));
      failure := None;
    }

    static lemma NoEntries(t: Tables)
      requires t.snapshots != []
      ensures ImportEntries(t, []) == Committed(t)
    {
    }

    static lemma NextEntry(t: Tables, entries: seq<Entry>, i: nat, u: Tables)
      requires t.snapshots != [] && u.snapshots != [] && i < |entries| && ImportEntries(t, entries[..i]) == Committed(u)
      ensures ImportEntries(t, entries[..i + 1]) == ImportEntry(u, entries[i])
    {
      hide ImportEntry;
      assert entries[..i + 1][..i] == entries[..i];
    }

    static lemma InsertKeepsRepository(t: Tables, s: Snapshot, entries: seq<Entry>)
      requires s.publication.runID.Some? && ImportNew(t, s, entries).Committed?
      ensures ImportNew(t, s, entries).tables.repository == t.repository
    {
      hide KnownRun, ImportEntry, Archived;
      EntriesKeepRepository(Begun(t, s), entries);
    }

    static lemma {:induction false} EntriesKeepRepository(t: Tables, entries: seq<Entry>)
      requires t.snapshots != [] && ImportEntries(t, entries).Committed?
      ensures ImportEntries(t, entries).tables.repository == t.repository
    {
      if entries != [] {
        EntriesKeepRepository(t, entries[..|entries| - 1]);
      }
    }

    static predicate ParentNoted(t: Tables, externalParents: map<nat, GoString>, p: nat)
      requires Defined(t)
    {
      p in externalParents && Listed(t, p).Some? && externalParents[p] == Listed(t, p).value.entry.parentID
    }

    /** The first pass: the rows of the query and what is needed to resolve parents. */
    method CollectRows(collated: seq<nat>)
      returns (rows: seq<PageView>, parents: map<GoString, nat>, externalParents: map<nat, GoString>)
      requires Valid() && Defined(All())
      ensures Collected(All(), collated, rows, parents, externalParents)
    {
      hide Invariant, Listed, Collected;
      var t := All();
      rows, parents, externalParents := [], map[], map[];
      NothingCollected(t, collated);
      for i := 0 to |collated|
        invariant Collected(t, collated[..i], rows, parents, externalParents)
      {
        var p := collated[i];
        CollectedOneMore(lib, t, collated, i, rows, parents, externalParents);
        var item := Listed(t, p);
        if item.Some? {
          ListedName(lib, t, p);
          ViewIs(t, p);
          var entry := item.value.entry;
          parents := parents[entry.externalID := p];
          externalParents := externalParents[p := entry.parentID];
          rows := rows + [PageView(p, entry.externalID, entry.title, t.pages[p].kind, t.pages[p].current, None, t.current.value, entry.path)];
        }
      }
      assert collated[..|collated|] == collated;
    }

    static ghost predicate Collected(t: Tables, seen: seq<nat>, rows: seq<PageView>, parents: map<GoString, nat>,
                                     externalParents: map<nat, GoString>)
      requires Defined(t)
    {
      && rows == RowsIn(t, seen) && Names(t, seen, parents)
      && forall k :: 0 <= k < |rows| ==> IsRow(t, rows[k]) && ParentNoted(t, externalParents, rows[k].page)
    }

    static lemma NothingCollected(t: Tables, collated: seq<nat>)
      requires Defined(t)
      ensures Collected(t, collated[..0], [], map[], map[])
    {
    }

    static lemma CollectedOneMore(lib: Library, t: Tables, collated: seq<nat>, i: nat, rows: seq<PageView>, parents: map<GoString, nat>,
                                  externalParents: map<nat, GoString>)
      requires Invariant(lib, t) && i < |collated| && Collected(t, collated[..i], rows, parents, externalParents)
      ensures var p := collated[i];
              match Listed(t, p)
              case Some(item) =>
                && p < |t.pages|
                && Collected(t, collated[..i + 1], rows + [ViewOf(t, p).(parent := None)], parents[item.entry.externalID := p],
                             externalParents[p := item.entry.parentID])
              case None => Collected(t, collated[..i + 1], rows, parents, externalParents)
    {
      hide Invariant, Listed;
      CurrentExists(lib, t);
      assert collated[..i + 1] == collated[..i] + [collated[i]];
      assert collated[..i + 1][..i] == collated[..i];
      var p := collated[i];
      if Listed(t, p).Some? {
        ListedName(lib, t, p);
        ViewIs(t, p);
      }
    }

    static lemma ListedName(lib: Library, t: Tables, p: nat)
      requires Invariant(lib, t) && Listed(t, p).Some?
      ensures p < |t.pages| && t.pages[p].externalID == Listed(t, p).value.entry.externalID
    {
      hide Invariant, Listed;
      ListedEntry(lib, t, p);
    }

    /** The second pass: each row gets its parent, and the kind is filtered. */
    static method ResolveRows(
        ghost lib: Library, ghost t: Tables, ghost collated: seq<nat>, rows: seq<PageView>, parents: map<GoString, nat>,
        externalParents: map<nat, GoString>, kind: Option<Kind>) returns (views: seq<PageView>)
      requires Invariant(lib, t) && Defined(t) && Collates(collated, |t.pages|)
      requires Collected(t, collated, rows, parents, externalParents)
      ensures views == Resolved(t, rows, kind)
    {
      hide Invariant, Listed, Collates, Names, RowsIn, ViewOf;
      views := [];
      for i := 0 to |rows|
        invariant views == Resolved(t, rows[..i], kind)
      {
        assert rows[..i + 1][..i] == rows[..i];
        var view := rows[i];
        assert IsRow(t, view) && ParentNoted(t, externalParents, view.page);
        RowResolves(lib, t, collated, parents, view);
        if externalParents[view.page] in parents {
          view := view.(parent := Some(parents[externalParents[view.page]]));
        }
        if kind.None? || view.kind == kind.value {
          views := views + [view];
        }
      }
      assert rows[..|rows|] == rows;
    }

    /** The listed pages in the given collation, of one kind or of all. */
    method RepositoryPages(collated: seq<nat>, kind: Option<Kind>) returns (views: seq<PageView>)
      requires Valid() && Collates(collated, |pages|)
      ensures views == ListingIn(All(), collated, kind)
    {
      hide Invariant, Collates, Names, RowsIn, ListingIn, Resolved, IsRow;
      ghost var t := All();
      CurrentExists(lib, t);
      var rows, parents, externalParents := CollectRows(collated);
      TwoPasses(t, collated, kind);
      views := ResolveRows(lib, t, collated, rows, parents, externalParents, kind);
    }

    /** One page with its versions, parent and children; `None` if there is no such page. */
    method RepositoryPageDetail(collated: seq<nat>, p: nat) returns (detail: Option<Detail>)
      requires Valid() && Collates(collated, |pages|)
      ensures detail == DetailOf(All(), collated, p)
    {
      hide Invariant, Listed, Collates, VersionOf;
      var t := All();
      CurrentExists(lib, t);
      if p >= |pages| || pages[p].current.None? || pages[p].current.value >= |revisions| {
        return None;
      }
      var page := pages[p];
      var entry := revisions[page.current.value].entry;
      var versions := VersionsOf(t, p, |revisions|);
      var version: Option<Version>, history: seq<Version> := None, [];
      for i := 0 to |versions|
        invariant history == versions[..i]
        invariant version == VersionNamed(versions[..i], page.current.value)
      {
        assert versions[..i + 1][..i] == versions[..i];
        history := history + [versions[i]];
        if versions[i].revision == page.current.value {
          version := Some(versions[i]);
        }
      }
      assert versions[..|versions|] == versions;
      var parent := StoredParent(t, entry);
      var children: seq<nat> := [];
      var listing := RepositoryPages(collated, None);
      for i := 0 to |listing|
        invariant parent == ParentIn(listing[..i], entry.parentID, StoredParent(t, entry))
        invariant children == ChildrenIn(listing[..i], p)
      {
        assert listing[..i + 1][..i] == listing[..i];
        if listing[i].slug == entry.parentID {
          parent := Some(listing[i].page);
        }
        if listing[i].parent == Some(p) {
          children := children + [listing[i].page];
        }
      }
      assert listing[..|listing|] == listing;
      return Some(Detail(p, entry.externalID, entry.title, page.kind, page.current, parent, page.archived, version, history, children));
    }
  }
}
