/** Importing replaces the catalogue and loses nothing. */
module RepositoryImports {
  import opened GoStrings
  import opened Options
  import opened Collections
  import opened Snapshots
  import opened Catalogues
  import opened AcceptedSources
  import opened RepositoryStore

  // ---------------------------------------------------------------- numbering

  lemma {:induction false} CountBoundsMax(revisions: seq<Revision>, pages: nat, page: nat)
    requires Numbered(revisions, pages)
    ensures MaxNumber(revisions, page) == CountOf(revisions, page)
  {
    if revisions != [] {
      var n := |revisions| - 1;
      NumberedFront(revisions, n, pages);
      CountBoundsMax(revisions[..n], pages, page);
      CountBoundsMax(revisions[..n], pages, revisions[n].page);
    }
  }

  lemma NumberedFront(revisions: seq<Revision>, n: nat, pages: nat)
    requires Numbered(revisions, pages) && n <= |revisions|
    ensures Numbered(revisions[..n], pages)
  {
    hide CountOf;
    assert forall r :: 0 <= r < n ==> revisions[..n][r] == revisions[r] && revisions[..n][..r] == revisions[..r];
  }

  lemma NumberedOneMore(revisions: seq<Revision>, pages: nat, r: Revision)
    requires Numbered(revisions, pages) && r.page < pages && r.number == MaxNumber(revisions, r.page) + 1
    ensures Numbered(revisions + [r], pages)
  {
    hide MaxNumber, CountOf;
    CountBoundsMax(revisions, pages, r.page);
    var more := revisions + [r];
    forall i | 0 <= i < |more|
      ensures more[..i] == revisions[..i]
    {
    }
    assert more[..|revisions|] == revisions;
  }

  // ---------------------------------------------------------------- one entry

  /** The entry fits the tables: its kind is its id's and the snapshot has no item for it yet. */
  ghost predicate Importable(t: Tables, e: Entry) {
    && e.kind == KindOfID(e.externalID) != UnknownKind
    && t.snapshots != []
    && var items := t.snapshots[|t.snapshots| - 1].items;
       forall i :: 0 <= i < |items| ==> items[i].entry.externalID != e.externalID
  }

  lemma NoItemYet(t: Tables, e: Entry, p: nat)
    requires Rows(t) && Importable(t, e) && p < |t.pages| && t.pages[p].externalID == e.externalID
    ensures !ItemFor(t.snapshots[|t.snapshots| - 1].items, p)
  {
    var last := |t.snapshots| - 1;
    forall i | 0 <= i < |t.snapshots[last].items|
      ensures t.snapshots[last].items[i].page != p
    {
      assert ItemFits(t.pages, t.revisions, t.snapshots[last].items[i]);
    }
  }

  lemma NoItemBeyond(t: Tables)
    requires Rows(t) && t.snapshots != []
    ensures !ItemFor(t.snapshots[|t.snapshots| - 1].items, |t.pages|)
  {
  }

  /** An importable entry is imported: neither a kind change nor a duplicate item can occur. */
  lemma EntryIsImported(t: Tables, e: Entry)
    requires Rows(t) && Importable(t, e)
    ensures ImportEntry(t, e).Committed?
  {
    hide KindOfID, PagesCurrent, Numbered, HashesDiffer, ItemsFit, AllCarried, LastIsListed, ItemFor;
    var found := PageNamed(t.pages, e.externalID);
    if found.Some? {
      NoItemYet(t, e, found.value);
    } else {
      NoItemBeyond(t);
    }
  }

  /** What one imported entry does to the tables, the upserted page being `p` and its revision `r`. */
  ghost predicate EntryStep(t: Tables, e: Entry, p: nat, r: nat, u: Tables) {
    && t.snapshots != [] && |u.snapshots| == |t.snapshots| && u.current == t.current && u.repository == t.repository
    && var last := |t.snapshots| - 1;
       && u.snapshots == t.snapshots[last := t.snapshots[last].(items := t.snapshots[last].items + [Item(p, r, e)])]
       && !ItemFor(t.snapshots[last].items, p)
       && p < |u.pages| && u.pages[p] == Page(e.externalID, e.kind, Some(r), false)
       && (if p < |t.pages| then u.pages == t.pages[p := u.pages[p]] && t.pages[p].externalID == e.externalID && t.pages[p].kind == e.kind
           else u.pages == t.pages + [u.pages[p]] && p == |t.pages| && PageNamed(t.pages, e.externalID).None?)
       && r < |u.revisions| && u.revisions[r].page == p && u.revisions[r].hash == e.businessHash
       && (if r < |t.revisions| then u.revisions == t.revisions
           else r == |t.revisions| && RevisionWith(t.revisions, p, e.businessHash).None?
                && u.revisions == t.revisions + [Revision(p, MaxNumber(t.revisions, p) + 1, e.businessHash, e)])
  }

  lemma EntryStepOf(t: Tables, e: Entry) returns (p: nat, r: nat)
    requires t.snapshots != [] && ImportEntry(t, e).Committed?
    ensures EntryStep(t, e, p, r, ImportEntry(t, e).tables)
  {
    hide MaxNumber, ItemFor;
    p := Upserted(t.pages, e).1;
    r := Revised(t.revisions, p, e).1;
  }

  lemma StepKeepsNames(t: Tables, e: Entry, p: nat, r: nat, u: Tables)
    requires PagesNamed(t.pages) && EntryStep(t, e, p, r, u) && e.kind == KindOfID(e.externalID) != UnknownKind
    ensures PagesNamed(u.pages)
  {
    hide KindOfID, MaxNumber;
  }

  lemma StepKeepsRevisions(t: Tables, e: Entry, p: nat, r: nat, u: Tables)
    requires Numbered(t.revisions, |t.pages|) && HashesDiffer(t.revisions) && PagesCurrent(t.pages, t.revisions) && EntryStep(t, e, p, r, u)
    ensures Numbered(u.revisions, |u.pages|) && HashesDiffer(u.revisions) && PagesCurrent(u.pages, u.revisions)
  {
    hide MaxNumber, CountOf, ItemFor;
    assert Numbered(t.revisions, |u.pages|);
    if r == |t.revisions| {
      NumberedOneMore(t.revisions, |u.pages|, u.revisions[r]);
    }
  }

  lemma StepKeepsItems(t: Tables, e: Entry, p: nat, r: nat, u: Tables)
    requires ItemsFit(t) && EntryStep(t, e, p, r, u)
    ensures ItemsFit(u)
  {
    hide MaxNumber, ItemFor;
    forall k, i | 0 <= k < |u.snapshots| && 0 <= i < |u.snapshots[k].items|
      ensures ItemFits(u.pages, u.revisions, u.snapshots[k].items[i])
    {
      if i < |t.snapshots[k].items| {
        assert u.snapshots[k].items[i] == t.snapshots[k].items[i];
        assert ItemFits(t.pages, t.revisions, t.snapshots[k].items[i]);
      }
    }
  }

  lemma StepKeepsCarried(t: Tables, e: Entry, p: nat, r: nat, u: Tables)
    requires AllCarried(t) && EntryStep(t, e, p, r, u)
    ensures AllCarried(u)
  {
    hide MaxNumber, ItemFor;
    var last := |t.snapshots| - 1;
    forall q | 0 <= q < |u.revisions|
      ensures Carried(u, q)
    {
      if q < |t.revisions| {
        assert Carried(t, q);
        var k, i :| 0 <= k < |t.snapshots| && 0 <= i < |t.snapshots[k].items|
          && t.snapshots[k].items[i] == Item(t.revisions[q].page, q, t.revisions[q].entry);
        assert u.snapshots[k].items[i] == t.snapshots[k].items[i];
      } else {
        assert u.snapshots[last].items[|t.snapshots[last].items|] == Item(p, r, e);
      }
    }
  }

  lemma ItemForOneMore(items: seq<Item>, item: Item, p: nat)
    ensures ItemFor(items + [item], p) <==> ItemFor(items, p) || p == item.page
  {
    if ItemFor(items, p) {
      var i :| 0 <= i < |items| && items[i].page == p;
      assert (items + [item])[i].page == p;
    }
    assert (items + [item])[|items|] == item;
  }

  lemma StepKeepsListing(t: Tables, e: Entry, p: nat, r: nat, u: Tables)
    requires LastIsListed(t) && EntryStep(t, e, p, r, u)
    ensures LastIsListed(u)
  {
    hide MaxNumber;
    var last := |t.snapshots| - 1;
    var items, item := t.snapshots[last].items, Item(p, r, e);
    assert u.snapshots[last].items == items + [item];
    ListsOneMore(t.pages, items, item, u.pages);
  }

  lemma ListsOneMore(pages: seq<Page>, items: seq<Item>, item: Item, more: seq<Page>)
    requires Lists(pages, items) && !ItemFor(items, item.page) && item.page < |more|
    requires !more[item.page].archived && more[item.page].current == Some(item.revision)
    requires if item.page < |pages| then more == pages[item.page := more[item.page]] else more == pages + [more[item.page]]
    ensures Lists(more, items + [item])
  {
    hide ItemFor;
    forall p | 0 <= p < |more|
      ensures !more[p].archived <==> ItemFor(items + [item], p)
    {
      ItemForOneMore(items, item, p);
    }
    forall i | 0 <= i < |items|
      ensures items[i].page != item.page
    {
      ItemOfPage(items, i);
    }
  }

  lemma ItemOfPage(items: seq<Item>, i: nat)
    requires i < |items|
    ensures ItemFor(items, items[i].page)
  {
  }

  lemma StepKeepsRows(t: Tables, e: Entry, p: nat, r: nat, u: Tables)
    requires Rows(t) && EntryStep(t, e, p, r, u) && e.kind == KindOfID(e.externalID) != UnknownKind
    ensures Rows(u)
  {
    hide KindOfID, PagesNamed, PagesCurrent, Numbered, HashesDiffer, ItemsFit, AllCarried, LastIsListed, EntryStep;
    StepKeepsNames(t, e, p, r, u);
    StepKeepsRevisions(t, e, p, r, u);
    StepKeepsItems(t, e, p, r, u);
    StepKeepsCarried(t, e, p, r, u);
    StepKeepsListing(t, e, p, r, u);
  }

  // ---------------------------------------------------------------- all entries

  /** Rows are only added, and what identifies a page or revision never changes. */
  ghost predicate Extends(t: Tables, u: Tables) {
    && t.repository == u.repository
    && |t.pages| <= |u.pages| && t.revisions <= u.revisions && |t.snapshots| <= |u.snapshots|
    && (forall p :: 0 <= p < |t.pages| ==> u.pages[p].externalID == t.pages[p].externalID && u.pages[p].kind == t.pages[p].kind)
    && (forall k :: 0 <= k < |t.snapshots| - 1 ==> u.snapshots[k] == t.snapshots[k])
  }

  ghost predicate ImportsTo(t: Tables, entries: seq<Entry>, u: Tables) {
    && t.snapshots != [] && |u.snapshots| == |t.snapshots| && u.current == t.current && Extends(t, u) && Rows(u)
    && var last := |t.snapshots| - 1;
       u.snapshots[last] == t.snapshots[last].(items := u.snapshots[last].items)
       && Map(u.snapshots[last].items, EntryOf) == entries
  }

  lemma NextIsImportable(t: Tables, entries: seq<Entry>, n: nat, u: Tables)
    requires n < |entries| && Increasing(entries, ExternalID) && ImportsTo(t, entries[..n], u)
    requires entries[n].kind == KindOfID(entries[n].externalID) != UnknownKind
    ensures Importable(u, entries[n])
  {
    hide KindOfID, Rows, Extends;
    IncreasingIsDistinct(entries, ExternalID);
    var items := u.snapshots[|u.snapshots| - 1].items;
    forall i | 0 <= i < |items|
      ensures items[i].entry.externalID != entries[n].externalID
    {
      assert Map(items, EntryOf)[i] == entries[..n][i];
      assert ExternalID(entries[i]) != ExternalID(entries[n]);
    }
  }

  lemma ImportsOneMore(t: Tables, entries: seq<Entry>, n: nat, u: Tables, p: nat, r: nat, v: Tables)
    requires n < |entries| && ImportsTo(t, entries[..n], u) && EntryStep(u, entries[n], p, r, v) && Rows(v)
    ensures ImportsTo(t, entries[..n + 1], v)
  {
    hide Rows, MaxNumber, ItemFor;
    var last := |t.snapshots| - 1;
    assert Map(v.snapshots[last].items, EntryOf) == Map(u.snapshots[last].items, EntryOf) + [entries[n]];
    assert entries[..n + 1] == entries[..n] + [entries[n]];
  }

  /** A catalogue's entries are all imported, in order, whatever the tables held before. */
  lemma {:induction false} EntriesAreImported(t: Tables, entries: seq<Entry>, n: nat)
    requires n <= |entries| && Increasing(entries, ExternalID)
    requires forall e :: e in entries ==> e.kind == KindOfID(e.externalID) != UnknownKind
    requires Rows(t) && t.snapshots != [] && t.snapshots[|t.snapshots| - 1].items == []
    ensures var r := ImportEntries(t, entries[..n]); r.Committed? && ImportsTo(t, entries[..n], r.tables)
  {
    hide KindOfID, Rows, ImportEntry, EntryStep, Importable, Increasing;
    if n == 0 {
      assert entries[..0] == [];
    } else {
      EntriesAreImported(t, entries, n - 1);
      assert entries[..n][..n - 1] == entries[..n - 1];
      var u := ImportEntries(t, entries[..n - 1]).tables;
      NextIsImportable(t, entries, n - 1, u);
      EntryIsImported(u, entries[n - 1]);
      var p, r := EntryStepOf(u, entries[n - 1]);
      StepKeepsRows(u, entries[n - 1], p, r, ImportEntry(u, entries[n - 1]).tables);
      ImportsOneMore(t, entries, n - 1, u, p, r, ImportEntry(u, entries[n - 1]).tables);
    }
  }

  // ---------------------------------------------------------------- a whole snapshot

  lemma BegunRows(t: Tables, s: Snapshot)
    requires Rows(t) && s.publication.runID.Some?
    ensures Rows(Begun(t, s))
  {
    hide KindOfID, CountOf;
    var u := Begun(t, s);
    forall r | 0 <= r < |u.revisions|
      ensures Carried(u, r)
    {
      assert Carried(t, r);
      var k, i :| 0 <= k < |t.snapshots| && 0 <= i < |t.snapshots[k].items|
        && t.snapshots[k].items[i] == Item(t.revisions[r].page, r, t.revisions[r].entry);
      assert u.snapshots[k] == t.snapshots[k];
    }
    forall k, i | 0 <= k < |u.snapshots| && 0 <= i < |u.snapshots[k].items|
      ensures ItemFits(u.pages, u.revisions, u.snapshots[k].items[i])
    {
      assert u.snapshots[k] == t.snapshots[k];
      assert ItemFits(t.pages, t.revisions, t.snapshots[k].items[i]);
    }
  }

  /** Every earlier row came before the last one. */
  lemma NewRunIsUnknown(lib: Library, t: Tables, run: int, attempt: int)
    requires Invariant(lib, t)
    requires t.current.Some? ==> RunBefore(t.snapshots[t.current.value].runID, t.snapshots[t.current.value].runAttempt, run, attempt)
    ensures !KnownRun(t.snapshots, run, attempt)
    ensures forall k :: 0 <= k < |t.snapshots| ==> RunBefore(t.snapshots[k].runID, t.snapshots[k].runAttempt, run, attempt)
  {
    hide Rows, AllComplete;
  }

  /** The run of a snapshot is newer than the last imported one. */
  predicate IsNewer(t: Tables, s: Snapshot)
    requires s.publication.runID.Some?
    requires t.current.Some? ==> t.current.value < |t.snapshots|
  {
    t.current.Some? ==> RunBefore(t.snapshots[t.current.value].runID, t.snapshots[t.current.value].runAttempt,
                                  s.publication.runID.value, s.publication.runAttempt)
  }

  lemma CatalogueIsImported(lib: Library, t: Tables, s: Snapshot)
    requires Rows(t) && Acceptable(lib, s) && s.publication.runID.Some?
    ensures var b, entries := Begun(t, s), CatalogueOf(lib, s);
            ImportEntries(b, entries).Committed? && ImportsTo(b, entries, ImportEntries(b, entries).tables)
  {
    hide Acceptable, CatalogueOf, Rows, Increasing, KindOfID, ImportEntries;
    BegunRows(t, s);
    CatalogueIsWellFormed(lib, s);
    var entries := CatalogueOf(lib, s);
    EntriesAreImported(Begun(t, s), entries, |entries|);
    assert entries[..|entries|] == entries;
  }

  lemma NewSnapshotIsImported(lib: Library, t: Tables, s: Snapshot)
    requires Invariant(lib, t) && Eligible(s) && Acceptable(lib, s) && IsNewer(t, s)
    ensures var r := ImportNew(t, s, CatalogueOf(lib, s));
            && r.Committed? && Invariant(lib, r.tables) && Extends(t, r.tables)
            && |r.tables.snapshots| == |t.snapshots| + 1 && r.tables.snapshots[|t.snapshots|].snapshot == s
            && r.tables.snapshots[..|t.snapshots|] == t.snapshots
  {
    hide Acceptable, CatalogueOf, Rows, Complete, Eligible, KnownRun, Increasing, KindOfID, Extends;
    EligibleHasRun(s);
    NewRunIsUnknown(lib, t, s.publication.runID.value, s.publication.runAttempt);
    var entries, b := CatalogueOf(lib, s), Begun(t, s);
    CatalogueIsImported(lib, t, s);
    hide Invariant, ImportEntries, ImportsTo, Begun;
    ImportedIsKept(lib, t, s, ImportEntries(b, entries).tables);
  }

  lemma EligibleHasRun(s: Snapshot)
    requires Eligible(s)
    ensures s.publication.runID.Some?
  {
  }

  lemma ImportedIsKept(lib: Library, t: Tables, s: Snapshot, u: Tables)
    requires Invariant(lib, t) && Eligible(s) && Acceptable(lib, s) && s.publication.runID.Some?
    requires forall k :: 0 <= k < |t.snapshots| ==>
               RunBefore(t.snapshots[k].runID, t.snapshots[k].runAttempt, s.publication.runID.value, s.publication.runAttempt)
    requires ImportsTo(Begun(t, s), CatalogueOf(lib, s), u)
    ensures var v := u.(current := Some(|u.snapshots| - 1));
            && Invariant(lib, v) && Extends(t, v) && |v.snapshots| == |t.snapshots| + 1
            && v.snapshots[|t.snapshots|].snapshot == s && v.snapshots[..|t.snapshots|] == t.snapshots
  {
    hide Acceptable, CatalogueOf, Eligible, PagesNamed, PagesCurrent, Numbered, HashesDiffer, ItemsFit, AllCarried, LastIsListed;
    var b, v, n := Begun(t, s), u.(current := Some(|u.snapshots| - 1)), |t.snapshots|;
    assert forall k :: 0 <= k < n ==> v.snapshots[k] == b.snapshots[k] == t.snapshots[k];
    assert Complete(lib, v.snapshots[n]);
    CurrentPlaysNoPart(u, v);
    assert RunsIncrease(v.snapshots);
  }

  lemma CurrentPlaysNoPart(u: Tables, v: Tables)
    requires Rows(u) && v == u.(current := v.current)
    ensures Rows(v)
  {
    hide KindOfID, CountOf;
    forall r | 0 <= r < |v.revisions|
      ensures Carried(v, r)
    {
      assert Carried(u, r);
    }
  }

  // ---------------------------------------------------------------- theorems about one import

  lemma CurrentExists(lib: Library, t: Tables)
    requires Invariant(lib, t)
    ensures t.current.Some? ==> t.current.value < |t.snapshots|
  {
  }

  predicate SameRun(t: Tables, s: Snapshot)
    requires s.publication.runID.Some?
    requires t.current.Some? ==> t.current.value < |t.snapshots|
  {
    && t.current.Some?
    && t.snapshots[t.current.value].runID == s.publication.runID.value
    && t.snapshots[t.current.value].runAttempt == s.publication.runAttempt
  }

  /** When an import commits: the snapshot is eligible and acceptable evidence from the workspace's
      repository, and is either of a newer run than the last one or the last one itself. */
  lemma ImportSucceedsIff(lib: Library, t: Tables, s: Snapshot)
    requires Invariant(lib, t)
    ensures Import(lib, t, s).Committed? <==>
              && Eligible(s) && Acceptable(lib, s) && t.repository == Some(s.source.repository)
              && (IsNewer(t, s) || (SameRun(t, s) && t.snapshots[t.current.value].snapshot == s))
  {
    hide Acceptable, CatalogueOf, Rows, AllComplete, RunsIncrease, ImportNew, Eligible;
    if Eligible(s) && Acceptable(lib, s) {
      EligibleHasRun(s);
      if IsNewer(t, s) {
        NewSnapshotIsImported(lib, t, s);
      }
    }
  }

  /** An import either keeps the invariant and only adds rows, or commits nothing; importing the
      last snapshot again changes no row. */
  lemma ImportKeepsInvariant(lib: Library, t: Tables, s: Snapshot)
    requires Invariant(lib, t) && Import(lib, t, s).Committed?
    ensures var u := Import(lib, t, s).tables;
            && Invariant(lib, u) && Extends(t, u)
            && (if SameRun(t, s) then u == t
                else u.snapshots[..|t.snapshots|] == t.snapshots && |u.snapshots| == |t.snapshots| + 1
                     && u.snapshots[|t.snapshots|].snapshot == s)
  {
    hide Acceptable, CatalogueOf, Rows, AllComplete, RunsIncrease, ImportNew, Eligible;
    ImportSucceedsIff(lib, t, s);
    EligibleHasRun(s);
    if IsNewer(t, s) {
      NewSnapshotIsImported(lib, t, s);
    }
  }

  predicate Earlier(run: int, attempt: int, row: SnapshotRow) {
    run < row.runID || (run == row.runID && attempt < row.runAttempt)
  }

  /** What an import answers, and when: a snapshot that is no build of the main branch, then one whose
      fields do not say what its content says, then one for no or another repository; then one of an
      earlier run than the last row, or of the same run with other content. All others commit. */
  lemma ImportOutcome(lib: Library, t: Tables, s: Snapshot)
    requires Invariant(lib, t)
    ensures var r, last, run, attempt := Import(lib, t, s), |t.snapshots| - 1, s.publication.runID, s.publication.runAttempt;
            if !IsMainBuild(s) then r == Rejected(Ineligible)
            else if !Accepted(lib, s) then r == Rejected(Unacceptable)
            else if t.repository == None then r == Rejected(NotConfigured)
            else if t.repository != Some(s.source.repository) then r == Rejected(OtherRepository)
            else if last >= 0 && Earlier(run.value, attempt, t.snapshots[last]) then r == Rejected(Stale)
            else if last >= 0 && run.value == t.snapshots[last].runID && attempt == t.snapshots[last].runAttempt then
              r == if t.snapshots[last].snapshot == s then Committed(t) else Rejected(ConflictingRun)
            else
              && r.Committed? && r.tables.repository == t.repository && |r.tables.snapshots| == |t.snapshots| + 1
              && r.tables.snapshots[..|t.snapshots|] == t.snapshots && r.tables.current == Some(|t.snapshots|)
              && r.tables.snapshots[|t.snapshots|].(items := []) == SnapshotRow(run.value, attempt, s, [])
  {
    EligibleIff(s);
    AcceptedIff(lib, s);
    hide Accepted, Acceptable, CatalogueOf, Rows, IsMainBuild, Eligible;
    if Eligible(s) && Acceptable(lib, s) {
      EligibleHasRun(s);
      if t.repository == Some(s.source.repository) && IsNewer(t, s) {
        ImportSucceedsIff(lib, t, s);
        ImportKeepsInvariant(lib, t, s);
        RowIsOf(lib, t, s);
        hide ImportNew;
      }
    }
  }

  lemma RowIsOf(lib: Library, t: Tables, s: Snapshot)
    requires Invariant(lib, t) && Eligible(s) && Acceptable(lib, s) && s.publication.runID.Some? && IsNewer(t, s)
    ensures var r := ImportNew(t, s, CatalogueOf(lib, s));
            && r.Committed? && r.tables.repository == t.repository && |r.tables.snapshots| == |t.snapshots| + 1
            && r.tables.snapshots[|t.snapshots|].runID == s.publication.runID.value
            && r.tables.snapshots[|t.snapshots|].runAttempt == s.publication.runAttempt
  {
    NewSnapshotIsImported(lib, t, s);
    var u := ImportNew(t, s, CatalogueOf(lib, s)).tables;
    assert Complete(lib, u.snapshots[|t.snapshots|]);
    hide Acceptable, CatalogueOf, Rows, Complete, Eligible, Invariant;
    EntriesKeepRepository(Begun(t, s), CatalogueOf(lib, s));
  }

  lemma {:induction false} EntriesKeepRepository(t: Tables, entries: seq<Entry>)
    requires t.snapshots != [] && ImportEntries(t, entries).Committed?
    ensures ImportEntries(t, entries).tables.repository == t.repository
  {
    if entries != [] {
      EntriesKeepRepository(t, entries[..|entries| - 1]);
    }
  }

  /** Every imported row is an accepted build of the main branch. */
  lemma RowsAreMainBuilds(lib: Library, t: Tables, k: nat)
    requires Invariant(lib, t) && k < |t.snapshots|
    ensures IsMainBuild(t.snapshots[k].snapshot) && Accepted(lib, t.snapshots[k].snapshot)
  {
    hide Accepted, Acceptable, IsMainBuild, Eligible, Rows, CatalogueOf;
    assert Complete(lib, t.snapshots[k]);
    EligibleIff(t.snapshots[k].snapshot);
    AcceptedIff(lib, t.snapshots[k].snapshot);
  }

  // ---------------------------------------------------------------- numbers and reuse

  lemma {:induction false} CountGrows(revisions: seq<Revision>, m: nat, n: nat, page: nat)
    requires m <= n <= |revisions|
    ensures CountOf(revisions[..m], page) <= CountOf(revisions[..n], page)
  {
    if m < n {
      CountGrows(revisions, m, n - 1, page);
      assert revisions[..n][..n - 1] == revisions[..n - 1];
    }
  }

  /** The revision with a given number of a page. */
  lemma {:induction false} NumberIsTaken(revisions: seq<Revision>, pages: nat, page: nat, number: nat) returns (r: nat)
    requires Numbered(revisions, pages) && 1 <= number <= CountOf(revisions, page)
    ensures r < |revisions| && revisions[r].page == page && revisions[r].number == number
  {
    var n := |revisions| - 1;
    if number <= CountOf(revisions[..n], page) {
      NumberedFront(revisions, n, pages);
      r := NumberIsTaken(revisions[..n], pages, page, number);
    } else {
      r := n;
    }
  }

  ghost predicate HasNumber(revisions: seq<Revision>, page: nat, number: nat) {
    exists r :: 0 <= r < |revisions| && revisions[r].page == page && revisions[r].number == number
  }

  /** A page's revisions are numbered 1 to n: every number up to their count is some revision's,
      no number is given twice, and no two revisions have the same business hash. */
  lemma RevisionsAreNumbered(lib: Library, t: Tables, page: nat)
    requires Invariant(lib, t)
    ensures forall r :: 0 <= r < |t.revisions| && t.revisions[r].page == page ==> 1 <= t.revisions[r].number <= CountOf(t.revisions, page)
    ensures forall number: nat :: 1 <= number <= CountOf(t.revisions, page) ==> HasNumber(t.revisions, page, number)
    ensures forall q, r | 0 <= q < r < |t.revisions| && t.revisions[q].page == t.revisions[r].page == page ::
              t.revisions[q].number < t.revisions[r].number && t.revisions[q].hash != t.revisions[r].hash
  {
    hide PagesNamed, PagesCurrent, ItemsFit, AllCarried, LastIsListed, AllComplete, RunsIncrease, CountOf;
    var all := t.revisions;
    forall r | 0 <= r < |all| && all[r].page == page
      ensures 1 <= all[r].number <= CountOf(all, page)
    {
      NumberWithin(all, |t.pages|, r, |all|);
      assert all[..|all|] == all;
    }
    forall number: nat | 1 <= number <= CountOf(all, page)
      ensures HasNumber(all, page, number)
    {
      var r := NumberIsTaken(all, |t.pages|, page, number);
    }
    forall q, r | 0 <= q < r < |all| && all[q].page == all[r].page == page
      ensures all[q].number < all[r].number
    {
      NumberWithin(all, |t.pages|, q, r);
    }
  }

  lemma NumberWithin(revisions: seq<Revision>, pages: nat, q: nat, n: nat)
    requires Numbered(revisions, pages) && q < n <= |revisions|
    ensures revisions[q].number <= CountOf(revisions[..n], revisions[q].page)
  {
    CountGrows(revisions, q + 1, n, revisions[q].page);
    assert revisions[..q + 1][..q] == revisions[..q];
  }

  /** The page is known and already has a revision with the entry's hash. */
  ghost predicate Known(t: Tables, e: Entry) {
    exists p, r :: 0 <= p < |t.pages| && t.pages[p].externalID == e.externalID
      && 0 <= r < |t.revisions| && t.revisions[r].page == p && t.revisions[r].hash == e.businessHash
  }

  lemma KnownNeedsNoRevision(t: Tables, e: Entry, p: nat, r: nat, u: Tables)
    requires PagesNamed(t.pages) && Known(t, e) && EntryStep(t, e, p, r, u)
    ensures u.revisions == t.revisions
  {
    hide MaxNumber, KindOfID, ItemFor;
  }

  lemma KnownStays(t: Tables, u: Tables, e: Entry)
    requires Extends(t, u) && Known(t, e)
    ensures Known(u, e)
  {
    var p, r :| 0 <= p < |t.pages| && t.pages[p].externalID == e.externalID
      && 0 <= r < |t.revisions| && t.revisions[r].page == p && t.revisions[r].hash == e.businessHash;
    assert u.pages[p].externalID == e.externalID && u.revisions[r] == t.revisions[r];
  }

  lemma {:induction false} KnownEntriesAddNothing(t: Tables, entries: seq<Entry>, n: nat)
    requires n <= |entries| && Increasing(entries, ExternalID)
    requires forall e :: e in entries ==> e.kind == KindOfID(e.externalID) != UnknownKind && Known(t, e)
    requires Rows(t) && t.snapshots != [] && t.snapshots[|t.snapshots| - 1].items == []
    ensures var r := ImportEntries(t, entries[..n]); r.Committed? && r.tables.revisions == t.revisions
  {
    hide KindOfID, ImportEntry, EntryStep, Importable, Increasing, Known, PagesCurrent, Numbered, HashesDiffer, ItemsFit, AllCarried, LastIsListed, Extends;
    EntriesAreImported(t, entries, n);
    if n == 0 {
      assert entries[..0] == [];
    } else {
      EntriesAreImported(t, entries, n - 1);
      KnownEntriesAddNothing(t, entries, n - 1);
      assert entries[..n][..n - 1] == entries[..n - 1];
      var u := ImportEntries(t, entries[..n - 1]).tables;
      KnownStays(t, u, entries[n - 1]);
      var p, r := EntryStepOf(u, entries[n - 1]);
      KnownNeedsNoRevision(u, entries[n - 1], p, r, ImportEntry(u, entries[n - 1]).tables);
    }
  }

  lemma ImportedIsKnown(lib: Library, t: Tables, k: nat, e: Entry)
    requires Invariant(lib, t) && k < |t.snapshots| && e in CatalogueOf(lib, t.snapshots[k].snapshot)
    ensures Known(t, e)
  {
    hide PagesNamed, PagesCurrent, Numbered, HashesDiffer, AllCarried, LastIsListed, RunsIncrease, CatalogueOf, Acceptable, Eligible;
    assert Complete(lib, t.snapshots[k]);
    var items := t.snapshots[k].items;
    var i :| 0 <= i < |items| && Map(items, EntryOf)[i] == e;
    assert ItemFits(t.pages, t.revisions, items[i]);
  }

  /** Going back to content that some earlier snapshot had, entry by entry and hash by hash, makes
      no new revision, however many other snapshots came in between. */
  lemma OldContentAddsNoRevision(lib: Library, t: Tables, s: Snapshot)
    requires Invariant(lib, t) && Import(lib, t, s).Committed?
    requires forall e :: e in CatalogueOf(lib, s) ==> SeenBefore(lib, t, e)
    ensures Import(lib, t, s).tables.revisions == t.revisions
  {
    hide Acceptable, CatalogueOf, Rows, AllComplete, RunsIncrease, Eligible, KnownRun, KindOfID, Increasing, Known, WellFormed;
    ImportSucceedsIff(lib, t, s);
    EligibleHasRun(s);
    if IsNewer(t, s) {
      NewRunIsUnknown(lib, t, s.publication.runID.value, s.publication.runAttempt);
      BegunRows(t, s);
      var entries, b := CatalogueOf(lib, s), Begun(t, s);
      CatalogueIsSorted(lib, s);
      forall e | e in entries
        ensures Known(b, e)
      {
        SeenIsKnown(lib, t, e);
        KnownStays(t, b, e);
      }
      KnownEntriesAddNothing(b, entries, |entries|);
      assert entries[..|entries|] == entries;
    }
  }

  ghost predicate SeenBefore(lib: Library, t: Tables, e: Entry) {
    exists k, f :: 0 <= k < |t.snapshots| && f in CatalogueOf(lib, t.snapshots[k].snapshot)
      && f.externalID == e.externalID && f.businessHash == e.businessHash
  }

  lemma SeenIsKnown(lib: Library, t: Tables, e: Entry)
    requires Invariant(lib, t) && SeenBefore(lib, t, e)
    ensures Known(t, e)
  {
    hide Invariant, CatalogueOf;
    var k, f :| 0 <= k < |t.snapshots| && f in CatalogueOf(lib, t.snapshots[k].snapshot)
      && f.externalID == e.externalID && f.businessHash == e.businessHash;
    ImportedIsKnown(lib, t, k, f);
  }

  lemma CatalogueIsSorted(lib: Library, s: Snapshot)
    requires Acceptable(lib, s)
    ensures Increasing(CatalogueOf(lib, s), ExternalID)
    ensures forall e :: e in CatalogueOf(lib, s) ==> e.kind == KindOfID(e.externalID) != UnknownKind
  {
    hide Acceptable, CatalogueOf, Increasing, KindOfID;
    CatalogueIsWellFormed(lib, s);
  }

  // ---------------------------------------------------------------- runs of imports

  /** The tables after a series of imports, rejected ones included. */
  ghost function Imports(lib: Library, t: Tables, snapshots: seq<Snapshot>): Tables
    requires Invariant(lib, t)
    ensures Invariant(lib, Imports(lib, t, snapshots))
  {
    if snapshots == [] then t
    else
      var before := Imports(lib, t, snapshots[..|snapshots| - 1]);
      CurrentExists(lib, before);
      match Import(lib, before, snapshots[|snapshots| - 1])
      case Committed(u) => ImportKeepsInvariant(lib, before, snapshots[|snapshots| - 1]); u
      case Rejected(_) => before
  }

  /** Over any run of imports no page, revision or snapshot row is lost or changed. */
  lemma {:induction false} NothingIsLost(lib: Library, t: Tables, snapshots: seq<Snapshot>)
    requires Invariant(lib, t)
    ensures var u := Imports(lib, t, snapshots);
            Extends(t, u) && t.snapshots <= u.snapshots
  {
    hide Invariant, Import;
    if snapshots != [] {
      var front, last := snapshots[..|snapshots| - 1], snapshots[|snapshots| - 1];
      var before := Imports(lib, t, front);
      NothingIsLost(lib, t, front);
      CurrentExists(lib, before);
      if Import(lib, before, last).Committed? {
        ImportKeepsInvariant(lib, before, last);
        var u := Import(lib, before, last).tables;
        assert before.snapshots <= u.snapshots;
      }
    }
  }
}
