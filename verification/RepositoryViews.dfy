/** The read paths over an imported catalogue: the page listing, a page's versions and its detail. */
module RepositoryViews {
  import opened GoStrings
  import opened Options
  import opened Collections
  import opened Snapshots
  import opened Catalogues
  import opened BusinessIdentity
  import opened RepositoryStore
  import opened RepositoryImports

  /** `source` is the snapshot the entry was taken from; `parent` is a page row. */
  datatype PageView = PageView(
    page: nat, slug: GoString, title: GoString, kind: Kind, revision: Option<nat>, parent: Option<nat>, source: nat, path: GoString)

  datatype Version = Version(revision: nat, number: nat, title: GoString, source: nat, path: GoString)

  datatype Detail = Detail(
    page: nat, slug: GoString, title: GoString, kind: Kind, revision: Option<nat>, parent: Option<nat>, archived: bool,
    version: Option<Version>, history: seq<Version>, children: seq<nat>)

  // ---------------------------------------------------------------- the listing

  function ItemOf(items: seq<Item>, page: nat): (r: Option<Item>)
    ensures r.Some? ==> r.value in items && r.value.page == page
    ensures r.None? <==> !ItemFor(items, page)
  {
    if items == [] then None
    else if items[|items| - 1].page == page then Some(items[|items| - 1])
    else
      var r := ItemOf(items[..|items| - 1], page);
      assert items == items[..|items| - 1] + [items[|items| - 1]];
      assert ItemFor(items[..|items| - 1], page) <==> ItemFor(items, page) by {
        ItemForOneMore(items[..|items| - 1], items[|items| - 1], page);
      }
      r
  }

  predicate Defined(t: Tables) {
    t.current.Some? ==> t.current.value < |t.snapshots|
  }

  /** The row of the listing query for a page, if it is listed: the page is not archived and the
      current snapshot has an entry for it. */
  function Listed(t: Tables, p: nat): Option<Item>
    requires Defined(t)
  {
    if p >= |t.pages| || t.current.None? || t.pages[p].archived then None
    else ItemOf(t.snapshots[t.current.value].items, p)
  }

  /** The listed page with an external id. */
  function ListedNamed(t: Tables, id: GoString): Option<nat>
    requires Defined(t)
  {
    match PageNamed(t.pages, id)
    case Some(p) => if Listed(t, p).Some? then Some(p) else None
    case None => None
  }

  function ViewOf(t: Tables, p: nat): PageView
    requires Defined(t) && p < |t.pages| && Listed(t, p).Some?
  {
    var e := Listed(t, p).value.entry;
    PageView(p, e.externalID, e.title, t.pages[p].kind, t.pages[p].current, ListedNamed(t, e.parentID), t.current.value, e.path)
  }

  /** The pages listed, in the order the database's collation gives them. */
  function ListingIn(t: Tables, collated: seq<nat>, kind: Option<Kind>): seq<PageView>
    requires Defined(t)
  {
    if collated == [] then []
    else
      var p, before := collated[|collated| - 1], ListingIn(t, collated[..|collated| - 1], kind);
      if Listed(t, p).Some? && (kind.None? || t.pages[p].kind == kind.value) then before + [ViewOf(t, p)] else before
  }

  /** The rows of a table in some order, each once. */
  ghost predicate Collates(collated: seq<nat>, n: nat) {
    Distinct(collated) && forall p: nat :: p in collated <==> p < n
  }

  lemma {:induction false} InListing(t: Tables, collated: seq<nat>, kind: Option<Kind>, v: PageView)
    requires Defined(t)
    ensures v in ListingIn(t, collated, kind) <==>
              && v.page in collated && Listed(t, v.page).Some? && v == ViewOf(t, v.page)
              && (kind.None? || v.kind == kind.value)
  {
    if collated != [] {
      var n := |collated| - 1;
      InListing(t, collated[..n], kind, v);
      assert collated == collated[..n] + [collated[n]];
    }
  }

  // ---------------------------------------------------------------- the listing is the last catalogue

  lemma LastItem(lib: Library, t: Tables, i: nat)
    requires Invariant(lib, t) && t.current.Some? && i < |t.snapshots[t.current.value].items|
    ensures var item := t.snapshots[t.current.value].items[i];
            && ItemFits(t.pages, t.revisions, item) && Listed(t, item.page) == Some(item)
            && t.pages[item.page].current == Some(item.revision)
            && CatalogueOf(lib, t.snapshots[t.current.value].snapshot)[i] == item.entry
  {
    hide PagesNamed, PagesCurrent, Numbered, HashesDiffer, AllCarried, RunsIncrease, Acceptable, Eligible, CatalogueOf, ItemFits, Lists, Listed, ItemFor;
    var row := t.snapshots[t.current.value];
    assert Complete(lib, row);
    assert Map(row.items, EntryOf)[i] == row.items[i].entry;
    assert ItemFits(t.pages, t.revisions, row.items[i]);
    ItemIsListed(t, i);
  }

  lemma ItemIsListed(t: Tables, i: nat)
    requires Defined(t) && t.current.Some? && i < |t.snapshots[t.current.value].items|
    requires Lists(t.pages, t.snapshots[t.current.value].items)
    ensures var item := t.snapshots[t.current.value].items[i];
            item.page < |t.pages| && Listed(t, item.page) == Some(item) && t.pages[item.page].current == Some(item.revision)
  {
    var items := t.snapshots[t.current.value].items;
    ItemOfPage(items, i);
    var found := ItemOf(items, items[i].page).value;
    var j :| 0 <= j < |items| && items[j] == found;
  }

  lemma PageOf(lib: Library, t: Tables, e: Entry) returns (p: nat)
    requires Invariant(lib, t) && t.current.Some? && e in CatalogueOf(lib, t.snapshots[t.current.value].snapshot)
    ensures p < |t.pages| && Listed(t, p).Some? && Listed(t, p).value.entry == e && t.pages[p].externalID == e.externalID
    ensures t.pages[p].kind == e.kind && PageNamed(t.pages, e.externalID) == Some(p)
  {
    hide PagesCurrent, Numbered, HashesDiffer, AllCarried, RunsIncrease, Acceptable, Eligible, CatalogueOf, LastIsListed, KindOfID, Listed;
    var row := t.snapshots[t.current.value];
    assert Complete(lib, row);
    var i :| 0 <= i < |row.items| && Map(row.items, EntryOf)[i] == e;
    LastItem(lib, t, i);
    p := row.items[i].page;
  }

  lemma ListedEntry(lib: Library, t: Tables, p: nat)
    requires Invariant(lib, t) && Listed(t, p).Some?
    ensures t.current.Some? && p < |t.pages|
    ensures var item := Listed(t, p).value;
            && item.entry in CatalogueOf(lib, t.snapshots[t.current.value].snapshot)
            && ItemFits(t.pages, t.revisions, item) && item.page == p && t.pages[p].current == Some(item.revision)
            && Acceptable(lib, t.snapshots[t.current.value].snapshot)
  {
    hide PagesNamed, PagesCurrent, Numbered, HashesDiffer, AllCarried, RunsIncrease, Acceptable, Eligible, CatalogueOf, LastIsListed, ItemFits;
    var row := t.snapshots[t.current.value];
    assert Complete(lib, row);
    var i :| 0 <= i < |row.items| && row.items[i] == Listed(t, p).value;
    LastItem(lib, t, i);
  }

  lemma NotArchivedIsListed(lib: Library, t: Tables, p: nat)
    requires Invariant(lib, t) && p < |t.pages|
    ensures Listed(t, p).Some? <==> !t.pages[p].archived
  {
    hide PagesNamed, PagesCurrent, Numbered, HashesDiffer, ItemsFit, AllCarried, RunsIncrease, AllComplete;
  }

  /** A listed view says what the entry says, its parent resolved. */
  predicate Shows(t: Tables, v: PageView, e: Entry) {
    && v.slug == e.externalID && v.title == e.title && v.kind == e.kind && v.path == e.path
    && (if e.kind == ScenarioKind
        then v.parent.Some? && v.parent.value < |t.pages| && t.pages[v.parent.value].externalID == e.parentID
             && t.pages[v.parent.value].kind == FeatureKind && !t.pages[v.parent.value].archived
        else e.parentID == "" && v.parent.None?)
  }

  lemma ListedShows(lib: Library, t: Tables, p: nat)
    requires Invariant(lib, t) && Listed(t, p).Some?
    ensures p < |t.pages| && Shows(t, ViewOf(t, p), Listed(t, p).value.entry)
  {
    hide Rows, AllComplete, RunsIncrease, Acceptable, CatalogueOf, KindOfID, Increasing, Listed;
    ListedEntry(lib, t, p);
    var s, e := t.snapshots[t.current.value].snapshot, Listed(t, p).value.entry;
    CatalogueIsWellFormed(lib, s);
    if e.kind == ScenarioKind {
      assert HasParent(CatalogueOf(lib, s), e);
      var f :| f in CatalogueOf(lib, s) && f.kind == FeatureKind && f.externalID == e.parentID;
      var q := PageOf(lib, t, f);
      NotArchivedIsListed(lib, t, q);
    } else {
      NoParent(lib, t);
    }
  }

  lemma NoParent(lib: Library, t: Tables)
    requires Invariant(lib, t)
    ensures ListedNamed(t, "").None?
  {
    hide PagesCurrent, Numbered, HashesDiffer, ItemsFit, AllCarried, RunsIncrease, AllComplete, LastIsListed;
  }

  /** The listing shows a catalogue: one line for each entry, no other line. */
  ghost predicate ShowsAll(t: Tables, listing: seq<PageView>, catalogue: seq<Entry>) {
    && (forall e :: e in catalogue ==> exists v :: v in listing && Shows(t, v, e))
    && (forall v :: v in listing ==> exists e :: e in catalogue && Shows(t, v, e))
    && (forall v, w | v in listing && w in listing && v.slug == w.slug :: v == w)
  }

  /** After any series of imports the pages listed are exactly the entries of the last newly
      imported snapshot, one each, with their parents resolved to listed features. */
  lemma ListingIsLastCatalogue(lib: Library, t: Tables, collated: seq<nat>)
    requires Invariant(lib, t) && t.current.Some? && Collates(collated, |t.pages|)
    ensures ShowsAll(t, ListingIn(t, collated, None), CatalogueOf(lib, t.snapshots[t.current.value].snapshot))
  {
    hide Invariant, CatalogueOf, Shows, ListingIn, Listed;
    CurrentExists(lib, t);
    var catalogue, listing := CatalogueOf(lib, t.snapshots[t.current.value].snapshot), ListingIn(t, collated, None);
    forall e | e in catalogue
      ensures exists v :: v in listing && Shows(t, v, e)
    {
      var p := PageOf(lib, t, e);
      ListedShows(lib, t, p);
      InListing(t, collated, None, ViewOf(t, p));
      assert ViewOf(t, p) in listing;
    }
    forall v | v in listing
      ensures exists e :: e in catalogue && Shows(t, v, e)
    {
      InListing(t, collated, None, v);
      ListedEntry(lib, t, v.page);
      ListedShows(lib, t, v.page);
    }
    forall v, w | v in listing && w in listing && v.slug == w.slug
      ensures v == w
    {
      InListing(t, collated, None, v);
      InListing(t, collated, None, w);
      SameSlugSamePage(lib, t, v.page, w.page);
    }
  }

  /** Importing replaces the catalogue: whatever was listed before, a committed import leaves exactly
      the imported snapshot's entries listed. */
  lemma ImportReplacesCatalogue(lib: Library, t: Tables, s: Snapshot, collated: seq<nat>)
    requires Invariant(lib, t) && Import(lib, t, s).Committed? && Collates(collated, |Import(lib, t, s).tables.pages|)
    ensures var u := Import(lib, t, s).tables; Defined(u) && ShowsAll(u, ListingIn(u, collated, None), CatalogueOf(lib, s))
  {
    hide Invariant, Import, ListingIn, CatalogueOf, ShowsAll;
    CurrentExists(lib, t);
    ImportBecomesCurrent(lib, t, s);
    ListingIsLastCatalogue(lib, Import(lib, t, s).tables, collated);
  }

  lemma ImportBecomesCurrent(lib: Library, t: Tables, s: Snapshot)
    requires Invariant(lib, t) && Import(lib, t, s).Committed?
    ensures var u := Import(lib, t, s).tables;
            && Invariant(lib, u) && Defined(u) && u.current.Some?
            && CatalogueOf(lib, u.snapshots[u.current.value].snapshot) == CatalogueOf(lib, s)
  {
    hide Invariant, Import, CatalogueOf, Acceptable, Eligible, Extends;
    CurrentExists(lib, t);
    var u := Import(lib, t, s).tables;
    ImportSucceedsIff(lib, t, s);
    EligibleHasRun(s);
    ImportKeepsInvariant(lib, t, s);
    LastIsImported(lib, u);
    CurrentExists(lib, u);
  }

  lemma LastIsImported(lib: Library, t: Tables)
    requires Invariant(lib, t)
    ensures t.snapshots != [] ==> t.current == Some(|t.snapshots| - 1)
    ensures t.current.Some? ==> t.snapshots != []
  {
    hide Rows, AllComplete, RunsIncrease;
  }

  lemma SameSlugSamePage(lib: Library, t: Tables, p: nat, q: nat)
    requires Invariant(lib, t) && Listed(t, p).Some? && Listed(t, q).Some? && p < |t.pages| && q < |t.pages|
    requires ViewOf(t, p).slug == ViewOf(t, q).slug
    ensures p == q
  {
    hide Rows, AllComplete, RunsIncrease, CatalogueOf, Acceptable, Listed;
    ListedEntry(lib, t, p);
    ListedEntry(lib, t, q);
    NamesDiffer(lib, t, p, q);
  }

  lemma NamesDiffer(lib: Library, t: Tables, p: nat, q: nat)
    requires Invariant(lib, t) && p < |t.pages| && q < |t.pages|
    ensures t.pages[p].externalID == t.pages[q].externalID ==> p == q
  {
    hide PagesCurrent, Numbered, HashesDiffer, ItemsFit, AllCarried, RunsIncrease, AllComplete, LastIsListed, KindOfID;
  }

  // ---------------------------------------------------------------- versions

  function ItemAt(items: seq<Item>, revision: nat): (r: Option<Item>)
    ensures r.Some? ==> r.value in items && r.value.revision == revision
    ensures r.None? ==> forall item :: item in items ==> item.revision != revision
  {
    if items == [] then None
    else if items[|items| - 1].revision == revision then Some(items[|items| - 1])
    else
      assert items == items[..|items| - 1] + [items[|items| - 1]];
      ItemAt(items[..|items| - 1], revision)
  }

  /** The newest of the first `n` snapshots, by run and attempt, with an item for the revision. */
  function NewestWith(rows: seq<SnapshotRow>, n: nat, revision: nat): (r: Option<nat>)
    requires n <= |rows|
    ensures r.Some? ==> r.value < n && ItemAt(rows[r.value].items, revision).Some?
    ensures r.None? ==> forall k :: 0 <= k < n ==> ItemAt(rows[k].items, revision).None?
  {
    if n == 0 then None
    else
      var before := NewestWith(rows, n - 1, revision);
      if ItemAt(rows[n - 1].items, revision).None? then before
      else if before.Some? && RunBefore(rows[n - 1].runID, rows[n - 1].runAttempt, rows[before.value].runID, rows[before.value].runAttempt)
      then before
      else Some(n - 1)
  }

  /** A revision as `repositoryVersions` shows it; a revision without any snapshot is left out. */
  function VersionOf(t: Tables, r: nat): Option<Version>
    requires r < |t.revisions|
  {
    match NewestWith(t.snapshots, |t.snapshots|, r)
    case Some(k) =>
      var e := ItemAt(t.snapshots[k].items, r).value.entry;
      Some(Version(r, t.revisions[r].number, e.title, k, e.path))
    case None => None
  }

  /** Every revision has a version: some snapshot carries it. */
  lemma EveryRevisionHasAVersion(lib: Library, t: Tables, r: nat)
    requires Invariant(lib, t) && r < |t.revisions|
    ensures VersionOf(t, r).Some?
  {
    hide PagesNamed, PagesCurrent, Numbered, HashesDiffer, ItemsFit, RunsIncrease, AllComplete, LastIsListed;
    assert Carried(t, r);
    var k, i :| 0 <= k < |t.snapshots| && 0 <= i < |t.snapshots[k].items|
      && t.snapshots[k].items[i] == Item(t.revisions[r].page, r, t.revisions[r].entry);
    assert t.snapshots[k].items[i] in t.snapshots[k].items;
  }

  lemma LastIsNewest(rows: seq<SnapshotRow>, revision: nat)
    requires rows != [] && RunsIncrease(rows) && ItemAt(rows[|rows| - 1].items, revision).Some?
    ensures NewestWith(rows, |rows|, revision) == Some(|rows| - 1)
  {
  }

  // ---------------------------------------------------------------- detail

  function VersionsOf(t: Tables, page: nat, n: nat): seq<Version>
    requires n <= |t.revisions|
  {
    if n == 0 then []
    else
      var rest := VersionsOf(t, page, n - 1);
      if t.revisions[n - 1].page == page && VersionOf(t, n - 1).Some? then [VersionOf(t, n - 1).value] + rest else rest
  }

  function VersionNamed(versions: seq<Version>, revision: nat): Option<Version> {
    if versions == [] then None
    else if versions[|versions| - 1].revision == revision then Some(versions[|versions| - 1])
    else VersionNamed(versions[..|versions| - 1], revision)
  }

  /** The page row the stored entry's parent id names, archived or not. */
  function StoredParent(t: Tables, e: Entry): Option<nat> {
    if e.parentID == "" then None else PageNamed(t.pages, e.parentID)
  }

  function ParentIn(listing: seq<PageView>, parentID: GoString, stored: Option<nat>): Option<nat> {
    if listing == [] then stored
    else
      var v := listing[|listing| - 1];
      if v.slug == parentID then Some(v.page) else ParentIn(listing[..|listing| - 1], parentID, stored)
  }

  function ChildrenIn(listing: seq<PageView>, page: nat): seq<nat> {
    if listing == [] then []
    else
      var v, before := listing[|listing| - 1], ChildrenIn(listing[..|listing| - 1], page);
      if v.parent == Some(page) then before + [v.page] else before
  }

  /** `repositoryPageDetail`; a page without a current revision is not found. */
  function DetailOf(t: Tables, collated: seq<nat>, p: nat): Option<Detail>
    requires Defined(t)
  {
    if p >= |t.pages| || t.pages[p].current.None? || t.pages[p].current.value >= |t.revisions| then None
    else
      var page := t.pages[p];
      var e, listing := t.revisions[page.current.value].entry, ListingIn(t, collated, None);
      Some(Detail(p, e.externalID, e.title, page.kind, page.current, ParentIn(listing, e.parentID, StoredParent(t, e)), page.archived,
                  VersionNamed(VersionsOf(t, p, |t.revisions|), page.current.value), VersionsOf(t, p, |t.revisions|), ChildrenIn(listing, p)))
  }

  lemma {:induction false} ParentFound(listing: seq<PageView>, parentID: GoString, stored: Option<nat>)
    ensures var r := ParentIn(listing, parentID, stored);
            (exists v :: v in listing && v.slug == parentID && r == Some(v.page)) || ((forall v :: v in listing ==> v.slug != parentID) && r == stored)
  {
    if listing != [] {
      var n := |listing| - 1;
      ParentFound(listing[..n], parentID, stored);
      assert listing == listing[..n] + [listing[n]];
      if listing[n].slug != parentID {
        var r := ParentIn(listing[..n], parentID, stored);
        if v :| v in listing[..n] && v.slug == parentID && r == Some(v.page) {
          assert v in listing;
        }
      }
    }
  }

  lemma {:induction false} InVersions(t: Tables, page: nat, n: nat, r: nat)
    requires n <= |t.revisions| && r < n && t.revisions[r].page == page && VersionOf(t, r).Some?
    ensures VersionOf(t, r).value in VersionsOf(t, page, n)
    ensures forall v :: v in VersionsOf(t, page, n) ==> v.revision < n && VersionOf(t, v.revision) == Some(v)
  {
    hide VersionOf;
    VersionsAreVersions(t, page, n);
    if r < n - 1 {
      InVersions(t, page, n - 1, r);
    }
  }

  lemma {:induction false} VersionsAreVersions(t: Tables, page: nat, n: nat)
    requires n <= |t.revisions|
    ensures forall v :: v in VersionsOf(t, page, n) ==> v.revision < n && VersionOf(t, v.revision) == Some(v)
  {
    if n > 0 {
      VersionsAreVersions(t, page, n - 1);
    }
  }

  lemma {:induction false} VersionFound(versions: seq<Version>, v: Version)
    requires v in versions
    ensures var r := VersionNamed(versions, v.revision); r.Some? && r.value in versions && r.value.revision == v.revision
  {
    var n := |versions| - 1;
    if versions[n].revision != v.revision {
      var i :| 0 <= i < |versions| && versions[i] == v;
      assert versions[..n][i] == v;
      VersionFound(versions[..n], v);
    }
  }

  /** The current revision of every page is among its versions. */
  lemma CurrentRevisionIsFound(lib: Library, t: Tables, collated: seq<nat>, p: nat)
    requires Invariant(lib, t) && p < |t.pages|
    ensures var d := DetailOf(t, collated, p); d.Some? && d.value.version.Some? && d.value.version == VersionOf(t, t.pages[p].current.value)
  {
    hide PagesNamed, Numbered, HashesDiffer, ItemsFit, AllCarried, RunsIncrease, AllComplete, LastIsListed, VersionOf, ListingIn, ParentIn, ChildrenIn;
    var r := t.pages[p].current.value;
    EveryRevisionHasAVersion(lib, t, r);
    InVersions(t, p, |t.revisions|, r);
    VersionIsOf(t, r);
    VersionFound(VersionsOf(t, p, |t.revisions|), VersionOf(t, r).value);
  }

  lemma VersionIsOf(t: Tables, r: nat)
    requires r < |t.revisions| && VersionOf(t, r).Some?
    ensures VersionOf(t, r).value.revision == r
  {
  }

  /** The stored entry of a revision and the entry of any item at that revision agree. */
  lemma StoredEntryAgrees(lib: Library, t: Tables, k: nat, i: nat)
    requires Invariant(lib, t) && CollisionFree(lib) && ParsesNulFree(lib) && k < |t.snapshots| && i < |t.snapshots[k].items|
    ensures var item := t.snapshots[k].items[i];
            && item.revision < |t.revisions|
            && var stored := t.revisions[item.revision].entry;
               && stored.externalID == item.entry.externalID && stored.kind == item.entry.kind
               && stored.title == item.entry.title && stored.parentID == item.entry.parentID
  {
    hide PagesNamed, PagesCurrent, Numbered, HashesDiffer, RunsIncrease, LastIsListed, Acceptable, CatalogueOf, Eligible, CollisionFree, ParsesNulFree;
    var item := t.snapshots[k].items[i];
    assert ItemFits(t.pages, t.revisions, item);
    var r := item.revision;
    assert Carried(t, r);
    var m, j :| 0 <= m < |t.snapshots| && 0 <= j < |t.snapshots[m].items|
      && t.snapshots[m].items[j] == Item(t.revisions[r].page, r, t.revisions[r].entry);
    assert ItemFits(t.pages, t.revisions, t.snapshots[m].items[j]);
    assert Complete(lib, t.snapshots[k]) && Complete(lib, t.snapshots[m]);
    assert Map(t.snapshots[k].items, EntryOf)[i] == item.entry;
    assert Map(t.snapshots[m].items, EntryOf)[j] == t.revisions[r].entry;
    SameHashSameTitle(lib, t.snapshots[k].snapshot, t.snapshots[m].snapshot, item.entry, t.revisions[r].entry);
  }

  /** The detail of a listed page and its line in the listing say the same: slug, title, kind,
      revision and parent, and the revision shown comes from the current snapshot. */
  lemma DetailAgreesWithListing(lib: Library, t: Tables, collated: seq<nat>, p: nat)
    requires Invariant(lib, t) && CollisionFree(lib) && ParsesNulFree(lib) && Collates(collated, |t.pages|)
    requires p < |t.pages| && Listed(t, p).Some?
    ensures var d, v := DetailOf(t, collated, p), ViewOf(t, p);
            && d.Some? && d.value.slug == v.slug && d.value.title == v.title && d.value.kind == v.kind
            && d.value.revision == v.revision && d.value.parent == v.parent && !d.value.archived
            && d.value.version.Some? && d.value.version.value.source == v.source && d.value.version.value.path == v.path
            && d.value.version.value.title == v.title
  {
    CurrentExists(lib, t);
    hide Invariant, Listed, ViewOf, VersionsOf, ListingIn, ChildrenIn, VersionOf, CollisionFree, ParsesNulFree, CatalogueOf, StoredParent, ParentIn, VersionNamed;
    CurrentRevisionIsFound(lib, t, collated, p);
    ListedEntry(lib, t, p);
    NotArchivedIsListed(lib, t, p);
    ListedItem(lib, t, p);
    var i :| 0 <= i < |t.snapshots[t.current.value].items| && t.snapshots[t.current.value].items[i] == Listed(t, p).value;
    StoredEntryAgrees(lib, t, t.current.value, i);
    ParentAgrees(lib, t, collated, p, t.revisions[Listed(t, p).value.revision].entry);
    CurrentVersionIsLast(lib, t, i);
    ViewIs(t, p);
  }

  lemma ViewIs(t: Tables, p: nat)
    requires Defined(t) && p < |t.pages| && Listed(t, p).Some?
    ensures var e, v := Listed(t, p).value.entry, ViewOf(t, p);
            t.current.Some? && v.slug == e.externalID && v.title == e.title && v.kind == t.pages[p].kind && v.revision == t.pages[p].current
            && v.source == t.current.value && v.path == e.path && v.parent == ListedNamed(t, e.parentID)
  {
  }

  lemma ListedItem(lib: Library, t: Tables, p: nat)
    requires Invariant(lib, t) && Listed(t, p).Some?
    ensures t.current.Some? && t.current.value < |t.snapshots|
    ensures Listed(t, p).value in t.snapshots[t.current.value].items
  {
    hide Rows, AllComplete, RunsIncrease;
  }

  lemma ParentAgrees(lib: Library, t: Tables, collated: seq<nat>, p: nat, e: Entry)
    requires Invariant(lib, t) && Collates(collated, |t.pages|) && p < |t.pages| && Listed(t, p).Some?
    requires e.parentID == Listed(t, p).value.entry.parentID
    ensures ParentIn(ListingIn(t, collated, None), e.parentID, StoredParent(t, e)) == ListedNamed(t, e.parentID)
  {
    hide Invariant, Listed, ListingIn, ParentIn, Collates;
    CurrentExists(lib, t);
    var listing := ListingIn(t, collated, None);
    ListedShows(lib, t, p);
    ViewIs(t, p);
    ParentFound(listing, e.parentID, StoredParent(t, e));
    NamedIsListed(lib, t, collated, e.parentID);
  }

  /** The listing shows a page under an id exactly when that id's page is listed. */
  lemma NamedIsListed(lib: Library, t: Tables, collated: seq<nat>, id: GoString)
    requires Invariant(lib, t) && Collates(collated, |t.pages|)
    ensures forall v :: v in ListingIn(t, collated, None) && v.slug == id ==> ListedNamed(t, id) == Some(v.page)
    ensures ListedNamed(t, id).Some? ==> exists v :: v in ListingIn(t, collated, None) && v.slug == id
  {
    hide Invariant, Listed, ListingIn;
    CurrentExists(lib, t);
    forall v | v in ListingIn(t, collated, None) && v.slug == id
      ensures ListedNamed(t, id) == Some(v.page)
    {
      InListing(t, collated, None, v);
      ListedEntry(lib, t, v.page);
      var q := PageNamed(t.pages, id).value;
      NamesDiffer(lib, t, q, v.page);
    }
    if ListedNamed(t, id).Some? {
      var p := ListedNamed(t, id).value;
      ListedEntry(lib, t, p);
      InListing(t, collated, None, ViewOf(t, p));
      assert ViewOf(t, p) in ListingIn(t, collated, None);
    }
  }

  lemma CurrentVersionIsLast(lib: Library, t: Tables, i: nat)
    requires Invariant(lib, t) && t.current.Some? && i < |t.snapshots[t.current.value].items|
    ensures var item := t.snapshots[t.current.value].items[i];
            && item.revision < |t.revisions|
            && VersionOf(t, item.revision) == Some(Version(item.revision, t.revisions[item.revision].number, item.entry.title, t.current.value, item.entry.path))
  {
    hide PagesNamed, PagesCurrent, Numbered, HashesDiffer, AllCarried, AllComplete, NewestWith;
    var items := t.snapshots[t.current.value].items;
    var item := items[i];
    assert ItemFits(t.pages, t.revisions, item);
    assert item in items;
    var found := ItemAt(items, item.revision).value;
    var j :| 0 <= j < |items| && items[j] == found;
    assert ItemFits(t.pages, t.revisions, items[j]);
    LastIsNewest(t.snapshots, item.revision);
  }
}
