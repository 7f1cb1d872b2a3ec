/** What the detail of a page says, read off the rows. */
module PageDetails {
  import opened GoStrings
  import opened Options
  import opened Collections
  import opened Snapshots
  import opened Catalogues
  import opened RepositoryStore
  import opened RepositoryImports
  import opened RepositoryViews

  // ---------------------------------------------------------------- versions

  /** Numbers count down to one, and every line is of the page. */
  ghost predicate CountsDown(t: Tables, page: nat, history: seq<Version>) {
    forall i :: 0 <= i < |history| ==>
      && history[i].number == |history| - i && history[i].revision < |t.revisions|
      && t.revisions[history[i].revision].page == page && t.revisions[history[i].revision].number == history[i].number
  }

  lemma {:induction false} VersionsCountDown(lib: Library, t: Tables, page: nat, n: nat)
    requires Invariant(lib, t) && n <= |t.revisions|
    ensures |VersionsOf(t, page, n)| == CountOf(t.revisions[..n], page) && CountsDown(t, page, VersionsOf(t, page, n))
  {
    hide Invariant;
    if n > 0 {
      var r, rest := n - 1, VersionsOf(t, page, n - 1);
      VersionsCountDown(lib, t, page, r);
      assert t.revisions[..n][..r] == t.revisions[..r];
      EveryRevisionHasAVersion(lib, t, r);
      VersionIs(t, r);
      NumberIs(lib, t, r);
      hide VersionOf;
      if t.revisions[r].page == page {
        assert VersionsOf(t, page, n) == [VersionOf(t, r).value] + rest;
      }
    }
  }

  lemma VersionIs(t: Tables, r: nat)
    requires r < |t.revisions| && VersionOf(t, r).Some?
    ensures VersionOf(t, r).value.revision == r && VersionOf(t, r).value.number == t.revisions[r].number
  {
  }

  lemma NumberIs(lib: Library, t: Tables, r: nat)
    requires Invariant(lib, t) && r < |t.revisions|
    ensures t.revisions[r].number == CountOf(t.revisions[..r], t.revisions[r].page) + 1
  {
    hide PagesNamed, PagesCurrent, HashesDiffer, ItemsFit, AllCarried, LastIsListed, RunsIncrease, AllComplete, CountOf;
  }

  predicate Carries(row: SnapshotRow, revision: nat) {
    exists item :: item in row.items && item.revision == revision
  }

  /** The line of a revision says what the last snapshot that carries it says. */
  ghost predicate SaysNewest(t: Tables, v: Version) {
    && v.source < |t.snapshots| && (forall k :: v.source < k < |t.snapshots| ==> !Carries(t.snapshots[k], v.revision))
    && exists item :: item in t.snapshots[v.source].items && item.revision == v.revision && item.entry.title == v.title && item.entry.path == v.path
  }

  lemma {:induction false} NewestIsLast(rows: seq<SnapshotRow>, n: nat, revision: nat)
    requires n <= |rows| && RunsIncrease(rows)
    ensures var r := NewestWith(rows, n, revision); r.Some? ==> forall k :: r.value < k < n ==> !Carries(rows[k], revision)
  {
    if n > 0 {
      NewestIsLast(rows, n - 1, revision);
    }
  }

  lemma RowsIncrease(lib: Library, t: Tables)
    requires Invariant(lib, t)
    ensures RunsIncrease(t.snapshots)
  {
    hide Rows, AllComplete;
  }

  lemma VersionHasItem(t: Tables, r: nat) returns (item: Item)
    requires r < |t.revisions| && VersionOf(t, r).Some?
    ensures var v := VersionOf(t, r).value;
            && NewestWith(t.snapshots, |t.snapshots|, r) == Some(v.source) && v.source < |t.snapshots| && v.revision == r
            && item in t.snapshots[v.source].items && item.revision == r && item.entry.title == v.title && item.entry.path == v.path
  {
    hide NewestWith;
    item := ItemAt(t.snapshots[NewestWith(t.snapshots, |t.snapshots|, r).value].items, r).value;
  }

  lemma VersionSaysNewest(lib: Library, t: Tables, r: nat)
    requires Invariant(lib, t) && r < |t.revisions|
    ensures VersionOf(t, r).Some? && SaysNewest(t, VersionOf(t, r).value)
  {
    EveryRevisionHasAVersion(lib, t, r);
    RowsIncrease(lib, t);
    hide Invariant, VersionOf, NewestWith, RunsIncrease, Carries;
    NewestIsLast(t.snapshots, |t.snapshots|, r);
    var item := VersionHasItem(t, r);
  }

  /** The history lists every revision of the page once, the newest first. */
  ghost predicate IsHistory(t: Tables, page: nat, history: seq<Version>) {
    && |history| == CountOf(t.revisions, page) && CountsDown(t, page, history)
    && forall v :: v in history ==> SaysNewest(t, v)
  }

  lemma HistoryIs(lib: Library, t: Tables, page: nat)
    requires Invariant(lib, t)
    ensures IsHistory(t, page, VersionsOf(t, page, |t.revisions|))
  {
    hide Invariant, SaysNewest, CountOf, VersionOf, VersionsOf;
    var n := |t.revisions|;
    assert t.revisions[..n] == t.revisions;
    VersionsCountDown(lib, t, page, n);
    VersionsAreVersions(t, page, n);
    forall v | v in VersionsOf(t, page, n)
      ensures SaysNewest(t, v)
    {
      VersionSaysNewest(lib, t, v.revision);
    }
  }

  // ---------------------------------------------------------------- parent and children

  /** The page row with the external id. */
  predicate IsNamed(t: Tables, q: nat, id: GoString) {
    q < |t.pages| && t.pages[q].externalID == id
  }

  lemma PageNamedIff(lib: Library, t: Tables, id: GoString, q: nat)
    requires Invariant(lib, t)
    ensures PageNamed(t.pages, id) == Some(q) <==> IsNamed(t, q, id)
    ensures IsNamed(t, q, id) ==> id != ""
  {
    hide PagesCurrent, Numbered, HashesDiffer, ItemsFit, AllCarried, LastIsListed, AllComplete, RunsIncrease;
    if IsNamed(t, q, id) {
      NamesDiffer(lib, t, PageNamed(t.pages, id).value, q);
    }
  }

  lemma ListedIsNamed(lib: Library, t: Tables, collated: seq<nat>, v: PageView)
    requires Invariant(lib, t) && v in ListingIn(t, collated, None)
    ensures IsNamed(t, v.page, v.slug)
  {
    hide Invariant, Listed, ListingIn, ViewOf;
    CurrentExists(lib, t);
    InListing(t, collated, None, v);
    ListedEntry(lib, t, v.page);
    ViewIs(t, v.page);
  }

  /** The parent shown is the page that the entry of the current revision names. */
  lemma ParentIs(lib: Library, t: Tables, collated: seq<nat>, e: Entry, q: nat)
    requires Invariant(lib, t)
    ensures ParentIn(ListingIn(t, collated, None), e.parentID, StoredParent(t, e)) == Some(q) <==> IsNamed(t, q, e.parentID)
  {
    hide Invariant, ListingIn, ParentIn, IsNamed;
    CurrentExists(lib, t);
    var listing := ListingIn(t, collated, None);
    ParentFound(listing, e.parentID, StoredParent(t, e));
    PageNamedIff(lib, t, e.parentID, q);
    if v :| v in listing && v.slug == e.parentID && ParentIn(listing, e.parentID, StoredParent(t, e)) == Some(v.page) {
      ListedIsNamed(lib, t, collated, v);
      PageNamedIff(lib, t, e.parentID, v.page);
    }
  }

  /** The last snapshot lists the child, as belonging to the page, and the page itself. */
  ghost predicate IsChild(t: Tables, page: nat, child: nat) {
    && t.snapshots != [] && page < |t.pages|
    && var items := t.snapshots[|t.snapshots| - 1].items;
       && ItemFor(items, page)
       && exists item :: item in items && item.page == child && item.entry.parentID == t.pages[page].externalID
  }

  lemma LastIsShown(lib: Library, t: Tables, item: Item)
    requires Invariant(lib, t) && Defined(t) && t.snapshots != [] && item in t.snapshots[|t.snapshots| - 1].items
    ensures Listed(t, item.page) == Some(item)
  {
    hide Invariant, Listed;
    LastIsImported(lib, t);
    var items := t.snapshots[|t.snapshots| - 1].items;
    var i :| 0 <= i < |items| && items[i] == item;
    LastItem(lib, t, i);
  }

  lemma ListedIff(lib: Library, t: Tables, p: nat)
    requires Invariant(lib, t) && Defined(t)
    ensures Listed(t, p).Some? <==> t.snapshots != [] && ItemFor(t.snapshots[|t.snapshots| - 1].items, p)
    ensures forall item :: t.snapshots != [] && item in t.snapshots[|t.snapshots| - 1].items && item.page == p ==> Listed(t, p) == Some(item)
  {
    hide Invariant, Listed, ItemFits;
    LastIsImported(lib, t);
    if Listed(t, p).Some? {
      ListedEntry(lib, t, p);
      ListedItem(lib, t, p);
      var items := t.snapshots[|t.snapshots| - 1].items;
      var i :| 0 <= i < |items| && items[i] == Listed(t, p).value;
    }
    if t.snapshots != [] {
      var items := t.snapshots[|t.snapshots| - 1].items;
      forall item | item in items
        ensures Listed(t, item.page) == Some(item)
      {
        LastIsShown(lib, t, item);
      }
      if ItemFor(items, p) {
        var i :| 0 <= i < |items| && items[i].page == p;
        assert items[i] in items;
      }
    }
  }

  lemma ListedNamedIff(lib: Library, t: Tables, id: GoString, page: nat)
    requires Invariant(lib, t) && Defined(t)
    ensures ListedNamed(t, id) == Some(page) <==> IsNamed(t, page, id) && Listed(t, page).Some?
  {
    hide Invariant, Listed, PageNamed, IsNamed;
    PageNamedIff(lib, t, id, page);
    if PageNamed(t.pages, id).Some? {
      PageNamedIff(lib, t, id, PageNamed(t.pages, id).value);
    }
  }

  lemma ParentIsPage(lib: Library, t: Tables, page: nat, child: nat)
    requires Invariant(lib, t) && Defined(t) && page < |t.pages| && child < |t.pages| && Listed(t, child).Some?
    ensures ViewOf(t, child).page == child
    ensures ViewOf(t, child).parent == Some(page) <==> IsChild(t, page, child)
  {
    ViewHasPage(t, child);
    ViewIs(t, child);
    hide Invariant, Listed, ListedNamed, ViewOf, ItemFor;
    var e := Listed(t, child).value.entry;
    ListedNamedIff(lib, t, e.parentID, page);
    ListedIff(lib, t, page);
    ListedIff(lib, t, child);
    LastIsImported(lib, t);
    ListedItem(lib, t, child);
    ListedEntry(lib, t, child);
  }

  lemma ChildIsListed(lib: Library, t: Tables, page: nat, child: nat)
    requires Invariant(lib, t) && Defined(t) && IsChild(t, page, child)
    ensures child < |t.pages| && Listed(t, child).Some?
  {
    hide Invariant, Listed, ItemFor;
    ListedIff(lib, t, child);
    ListedEntry(lib, t, child);
  }

  /** The members of a list stand in the order of another. */
  ghost predicate InOrderOf(list: seq<nat>, all: seq<nat>) {
    forall i, j :: 0 <= i < j < |list| ==> StandInOrder(all, list[i], list[j])
  }

  ghost predicate StandInOrder(all: seq<nat>, x: nat, y: nat) {
    exists a, b :: 0 <= a < b < |all| && all[a] == x && all[b] == y
  }

  /** The children found below one more page of the listing. */
  lemma OneMoreChild(lib: Library, t: Tables, collated: seq<nat>, page: nat, last: nat)
    requires Invariant(lib, t) && Defined(t) && page < |t.pages|
    ensures var before := ChildrenIn(ListingIn(t, collated, None), page);
            ChildrenIn(ListingIn(t, collated + [last], None), page) == if IsChild(t, page, last) then before + [last] else before
  {
    hide Invariant, Listed, ViewOf, IsChild;
    assert (collated + [last])[..|collated|] == collated;
    if Listed(t, last).Some? {
      ListedEntry(lib, t, last);
      ParentIsPage(lib, t, page, last);
      var listing, v := ListingIn(t, collated, None), ViewOf(t, last);
      assert (listing + [v])[..|listing|] == listing;
    } else if IsChild(t, page, last) {
      ChildIsListed(lib, t, page, last);
    }
  }

  lemma {:induction false} ChildrenAre(lib: Library, t: Tables, collated: seq<nat>, page: nat, child: nat)
    requires Invariant(lib, t) && Defined(t) && page < |t.pages|
    ensures var children := ChildrenIn(ListingIn(t, collated, None), page);
            child in children <==> child in collated && IsChild(t, page, child)
  {
    hide Invariant, ChildrenIn, ListingIn, IsChild;
    if collated == [] {
      NoChildren(t, page);
    } else {
      var n := |collated| - 1;
      ChildrenAre(lib, t, collated[..n], page, child);
      OneMoreChild(lib, t, collated[..n], page, collated[n]);
      assert collated == collated[..n] + [collated[n]];
    }
  }

  lemma NoChildren(t: Tables, page: nat)
    requires Defined(t)
    ensures ChildrenIn(ListingIn(t, [], None), page) == []
  {
  }

  lemma {:induction false} ChildrenKeepOrder(lib: Library, t: Tables, collated: seq<nat>, page: nat)
    requires Invariant(lib, t) && Defined(t) && page < |t.pages|
    ensures InOrderOf(ChildrenIn(ListingIn(t, collated, None), page), collated)
  {
    hide Invariant, ChildrenIn, ListingIn, IsChild, StandInOrder;
    if collated == [] {
      NoChildren(t, page);
    } else {
      var n := |collated| - 1;
      var before := ChildrenIn(ListingIn(t, collated[..n], None), page);
      ChildrenKeepOrder(lib, t, collated[..n], page);
      OneMoreChild(lib, t, collated[..n], page, collated[n]);
      assert collated == collated[..n] + [collated[n]];
      forall x: nat, y: nat | StandInOrder(collated[..n], x, y)
        ensures StandInOrder(collated, x, y)
      {
        OrderedStays(collated, n, x, y);
      }
      forall i | 0 <= i < |before|
        ensures StandInOrder(collated, before[i], collated[n])
      {
        ChildrenAre(lib, t, collated[..n], page, before[i]);
        BeforeLast(collated, before[i]);
      }
    }
  }

  lemma OrderedStays(all: seq<nat>, n: nat, x: nat, y: nat)
    requires n <= |all| && StandInOrder(all[..n], x, y)
    ensures StandInOrder(all, x, y)
  {
    var a, b :| 0 <= a < b < n && all[..n][a] == x && all[..n][b] == y;
    assert all[a] == x && all[b] == y;
  }

  lemma BeforeLast(all: seq<nat>, x: nat)
    requires all != [] && x in all[..|all| - 1]
    ensures StandInOrder(all, x, all[|all| - 1])
  {
    var a :| 0 <= a < |all| - 1 && all[a] == x;
  }

  lemma ViewHasPage(t: Tables, p: nat)
    requires Defined(t) && p < |t.pages| && Listed(t, p).Some?
    ensures ViewOf(t, p).page == p
  {
  }

  /** The detail of a page: it is archived iff the last snapshot no longer lists it, its parent is the
      page its entry names, its history every revision of it, the newest first, and its children the
      pages listed as belonging to it, in the order of the listing. */
  lemma DetailSays(lib: Library, t: Tables, collated: seq<nat>, p: nat)
    requires Invariant(lib, t) && Collates(collated, |t.pages|) && p < |t.pages|
    ensures Defined(t) && DetailOf(t, collated, p).Some?
    ensures var d := DetailOf(t, collated, p).value;
            && d.page == p && d.revision == t.pages[p].current && d.revision.Some? && d.revision.value < |t.revisions|
            && d.slug == t.revisions[d.revision.value].entry.externalID && d.title == t.revisions[d.revision.value].entry.title
            && d.kind == t.pages[p].kind && (d.archived <==> !ItemFor(t.snapshots[|t.snapshots| - 1].items, p))
            && (forall q: nat :: d.parent == Some(q) <==> IsNamed(t, q, t.revisions[d.revision.value].entry.parentID))
            && IsHistory(t, p, d.history) && InOrderOf(d.children, collated)
            && (forall child: nat :: child in d.children <==> IsChild(t, p, child))
  {
    CurrentExists(lib, t);
    CurrentIsRevision(lib, t, p);
    var e, listing := t.revisions[t.pages[p].current.value].entry, ListingIn(t, collated, None);
    assert DetailOf(t, collated, p).Some?;
    NotArchivedIsListed(lib, t, p);
    ListedIff(lib, t, p);
    HistoryIs(lib, t, p);
    ChildrenKeepOrder(lib, t, collated, p);
    hide Invariant, Collates, ListingIn, ChildrenIn, ParentIn, VersionsOf, VersionNamed, StoredParent, IsNamed, IsHistory, InOrderOf, Listed;
    forall q: nat
      ensures ParentIn(listing, e.parentID, StoredParent(t, e)) == Some(q) <==> IsNamed(t, q, e.parentID)
    {
      ParentIs(lib, t, collated, e, q);
    }
    forall child: nat
      ensures child in ChildrenIn(listing, p) <==> IsChild(t, p, child)
    {
      ChildrenAre(lib, t, collated, p, child);
      if IsChild(t, p, child) {
        ChildIsListed(lib, t, p, child);
        InCollation(collated, |t.pages|, child);
      }
    }
  }

  lemma InCollation(collated: seq<nat>, n: nat, p: nat)
    requires Collates(collated, n) && p < n
    ensures p in collated
  {
  }

  lemma CurrentIsRevision(lib: Library, t: Tables, p: nat)
    requires Invariant(lib, t) && p < |t.pages|
    ensures t.pages[p].current.Some? && t.pages[p].current.value < |t.revisions| && t.snapshots != []
  {
    hide PagesNamed, Numbered, HashesDiffer, ItemsFit, AllCarried, AllComplete, RunsIncrease;
  }
}
