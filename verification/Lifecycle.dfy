/** What every transaction on the governed wiki keeps. */
module Lifecycle {
  import opened GoStrings
  import opened Options
  import opened BddSteps
  import opened PageStore

  /** The revisions of each page in the order of their numbers. */
  type Chains = map<string, seq<string>>

  /** A page's revisions are numbered 1..n and each is based on the one before. */
  ghost predicate Chained(s: Tables, chains: Chains) {
    && chains.Keys == s.pages.Keys
    && (forall p :: p in chains ==> chains[p] != [])
    && (forall p, k :: p in chains && 0 <= k < |chains[p]| ==> IsLink(s, chains, p, k))
    && (forall r :: r in s.revisions ==> InChain(s, chains, r))
  }

  ghost predicate IsLink(s: Tables, chains: Chains, p: string, k: int)
    requires p in chains && 0 <= k < |chains[p]|
  {
    var r := chains[p][k];
    && r in s.revisions && s.revisions[r].page == p && s.revisions[r].number == k + 1
    && s.revisions[r].base == if k == 0 then None else Some(chains[p][k - 1])
  }

  ghost predicate InChain(s: Tables, chains: Chains, r: string)
    requires r in s.revisions
  {
    var v := s.revisions[r];
    v.page in chains && 1 <= v.number <= |chains[v.page]| && chains[v.page][v.number - 1] == r
  }

  /** The current revision is the newest, and a page's pointers are its one draft and its one
      approved revision. */
  ghost predicate Pointed(s: Tables, chains: Chains) {
    && (forall p :: p in s.pages ==> PagePointed(s, chains, p))
    && (forall r :: r in s.revisions ==> RevisionPointed(s, r))
  }

  ghost predicate PagePointed(s: Tables, chains: Chains, p: string) {
    && p in s.pages && p in chains && chains[p] != []
    && Current(s.pages[p]) == Some(chains[p][|chains[p]| - 1])
    && (s.pages[p].approved.Some? ==>
          s.pages[p].approved.value in s.revisions && s.revisions[s.pages[p].approved.value].page == p)
  }

  ghost predicate RevisionPointed(s: Tables, r: string)
    requires r in s.revisions
  {
    var v := s.revisions[r];
    && v.page in s.pages
    && (v.status == Draft <==> s.pages[v.page].draft == Some(r))
    && (v.status == Approved <==> s.pages[v.page].approved == Some(r))
    && (v.status == Approved ==> v.everApproved) && (v.status == Draft ==> !v.everApproved)
  }

  ghost predicate Fits(page: Page, content: Content) {
    PageInputError(page.kind, page.conceptKind, page.parent, content) == None
  }

  ghost predicate AllFit(s: Tables) {
    forall r :: r in s.revisions ==> s.revisions[r].page in s.pages && Fits(s.pages[s.revisions[r].page], s.revisions[r].content)
  }

  /** Every scenario has a parent feature in its organization, and an approved one an approved parent. */
  ghost predicate Parented(s: Tables) {
    forall p :: p in s.pages ==> PageParented(s, s.pages[p])
  }

  ghost predicate PageParented(s: Tables, page: Page) {
    && ValidParent(s, page.organization, page.kind, page.parent)
    && (page.kind == Scenario && page.approved.Some? ==> ParentApproved(s, page))
  }

  /** Development rows exist exactly for scenario revisions that were ever approved. */
  ghost predicate Developing(s: Tables) {
    forall r :: r in s.developments <==> r in s.revisions && IsDeveloped(s, s.revisions[r])
  }

  ghost predicate IsDeveloped(s: Tables, v: Revision) {
    v.everApproved && v.page in s.pages && s.pages[v.page].kind == Scenario
  }

  ghost predicate SlugsUnique(s: Tables) {
    forall p, q :: p in s.pages && q in s.pages && p != q && s.pages[p].organization == s.pages[q].organization ==>
      s.pages[p].slug != s.pages[q].slug
  }

  ghost predicate WellKept(s: Tables, chains: Chains) {
    Chained(s, chains) && Pointed(s, chains) && AllFit(s) && Parented(s) && Developing(s) && SlugsUnique(s)
  }

  ghost predicate Invariant(s: Tables) {
    exists chains :: WellKept(s, chains)
  }

  lemma NextNumberIsLength(s: Tables, chains: Chains, p: string)
    requires Chained(s, chains) && p in s.pages
    ensures NextNumber(s, p) == |chains[p]| + 1
  {
    var n := |chains[p]|;
    assert IsLink(s, chains, p, n - 1);
    assert forall r :: r in s.revisions && s.revisions[r].page == p ==> InChain(s, chains, r);
    assert IsMaxNumber(s, p, n);
  }

  // ---------------------------------------------------------------- adding a page

  lemma TrimmedFits(page: Page, content: Content)
    requires Fits(page, content)
    ensures Fits(page, Trimmed(content))
  {
    hide TrimSpace;
    TrimSpaceTwice(content.title);
  }

  function PageAdded(s: Tables, p: string, r: string, page: Page, content: Content): Tables {
    s.(pages := s.pages[p := page.(draft := Some(r))],
       revisions := s.revisions[r := Revision(p, 1, Draft, None, Trimmed(content), false)])
  }

  lemma AddPageAdds(s: Tables, p: string, r: string, page: Page, content: Content, resolved: bool)
    requires AddPage(s, p, r, page, content, resolved).Ok?
    ensures AddPage(s, p, r, page, content, resolved).value == PageAdded(s, p, r, page, content)
    ensures !SlugTaken(s, page.organization, page.slug)
  {
    hide ReferencesExist, SlugTaken, Trimmed;
  }

  lemma PageAddedChained(s: Tables, chains: Chains, p: string, r: string, page: Page, content: Content)
    requires Chained(s, chains) && p !in s.pages && r !in s.revisions
    ensures Chained(PageAdded(s, p, r, page, content), chains[p := [r]])
  {
    hide Trimmed;
    var s', chains' := PageAdded(s, p, r, page, content), chains[p := [r]];
    forall q, k | q in chains' && 0 <= k < |chains'[q]|
      ensures IsLink(s', chains', q, k)
    {
      if q != p { assert IsLink(s, chains, q, k); }
    }
    forall v | v in s'.revisions
      ensures InChain(s', chains', v)
    {
      if v != r { assert InChain(s, chains, v); }
    }
  }

  lemma PageAddedPointed(s: Tables, chains: Chains, p: string, r: string, page: Page, content: Content)
    requires Chained(s, chains) && Pointed(s, chains) && p !in s.pages && r !in s.revisions && page.approved == None
    requires Chained(PageAdded(s, p, r, page, content), chains[p := [r]])
    ensures Pointed(PageAdded(s, p, r, page, content), chains[p := [r]])
  {
    hide Trimmed, Chained;
    var s', chains' := PageAdded(s, p, r, page, content), chains[p := [r]];
    forall q | q in s'.pages
      ensures PagePointed(s', chains', q)
    {
      PageHasChain(s, chains, q);
      if q != p { assert PagePointed(s, chains, q); }
    }
    forall v | v in s'.revisions
      ensures RevisionPointed(s', v)
    {
      if v != r { assert RevisionPointed(s, v); }
    }
    PageHasChain(s, chains, p);
  }

  lemma PageHasChain(s: Tables, chains: Chains, p: string)
    requires Chained(s, chains)
    ensures p in s.pages <==> p in chains
    ensures p in s.pages ==> chains[p] != []
  {
  }

  lemma PageAddedKeepsRest(s: Tables, p: string, r: string, page: Page, content: Content)
    requires AllFit(s) && Parented(s) && Developing(s) && SlugsUnique(s)
    requires p !in s.pages && r !in s.revisions && page.approved == None && Fits(page, content)
    requires ValidParent(s, page.organization, page.kind, page.parent) && !SlugTaken(s, page.organization, page.slug)
    ensures var s' := PageAdded(s, p, r, page, content); AllFit(s') && Parented(s') && Developing(s') && SlugsUnique(s')
  {
    hide AllFit, Parented, Developing, SlugsUnique, PageAdded, Fits, ValidParent, SlugTaken;
    PageAddedFits(s, p, r, page, content);
    PageAddedParented(s, p, r, page, content);
    PageAddedDeveloping(s, p, r, page, content);
    PageAddedSlugs(s, p, r, page, content);
  }

  lemma PageAddedFits(s: Tables, p: string, r: string, page: Page, content: Content)
    requires AllFit(s) && p !in s.pages && Fits(page, content)
    ensures AllFit(PageAdded(s, p, r, page, content))
  {
    hide Trimmed, PageInputError;
    TrimmedFits(page, content);
  }

  lemma PageAddedParented(s: Tables, p: string, r: string, page: Page, content: Content)
    requires Parented(s) && p !in s.pages && page.approved == None && ValidParent(s, page.organization, page.kind, page.parent)
    ensures Parented(PageAdded(s, p, r, page, content))
  {
    hide Trimmed;
    var s' := PageAdded(s, p, r, page, content);
    forall q | q in s'.pages
      ensures PageParented(s', s'.pages[q])
    {
      if q != p { assert PageParented(s, s.pages[q]); }
    }
  }

  lemma PageAddedDeveloping(s: Tables, p: string, r: string, page: Page, content: Content)
    requires AllFit(s) && Developing(s) && p !in s.pages && r !in s.revisions
    ensures Developing(PageAdded(s, p, r, page, content))
  {
    hide Trimmed, Fits;
    var s' := PageAdded(s, p, r, page, content);
    forall v
      ensures v in s'.developments <==> v in s'.revisions && IsDeveloped(s', s'.revisions[v])
    {
      assert v in s.developments <==> v in s.revisions && IsDeveloped(s, s.revisions[v]);
      assert v in s.revisions ==> s.revisions[v].page in s.pages;
    }
  }

  lemma PageAddedSlugs(s: Tables, p: string, r: string, page: Page, content: Content)
    requires SlugsUnique(s) && p !in s.pages && !SlugTaken(s, page.organization, page.slug)
    ensures SlugsUnique(PageAdded(s, p, r, page, content))
  {
    hide Trimmed;
  }

  lemma AddPageKeeps(s: Tables, chains: Chains, p: string, r: string, page: Page, content: Content, resolved: bool)
    requires WellKept(s, chains) && p !in s.pages && r !in s.revisions
    requires AddPage(s, p, r, page, content, resolved).Ok?
    requires page.approved == None && Fits(page, content)
    requires ValidParent(s, page.organization, page.kind, page.parent)
    ensures WellKept(AddPage(s, p, r, page, content, resolved).value, chains[p := [r]])
  {
    hide Chained, Pointed, AllFit, Parented, Developing, SlugsUnique, ValidParent, AddPage, PageAdded, Fits;
    AddPageAdds(s, p, r, page, content, resolved);
    PageAddedChained(s, chains, p, r, page, content);
    PageAddedPointed(s, chains, p, r, page, content);
    PageAddedKeepsRest(s, p, r, page, content);
  }

  // ---------------------------------------------------------------- adding a revision

  function RevisionAdded(s: Tables, p: string, r: string, number: nat, base: string, content: Content): Tables
    requires p in s.pages
  {
    var freed := Supersede(s, s.pages[p].draft);
    freed.(revisions := freed.revisions[r := Revision(p, number, Draft, Some(base), Trimmed(content), false)],
           pages := s.pages[p := s.pages[p].(draft := Some(r))])
  }

  lemma ReviseAdds(s: Tables, chains: Chains, p: string, base: string, content: Content, resolved: bool, r: string)
    requires WellKept(s, chains) && p in s.pages && Revise(s, p, base, content, resolved, r).Ok?
    ensures Revise(s, p, base, content, resolved, r).value == RevisionAdded(s, p, r, |chains[p]| + 1, base, content)
    ensures Fits(s.pages[p], content) && base == chains[p][|chains[p]| - 1]
  {
    hide ReferencesExist, Trimmed, PageInputError, NextNumber, Chained, AllFit, Parented, Developing, SlugsUnique;
    PageHasChain(s, chains, p);
    NextNumberIsLength(s, chains, p);
    assert PagePointed(s, chains, p);
    var d := s.pages[p].draft;
    if d.Some? && d.value in s.revisions {
      assert RevisionPointed(s, d.value);
      LastIsLink(s, chains, p);
    }
  }

  lemma LastIsLink(s: Tables, chains: Chains, p: string)
    requires Chained(s, chains) && p in chains
    ensures chains[p] != [] && IsLink(s, chains, p, |chains[p]| - 1)
  {
  }

  lemma RevisionAddedKeys(s: Tables, p: string, r: string, number: nat, base: string, content: Content)
    requires p in s.pages
    ensures var t := RevisionAdded(s, p, r, number, base, content); t.pages.Keys == s.pages.Keys && t.revisions.Keys == s.revisions.Keys + {r}
  {
    hide Trimmed;
  }

  lemma RevisionAddedLink(s: Tables, chains: Chains, p: string, r: string, base: string, content: Content, q: string, k: nat)
    requires Chained(s, chains) && p in s.pages && r !in s.revisions && base == chains[p][|chains[p]| - 1]
    requires q in chains && k < |chains[p := chains[p] + [r]][q]|
    ensures IsLink(RevisionAdded(s, p, r, |chains[p]| + 1, base, content), chains[p := chains[p] + [r]], q, k)
  {
    hide Trimmed, InChain;
    if q != p || k < |chains[p]| {
      assert IsLink(s, chains, q, k);
    }
  }

  lemma RevisionAddedInChain(s: Tables, chains: Chains, p: string, r: string, base: string, content: Content, v: string)
    requires Chained(s, chains) && p in s.pages && r !in s.revisions && base == chains[p][|chains[p]| - 1]
    requires v in s.revisions || v == r
    ensures var t := RevisionAdded(s, p, r, |chains[p]| + 1, base, content); v in t.revisions && InChain(t, chains[p := chains[p] + [r]], v)
  {
    hide Trimmed, IsLink;
    if v != r {
      assert InChain(s, chains, v);
    }
  }

  lemma RevisionAddedChained(s: Tables, chains: Chains, p: string, r: string, base: string, content: Content)
    requires Chained(s, chains) && p in s.pages && r !in s.revisions && base == chains[p][|chains[p]| - 1]
    ensures Chained(RevisionAdded(s, p, r, |chains[p]| + 1, base, content), chains[p := chains[p] + [r]])
  {
    hide Trimmed, IsLink, InChain, RevisionAdded;
    var s', chains' := RevisionAdded(s, p, r, |chains[p]| + 1, base, content), chains[p := chains[p] + [r]];
    RevisionAddedKeys(s, p, r, |chains[p]| + 1, base, content);
    forall q, k | q in chains' && 0 <= k < |chains'[q]|
      ensures IsLink(s', chains', q, k)
    {
      RevisionAddedLink(s, chains, p, r, base, content, q, k);
    }
    forall v | v in s'.revisions
      ensures InChain(s', chains', v)
    {
      RevisionAddedInChain(s, chains, p, r, base, content, v);
    }
  }

  lemma DraftIsOwn(s: Tables, chains: Chains, p: string)
    requires Chained(s, chains) && Pointed(s, chains) && p in s.pages && s.pages[p].draft.Some?
    ensures var d := s.pages[p].draft.value;
            d in s.revisions && s.revisions[d].page == p && s.revisions[d].status == Draft
  {
    PageHasChain(s, chains, p);
    assert PagePointed(s, chains, p);
    LastIsLink(s, chains, p);
    assert RevisionPointed(s, s.pages[p].draft.value);
  }

  lemma RevisionAddedPagePointed(s: Tables, chains: Chains, p: string, r: string, base: string, content: Content, q: string)
    requires p in s.pages && p in chains && r !in s.revisions && PagePointed(s, chains, q) && PagePointed(s, chains, p)
    ensures PagePointed(RevisionAdded(s, p, r, |chains[p]| + 1, base, content), chains[p := chains[p] + [r]], q)
  {
    hide Trimmed;
  }

  lemma RevisionAddedRevisionPointed(s: Tables, chains: Chains, p: string, r: string, base: string, content: Content, v: string)
    requires p in s.pages && p in chains && r !in s.revisions && (v in s.revisions || v == r) && PagePointed(s, chains, p)
    requires v in s.revisions ==> RevisionPointed(s, v)
    requires var d := s.pages[p].draft;
             d.Some? ==> d.value in s.revisions && s.revisions[d.value].page == p && s.revisions[d.value].status == Draft
    ensures var t := RevisionAdded(s, p, r, |chains[p]| + 1, base, content); v in t.revisions && RevisionPointed(t, v)
  {
    hide Trimmed;
  }

  lemma RevisionAddedPointed(s: Tables, chains: Chains, p: string, r: string, base: string, content: Content)
    requires Chained(s, chains) && Pointed(s, chains) && p in s.pages && r !in s.revisions
    ensures p in chains
    ensures Pointed(RevisionAdded(s, p, r, |chains[p]| + 1, base, content), chains[p := chains[p] + [r]])
  {
    hide Trimmed, Chained, RevisionAdded, PagePointed, RevisionPointed;
    PageHasChain(s, chains, p);
    var s', chains' := RevisionAdded(s, p, r, |chains[p]| + 1, base, content), chains[p := chains[p] + [r]];
    RevisionAddedKeys(s, p, r, |chains[p]| + 1, base, content);
    if s.pages[p].draft.Some? {
      DraftIsOwn(s, chains, p);
    }
    forall q | q in s'.pages
      ensures PagePointed(s', chains', q)
    {
      RevisionAddedPagePointed(s, chains, p, r, base, content, q);
    }
    forall v | v in s'.revisions
      ensures RevisionPointed(s', v)
    {
      RevisionAddedRevisionPointed(s, chains, p, r, base, content, v);
    }
  }

  /** Pages keep their identity and do not lose their approval. */
  ghost predicate SamePages(s: Tables, s': Tables) {
    && s'.pages.Keys == s.pages.Keys
    && forall p :: p in s.pages ==> SamePage(s.pages[p], s'.pages[p])
  }

  predicate SamePage(a: Page, b: Page) {
    && b.organization == a.organization && b.kind == a.kind && b.conceptKind == a.conceptKind
    && b.parent == a.parent && b.slug == a.slug && (a.approved.Some? ==> b.approved.Some?)
  }

  lemma SamePagesKeepSlugs(s: Tables, s': Tables)
    requires SamePages(s, s') && SlugsUnique(s)
    ensures SlugsUnique(s')
  {
  }

  /** Only page `p` may have gained an approval, and then its parent had one. */
  lemma SamePagesKeepParents(s: Tables, s': Tables, p: string)
    requires SamePages(s, s') && Parented(s) && p in s.pages
    requires forall q :: q in s.pages && q != p ==> s'.pages[q].approved == s.pages[q].approved
    requires s.pages[p].kind == Scenario && s'.pages[p].approved.Some? ==> ParentApproved(s, s.pages[p])
    ensures Parented(s')
  {
    forall q | q in s'.pages
      ensures PageParented(s', s'.pages[q])
    {
      assert PageParented(s, s.pages[q]) && SamePage(s.pages[q], s'.pages[q]);
      if s.pages[q].parent.Some? && s.pages[q].parent.value in s.pages {
        assert SamePage(s.pages[s.pages[q].parent.value], s'.pages[s.pages[q].parent.value]);
      }
    }
  }

  lemma RevisionAddedKeepsDevelopments(s: Tables, chains: Chains, p: string, r: string, base: string, content: Content)
    requires Developing(s) && p in s.pages && p in chains && r !in s.revisions
    ensures Developing(RevisionAdded(s, p, r, |chains[p]| + 1, base, content))
  {
    hide Trimmed;
    var s' := RevisionAdded(s, p, r, |chains[p]| + 1, base, content);
    forall v
      ensures v in s'.developments <==> v in s'.revisions && IsDeveloped(s', s'.revisions[v])
    {
      assert v in s.developments <==> v in s.revisions && IsDeveloped(s, s.revisions[v]);
    }
  }

  lemma RevisionAddedKeepsRest(s: Tables, chains: Chains, p: string, r: string, base: string, content: Content)
    requires AllFit(s) && Parented(s) && Developing(s) && SlugsUnique(s)
    requires p in s.pages && p in chains && r !in s.revisions && Fits(s.pages[p], content)
    ensures var s' := RevisionAdded(s, p, r, |chains[p]| + 1, base, content);
            AllFit(s') && Parented(s') && Developing(s') && SlugsUnique(s')
  {
    hide Trimmed, PageInputError, SlugsUnique, SamePages, ParentApproved, AllFit, Developing, Supersede;
    var s' := RevisionAdded(s, p, r, |chains[p]| + 1, base, content);
    RevisionAddedSamePages(s, chains, p, r, base, content);
    RevisionAddedFits(s, chains, p, r, base, content);
    RevisionAddedKeepsDevelopments(s, chains, p, r, base, content);
    SamePagesKeepSlugs(s, s');
    hide Parented;
    SamePagesKeepParents(s, s', p);
  }

  lemma RevisionAddedSamePages(s: Tables, chains: Chains, p: string, r: string, base: string, content: Content)
    requires p in s.pages && p in chains
    ensures SamePages(s, RevisionAdded(s, p, r, |chains[p]| + 1, base, content))
  {
    hide Trimmed;
  }

  lemma RevisionAddedFits(s: Tables, chains: Chains, p: string, r: string, base: string, content: Content)
    requires AllFit(s) && p in s.pages && p in chains && r !in s.revisions && Fits(s.pages[p], content)
    ensures AllFit(RevisionAdded(s, p, r, |chains[p]| + 1, base, content))
  {
    hide Trimmed, PageInputError;
    TrimmedFits(s.pages[p], content);
  }

  lemma ReviseKeeps(s: Tables, chains: Chains, p: string, base: string, content: Content, resolved: bool, r: string)
    requires WellKept(s, chains) && p in s.pages && r !in s.revisions && Revise(s, p, base, content, resolved, r).Ok?
    ensures p in chains && WellKept(Revise(s, p, base, content, resolved, r).value, chains[p := chains[p] + [r]])
  {
    PageHasChain(s, chains, p);
    hide Chained, Pointed, AllFit, Parented, Developing, SlugsUnique, Revise, RevisionAdded, Fits;
    ReviseAdds(s, chains, p, base, content, resolved, r);
    RevisionAddedChained(s, chains, p, r, base, content);
    RevisionAddedPointed(s, chains, p, r, base, content);
    RevisionAddedKeepsRest(s, chains, p, r, base, content);
  }

  // ---------------------------------------------------------------- approval

  lemma ApproveChained(s: Tables, chains: Chains, organization: string, r: string)
    requires Chained(s, chains) && ApproveRevision(s, organization, r).Ok?
    ensures Chained(ApproveRevision(s, organization, r).value, chains)
  {
    var s' := ApproveRevision(s, organization, r).value;
    forall q, k | q in chains && 0 <= k < |chains[q]|
      ensures IsLink(s', chains, q, k)
    {
      assert IsLink(s, chains, q, k);
    }
    forall v | v in s'.revisions
      ensures InChain(s', chains, v)
    {
      assert InChain(s, chains, v);
    }
  }

  lemma ApproveSameRows(s: Tables, organization: string, r: string)
    requires ApproveRevision(s, organization, r).Ok?
    ensures var s' := ApproveRevision(s, organization, r).value; s'.pages.Keys == s.pages.Keys && s'.revisions.Keys == s.revisions.Keys
    ensures r in s.revisions && s.revisions[r].page in s.pages
  {
  }

  lemma ApprovePagePointed(s: Tables, chains: Chains, organization: string, r: string, q: string)
    requires PagePointed(s, chains, q) && ApproveRevision(s, organization, r).Ok?
    ensures PagePointed(ApproveRevision(s, organization, r).value, chains, q)
  {
  }

  lemma ApproveRevisionPointed(s: Tables, chains: Chains, organization: string, r: string, v: string)
    requires ApproveRevision(s, organization, r).Ok? && v in s.revisions && r in s.revisions && s.revisions[r].page in s.pages
    requires RevisionPointed(s, v) && RevisionPointed(s, r) && PagePointed(s, chains, s.revisions[r].page)
    ensures v in ApproveRevision(s, organization, r).value.revisions && RevisionPointed(ApproveRevision(s, organization, r).value, v)
  {
  }

  lemma ApprovePointed(s: Tables, chains: Chains, organization: string, r: string)
    requires Pointed(s, chains) && ApproveRevision(s, organization, r).Ok?
    ensures Pointed(ApproveRevision(s, organization, r).value, chains)
  {
    hide ApproveRevision, PagePointed, RevisionPointed;
    ApproveSameRows(s, organization, r);
    var s' := ApproveRevision(s, organization, r).value;
    forall q | q in s'.pages
      ensures PagePointed(s', chains, q)
    {
      ApprovePagePointed(s, chains, organization, r, q);
    }
    forall v | v in s'.revisions
      ensures RevisionPointed(s', v)
    {
      ApproveRevisionPointed(s, chains, organization, r, v);
    }
  }

  lemma ApproveSamePages(s: Tables, organization: string, r: string)
    requires ApproveRevision(s, organization, r).Ok?
    ensures SamePages(s, ApproveRevision(s, organization, r).value)
  {
  }

  lemma ApproveKeepsFits(s: Tables, organization: string, r: string)
    requires AllFit(s) && ApproveRevision(s, organization, r).Ok?
    ensures AllFit(ApproveRevision(s, organization, r).value)
  {
    hide PageInputError;
  }

  lemma ApproveKeepsDeveloped(s: Tables, chains: Chains, organization: string, r: string, v: string)
    requires ApproveRevision(s, organization, r).Ok? && v in s.revisions && r in s.revisions && s.revisions[r].page in s.pages
    requires RevisionPointed(s, v) && RevisionPointed(s, r) && PagePointed(s, chains, s.revisions[r].page)
    requires v in s.developments <==> IsDeveloped(s, s.revisions[v])
    ensures var s' := ApproveRevision(s, organization, r).value;
            v in s'.revisions && (v in s'.developments <==> IsDeveloped(s', s'.revisions[v]))
  {
  }

  lemma ApproveAddsNoStranger(s: Tables, organization: string, r: string, v: string)
    requires ApproveRevision(s, organization, r).Ok? && v !in s.revisions
    ensures v in ApproveRevision(s, organization, r).value.developments <==> v in s.developments
  {
  }

  lemma ApproveKeepsDevelopments(s: Tables, chains: Chains, organization: string, r: string)
    requires Pointed(s, chains) && Developing(s) && ApproveRevision(s, organization, r).Ok?
    ensures Developing(ApproveRevision(s, organization, r).value)
  {
    hide ApproveRevision, PagePointed, RevisionPointed, IsDeveloped;
    ApproveSameRows(s, organization, r);
    var s' := ApproveRevision(s, organization, r).value;
    forall v
      ensures v in s'.developments <==> v in s'.revisions && IsDeveloped(s', s'.revisions[v])
    {
      if v in s.revisions {
        ApproveKeepsDeveloped(s, chains, organization, r, v);
      } else {
        ApproveAddsNoStranger(s, organization, r, v);
      }
    }
  }

  lemma ApproveKeepsRest(s: Tables, chains: Chains, organization: string, r: string)
    requires Pointed(s, chains) && AllFit(s) && Parented(s) && Developing(s) && SlugsUnique(s)
    requires ApproveRevision(s, organization, r).Ok?
    ensures var s' := ApproveRevision(s, organization, r).value;
            AllFit(s') && Parented(s') && Developing(s') && SlugsUnique(s')
  {
    hide Parented, AllFit, Developing, SlugsUnique, SamePages, Pointed;
    var s' := ApproveRevision(s, organization, r).value;
    ApproveSamePages(s, organization, r);
    ApproveKeepsFits(s, organization, r);
    ApproveKeepsDevelopments(s, chains, organization, r);
    SamePagesKeepSlugs(s, s');
    SamePagesKeepParents(s, s', s.revisions[r].page);
  }

  lemma ApproveKeeps(s: Tables, chains: Chains, organization: string, r: string)
    requires WellKept(s, chains) && ApproveRevision(s, organization, r).Ok?
    ensures WellKept(ApproveRevision(s, organization, r).value, chains)
  {
    hide Chained, Pointed, AllFit, Parented, Developing, SlugsUnique, ApproveRevision;
    ApproveChained(s, chains, organization, r);
    ApprovePointed(s, chains, organization, r);
    ApproveKeepsRest(s, chains, organization, r);
  }

  // ---------------------------------------------------------------- the transactions

  lemma CreatePageKeepsInvariant(s: Tables, organization: string, input: NewPage, ids: NewIDs)
    requires Invariant(s) && Unused(s, ids) && CreatePage(s, organization, input, ids).Ok?
    ensures Invariant(CreatePage(s, organization, input, ids).value)
  {
    hide Chained, Pointed, AllFit, Parented, Developing, SlugsUnique, ValidSlug, PageInputError, SlugTaken, ReferencesExist, Trimmed, WellKept;
    var chains :| WellKept(s, chains);
    var page := Page(organization, input.kind, input.conceptKind, input.parent, input.slug, None, None);
    AddPageKeeps(s, chains, ids.page, ids.revision, page, input.content, input.resolved);
    var created := AddPage(s, ids.page, ids.revision, page, input.content, input.resolved).value;
    chains := chains[ids.page := [ids.revision]];
    if input.initial.Some? {
      var initial := input.initial.value;
      var child := Page(organization, Scenario, None, Some(ids.page), initial.slug, None, None);
      ParentNameDoesNotMatter(initial.content, ids.page);
      AddPageKeeps(created, chains, ids.childPage, ids.childRevision, child, initial.content, initial.resolved);
      chains := chains[ids.childPage := [ids.childRevision]];
    }
    assert WellKept(CreatePage(s, organization, input, ids).value, chains);
  }

  lemma ParentNameDoesNotMatter(content: Content, parent: string)
    ensures PageInputError(Scenario, None, Some("pending-feature"), content) == PageInputError(Scenario, None, Some(parent), content)
  {
    hide TrimSpace, WellFormed;
  }

  lemma SaveKeepsInvariant(s: Tables, organization: string, p: string, base: string, content: Content, resolved: bool, r: string)
    requires Invariant(s) && r !in s.revisions && SaveRevision(s, organization, p, base, content, resolved, r).Ok?
    ensures Invariant(SaveRevision(s, organization, p, base, content, resolved, r).value)
  {
    hide WellKept, Revise;
    var chains :| WellKept(s, chains);
    ReviseKeeps(s, chains, p, base, content, resolved, r);
  }

  lemma ApproveKeepsInvariant(s: Tables, organization: string, r: string)
    requires Invariant(s) && ApproveRevision(s, organization, r).Ok?
    ensures Invariant(ApproveRevision(s, organization, r).value)
  {
    hide WellKept, ApproveRevision;
    var chains :| WellKept(s, chains);
    ApproveKeeps(s, chains, organization, r);
  }

  lemma ObjectionsKeepInvariant(s: Tables, objections: map<string, Objection>)
    requires Invariant(s)
    ensures Invariant(s.(objections := objections))
  {
    var chains :| WellKept(s, chains);
    ObjectionsKeepChains(s, chains, objections);
  }

  lemma ObjectionsKeepChains(s: Tables, chains: Chains, objections: map<string, Objection>)
    requires WellKept(s, chains)
    ensures WellKept(s.(objections := objections), chains)
  {
    hide Chained, Pointed, AllFit, Parented, Developing, SlugsUnique;
    ObjectionsKeepLinks(s, chains, objections);
    ObjectionsKeepPointers(s, chains, objections);
    ObjectionsKeepRest(s, objections);
  }

  lemma ObjectionsKeepLinks(s: Tables, chains: Chains, objections: map<string, Objection>)
    requires Chained(s, chains)
    ensures Chained(s.(objections := objections), chains)
  {
    var s' := s.(objections := objections);
    forall q, k | q in chains && 0 <= k < |chains[q]|
      ensures IsLink(s', chains, q, k)
    {
      assert IsLink(s, chains, q, k);
    }
    forall v | v in s'.revisions
      ensures InChain(s', chains, v)
    {
      assert InChain(s, chains, v);
    }
  }

  lemma ObjectionsKeepPointers(s: Tables, chains: Chains, objections: map<string, Objection>)
    requires Pointed(s, chains)
    ensures Pointed(s.(objections := objections), chains)
  {
    var s' := s.(objections := objections);
    forall q | q in s'.pages
      ensures PagePointed(s', chains, q)
    {
      assert PagePointed(s, chains, q);
    }
    forall v | v in s'.revisions
      ensures RevisionPointed(s', v)
    {
      assert RevisionPointed(s, v);
    }
  }

  lemma ObjectionsKeepRest(s: Tables, objections: map<string, Objection>)
    requires AllFit(s) && Parented(s) && Developing(s) && SlugsUnique(s)
    ensures var s' := s.(objections := objections); AllFit(s') && Parented(s') && Developing(s') && SlugsUnique(s')
  {
    hide PageInputError;
    var s' := s.(objections := objections);
    forall q | q in s'.pages
      ensures PageParented(s', s'.pages[q])
    {
      assert PageParented(s, s.pages[q]);
    }
    forall v
      ensures v in s'.developments <==> v in s'.revisions && IsDeveloped(s', s'.revisions[v])
    {
      assert v in s.developments <==> v in s.revisions && IsDeveloped(s, s.revisions[v]);
    }
  }
}
