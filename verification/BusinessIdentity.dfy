/** What a business hash identifies: for scenarios exactly the wording, for documents the source. */
module BusinessIdentity {
  import opened GoStrings
  import opened Options
  import opened Collections
  import opened Snapshots
  import opened Catalogues

  // ---------------------------------------------------------------- joined fields can be told apart

  /** Nothing, or text that begins with the separator. */
  predicate StartsAt(s: GoString, separator: char) {
    s != "" ==> s[0] == separator
  }

  /** Where the longer of two prefixes runs into the other's remainder. */
  lemma Overrun<T>(x: seq<T>, y: seq<T>, u: seq<T>, v: seq<T>)
    requires x + u == y + v
    ensures |x| < |y| ==> u != [] && y[|x|] == u[0]
  {
    if |x| < |y| {
      assert (x + u)[|x|] == (y + v)[|x|];
    }
  }

  lemma SameLengthSplit<T>(x: seq<T>, y: seq<T>, u: seq<T>, v: seq<T>)
    requires x + u == y + v && |x| == |y|
    ensures x == y && u == v
  {
    assert x == (x + u)[..|x|] && y == (y + v)[..|y|];
    assert u == (x + u)[|x|..] && v == (y + v)[|y|..];
  }

  lemma SplitAt(separator: char, x: GoString, y: GoString, u: GoString, v: GoString)
    requires separator !in x && separator !in y && StartsAt(u, separator) && StartsAt(v, separator) && x + u == y + v
    ensures x == y && u == v
  {
    Overrun(x, y, u, v);
    Overrun(y, x, v, u);
    SameLengthSplit(x, y, u, v);
  }

  function Tail(fields: seq<GoString>): GoString
    requires fields != []
  {
    if |fields| == 1 then "" else NUL + Join(fields[1..])
  }

  lemma JoinFront(fields: seq<GoString>)
    requires fields != []
    ensures Join(fields) == fields[0] + Tail(fields) && StartsAt(Tail(fields), '\0')
  {
    if |fields| > 1 {
      assert fields[0] + NUL + Join(fields[1..]) == fields[0] + (NUL + Join(fields[1..]));
    }
  }

  /** Joining with NUL loses nothing when no field contains one. */
  lemma {:induction false} JoinIsInjective(a: seq<GoString>, b: seq<GoString>)
    requires a != [] && b != [] && Join(a) == Join(b)
    requires (forall f :: f in a ==> NulFree(f)) && (forall f :: f in b ==> NulFree(f))
    ensures a == b
  {
    hide Join, Tail, StartsAt;
    JoinFront(a);
    JoinFront(b);
    assert NulFree(a[0]) && NulFree(b[0]);
    SplitAt('\0', a[0], b[0], Tail(a), Tail(b));
    SameTail(a, b);
    if |a| > 1 {
      JoinIsInjective(a[1..], b[1..]);
      assert a == [a[0]] + a[1..] && b == [b[0]] + b[1..];
    } else {
      assert a == [a[0]] && b == [b[0]];
    }
  }

  lemma SameTail(a: seq<GoString>, b: seq<GoString>)
    requires a != [] && b != [] && Tail(a) == Tail(b)
    ensures (|a| == 1) == (|b| == 1) && Join(a[1..]) == Join(b[1..])
  {
    if |a| > 1 {
      assert Tail(a)[1..] == Join(a[1..]);
    }
    if |b| > 1 {
      assert Tail(b)[1..] == Join(b[1..]);
    }
  }

  // ---------------------------------------------------------------- the fields of a scenario

  /** The same keywords and texts, whatever the lines. */
  predicate SameWording(s: seq<Step>, t: seq<Step>) {
    |s| == |t| && forall i :: 0 <= i < |s| ==> s[i].keyword == t[i].keyword && s[i].text == t[i].text
  }

  lemma {:induction false} StepFieldsAreWording(s: seq<Step>, t: seq<Step>)
    ensures StepFields(s) == StepFields(t) <==> SameWording(s, t)
  {
    if s != [] && t != [] {
      StepFieldsAreWording(s[1..], t[1..]);
      assert StepFields(s)[2..] == StepFields(s[1..]) && StepFields(t)[2..] == StepFields(t[1..]);
      assert SameWording(s, t) <==>
             s[0].keyword == t[0].keyword && s[0].text == t[0].text && SameWording(s[1..], t[1..]);
    }
  }

  /** The facts a parsed scenario brings along in an accepted snapshot. */
  ghost predicate Sourced(sc: Scenario, refs: seq<GoString>) {
    && NulFree(sc.id) && NulFree(sc.featureID) && NulFree(sc.name) && NulFree(sc.description)
    && (forall i :: 0 <= i < |sc.steps| ==> NulFree(sc.steps[i].keyword) && NulFree(sc.steps[i].text))
    && sc.steps != [] && sc.steps[0].keyword == "Given"
    && forall id :: id in refs ==> IsID(CONCEPT_ID, id)
  }

  predicate SameBusiness(a: Scenario, refs: seq<GoString>, b: Scenario, otherRefs: seq<GoString>) {
    && a.id == b.id && a.featureID == b.featureID && a.name == b.name && a.description == b.description
    && refs == otherRefs && SameWording(a.steps, b.steps)
  }

  /** Where the concept ids end and the first keyword begins. */
  lemma RefsEndAtGiven(p: seq<GoString>, u: seq<GoString>, q: seq<GoString>, v: seq<GoString>)
    requires p + u == q + v && u != [] && v != [] && u[0] == v[0] == "Given"
    requires (forall id :: id in p ==> IsID(CONCEPT_ID, id)) && (forall id :: id in q ==> IsID(CONCEPT_ID, id))
    ensures p == q && u == v
  {
    assert !IsID(CONCEPT_ID, "Given");
    Overrun(p, q, u, v);
    Overrun(q, p, v, u);
    SameLengthSplit(p, q, u, v);
  }

  lemma {:induction false} StepFieldsAreNulFree(steps: seq<Step>)
    requires forall i :: 0 <= i < |steps| ==> NulFree(steps[i].keyword) && NulFree(steps[i].text)
    ensures forall f :: f in StepFields(steps) ==> NulFree(f)
  {
    hide NulFree;
    if steps != [] {
      StepFieldsAreNulFree(steps[1..]);
    }
  }

  lemma ConceptIDsAreNulFree(id: GoString)
    requires IsID(CONCEPT_ID, id)
    ensures NulFree(id)
  {
    forall i | 0 <= i < |id|
      ensures id[i] != '\0'
    {
      assert i < |CONCEPT_ID| ==> id[i] == id[..|CONCEPT_ID|][i];
    }
  }

  lemma FieldsAreNulFree(sc: Scenario, refs: seq<GoString>)
    requires Sourced(sc, refs)
    ensures forall f :: f in BusinessFields(sc, refs) ==> NulFree(f)
  {
    hide NulFree, IsID;
    StepFieldsAreNulFree(sc.steps);
    forall id | id in refs
      ensures NulFree(id)
    {
      ConceptIDsAreNulFree(id);
    }
  }

  lemma FieldsOf(sc: Scenario, refs: seq<GoString>)
    ensures var f := BusinessFields(sc, refs);
            && |f| >= 4 && f[0] == sc.id && f[1] == sc.featureID && f[2] == sc.name && f[3] == sc.description
            && f[4..] == refs + StepFields(sc.steps)
  {
    hide StepFields;
  }

  lemma FieldsApart(a: Scenario, refs: seq<GoString>, b: Scenario, otherRefs: seq<GoString>)
    requires Sourced(a, refs) && Sourced(b, otherRefs) && BusinessFields(a, refs) == BusinessFields(b, otherRefs)
    ensures SameBusiness(a, refs, b, otherRefs)
  {
    hide NulFree, IsID, SameWording, BusinessFields;
    FieldsOf(a, refs);
    FieldsOf(b, otherRefs);
    RefsEndAtGiven(refs, StepFields(a.steps), otherRefs, StepFields(b.steps));
    StepFieldsAreWording(a.steps, b.steps);
  }

  /** Two scenarios have the same hashed text exactly when id, feature, name, description, concept
      references and the steps' keywords and texts agree; lines and paths play no part. */
  lemma IdentityIsExact(a: Scenario, refs: seq<GoString>, b: Scenario, otherRefs: seq<GoString>)
    requires Sourced(a, refs) && Sourced(b, otherRefs)
    ensures Join(BusinessFields(a, refs)) == Join(BusinessFields(b, otherRefs)) <==> SameBusiness(a, refs, b, otherRefs)
  {
    hide Sourced, Join, SameWording, StepFields, NulFree;
    FieldsAreNulFree(a, refs);
    FieldsAreNulFree(b, otherRefs);
    if Join(BusinessFields(a, refs)) == Join(BusinessFields(b, otherRefs)) {
      JoinIsInjective(BusinessFields(a, refs), BusinessFields(b, otherRefs));
      FieldsApart(a, refs, b, otherRefs);
    }
    StepFieldsAreWording(a.steps, b.steps);
  }

  // ---------------------------------------------------------------- over accepted snapshots

  /** No two texts share a digest. */
  ghost predicate CollisionFree(lib: Library) {
    forall a, b :: lib.sha256(a) == lib.sha256(b) ==> a == b
  }

  /** What the parser reads out of a source without NULs contains none. */
  ghost predicate ParsesNulFree(lib: Library) {
    forall d: Document, sc: Scenario :: NulFree(d.content) && sc in ScenariosOf(lib, d) ==>
      && NulFree(sc.name) && NulFree(sc.description)
      && forall i :: 0 <= i < |sc.steps| ==> NulFree(sc.steps[i].keyword) && NulFree(sc.steps[i].text)
  }

  lemma IDsAreNulFree(prefix: GoString, id: GoString)
    requires IsID(prefix, id) && NulFree(prefix)
    ensures NulFree(id)
  {
    forall i | 0 <= i < |id|
      ensures id[i] != '\0'
    {
      assert i < |prefix| ==> id[i] == id[..|prefix|][i];
    }
  }

  lemma RefIsConceptID(lib: Library, s: Snapshot, d: Document, id: GoString)
    requires Acceptable(lib, s) && d in s.documents && id in d.conceptIDs
    ensures IsID(CONCEPT_ID, id)
  {
    hide SourceMatches, ScenariosAcceptable, CatalogueHash, SameSource, IsID, Parsed, FlatMap;
    assert RefsResolve(s.documents, d);
    var c :| c in s.documents && c.id == id && c.kind == ConceptKind;
    DocumentShape(lib, c);
  }

  lemma ScenariosAreSourced(lib: Library, s: Snapshot, d: Document, sc: Scenario)
    requires Acceptable(lib, s) && ParsesNulFree(lib) && d in s.documents && sc in ScenariosOf(lib, d)
    ensures Sourced(sc, d.conceptIDs) && d.kind == FeatureKind && sc.featureID == d.id
  {
    hide ScenariosAcceptable, CatalogueHash, SameSource, IsID, Parsed, FlatMap, ScenariosOf, ValidPath, ConceptMatches, FeatureMatches, NulFree;
    ScenarioShape(lib, d, sc);
    DocumentShape(lib, d);
    assert NulFree(SCENARIO_ID) && NulFree(FEATURE_ID) by {
      PrefixesAreNulFree();
    }
    IDsAreNulFree(SCENARIO_ID, sc.id);
    IDsAreNulFree(FEATURE_ID, d.id);
    forall id | id in d.conceptIDs
      ensures IsID(CONCEPT_ID, id)
    {
      RefIsConceptID(lib, s, d, id);
    }
  }

  lemma PrefixesAreNulFree()
    ensures NulFree(SCENARIO_ID) && NulFree(FEATURE_ID)
  {
  }

  predicate SameScenarioEntry(e: Entry, f: Entry) {
    && e.externalID == f.externalID && e.parentID == f.parentID && e.title == f.title && e.body == f.body
    && e.conceptIDs == f.conceptIDs && SameWording(e.steps, f.steps)
  }

  /** Scenario entries of any two accepted snapshots carry the same business hash exactly when
      they say the same. */
  lemma ScenarioHashIsExact(lib: Library, s: Snapshot, t: Snapshot, e: Entry, f: Entry)
    requires CollisionFree(lib) && ParsesNulFree(lib) && Acceptable(lib, s) && Acceptable(lib, t)
    requires e in CatalogueOf(lib, s) && f in CatalogueOf(lib, t) && e.kind == f.kind == ScenarioKind
    ensures e.businessHash == f.businessHash <==> SameScenarioEntry(e, f)
  {
    hide Acceptable, CatalogueOf, ParsesNulFree, BusinessFields, Join, Sourced, ScenariosOf, SameWording;
    var c, sc := ScenarioSource(lib, s, e);
    var d, tc := ScenarioSource(lib, t, f);
    ScenariosAreSourced(lib, s, c, sc);
    ScenariosAreSourced(lib, t, d, tc);
    IdentityIsExact(sc, c.conceptIDs, tc, d.conceptIDs);
  }

  lemma ScenarioSource(lib: Library, s: Snapshot, e: Entry) returns (d: Document, sc: Scenario)
    requires Acceptable(lib, s) && e in CatalogueOf(lib, s) && e.kind == ScenarioKind
    ensures d in s.documents && sc in ScenariosOf(lib, d) && e == ScenarioEntry(lib, d, sc)
  {
    hide CatalogueOf, SourceMatches, ScenariosOf, ScenariosAcceptable, CatalogueHash, SameSource, RefsResolve;
    InCatalogue(lib, s, e);
    d :| d in s.documents && ComesFrom(lib, d, e);
    DocumentShape(lib, d);
    sc :| sc in ScenariosOf(lib, d) && e == ScenarioEntry(lib, d, sc);
  }

  lemma DocumentSource(lib: Library, s: Snapshot, e: Entry) returns (d: Document)
    requires Acceptable(lib, s) && e in CatalogueOf(lib, s) && e.kind != ScenarioKind
    ensures d in s.documents && e == DocumentEntry(d) && SourceMatches(lib, d)
  {
    hide CatalogueOf, SourceMatches, ScenariosOf, ScenariosAcceptable, CatalogueHash, SameSource, RefsResolve;
    InCatalogue(lib, s, e);
    d :| d in s.documents && ComesFrom(lib, d, e);
  }

  lemma SameContentSameTitle(lib: Library, c: Document, d: Document)
    requires SourceMatches(lib, c) && SourceMatches(lib, d) && c.kind == d.kind && c.content == d.content
    ensures c.title == d.title && c.conceptIDs == d.conceptIDs
  {
    hide ValidEncoding, ValidPath, IsID, HasSuffix;
  }

  /** A business hash fixes title and parent: entries of one page with one hash agree on both. */
  lemma SameHashSameTitle(lib: Library, s: Snapshot, t: Snapshot, e: Entry, f: Entry)
    requires CollisionFree(lib) && ParsesNulFree(lib) && Acceptable(lib, s) && Acceptable(lib, t)
    requires e in CatalogueOf(lib, s) && f in CatalogueOf(lib, t) && e.kind == f.kind && e.businessHash == f.businessHash
    ensures e.title == f.title && e.parentID == f.parentID && e.conceptIDs == f.conceptIDs && SameWording(e.steps, f.steps)
  {
    hide Acceptable, CatalogueOf, ParsesNulFree, SourceMatches, ScenariosOf;
    if e.kind == ScenarioKind {
      ScenarioHashIsExact(lib, s, t, e, f);
    } else {
      var c := DocumentSource(lib, s, e);
      var d := DocumentSource(lib, t, f);
      HashIsOfContent(lib, c);
      HashIsOfContent(lib, d);
      SameContentSameTitle(lib, c, d);
    }
  }

  lemma HashIsOfContent(lib: Library, d: Document)
    requires SourceMatches(lib, d)
    ensures d.contentHash == lib.sha256(d.content)
  {
  }

  // ---------------------------------------------------------------- the catalogue hash

  function Row(d: Document): GoString {
    d.path + NUL + d.contentHash + "\n"
  }

  predicate Separable(d: Document) {
    NulFree(d.path) && '\n' !in d.contentHash
  }

  lemma RowsApart(d: Document, e: Document, u: GoString, v: GoString)
    requires Separable(d) && Separable(e) && Row(d) + u == Row(e) + v
    ensures d.path == e.path && d.contentHash == e.contentHash && u == v
  {
    var a, b := d.contentHash + ("\n" + u), e.contentHash + ("\n" + v);
    assert Row(d) + u == d.path + (NUL + a) && Row(e) + v == e.path + (NUL + b);
    SplitAt('\0', d.path, e.path, NUL + a, NUL + b);
    assert a == (NUL + a)[1..] && b == (NUL + b)[1..];
    SplitAt('\n', d.contentHash, e.contentHash, "\n" + u, "\n" + v);
    assert u == ("\n" + u)[1..] && v == ("\n" + v)[1..];
  }

  /** The listing of a catalogue can be read back. */
  lemma {:induction false} ListingIsExact(a: seq<Document>, b: seq<Document>)
    requires (forall d :: d in a ==> Separable(d)) && (forall d :: d in b ==> Separable(d))
    requires Listing(a) == Listing(b)
    ensures |a| == |b| && forall i :: 0 <= i < |a| ==> a[i].path == b[i].path && a[i].contentHash == b[i].contentHash
  {
    hide Separable;
    if a != [] && b != [] {
      assert Listing(a) == Row(a[0]) + Listing(a[1..]) && Listing(b) == Row(b[0]) + Listing(b[1..]);
      RowsApart(a[0], b[0], Listing(a[1..]), Listing(b[1..]));
      ListingIsExact(a[1..], b[1..]);
    }
  }

  lemma InSorted(documents: seq<Document>, d: Document)
    ensures d in documents <==> d in Sort(documents, DocumentPath)
  {
    SortSorts(documents, DocumentPath);
    SameMembers(documents, Sort(documents, DocumentPath));
  }

  lemma InSortedAll(documents: seq<Document>)
    ensures forall d :: d in documents <==> d in Sort(documents, DocumentPath)
  {
    hide Sort;
    forall d
      ensures d in documents <==> d in Sort(documents, DocumentPath)
    {
      InSorted(documents, d);
    }
  }

  lemma HashedElsewhere(lib: Library, a: seq<Document>, b: seq<Document>, d: Document)
    requires CollisionFree(lib) && CatalogueHash(lib, a) == CatalogueHash(lib, b) && d in a
    requires (forall d :: d in a ==> Separable(d)) && (forall d :: d in b ==> Separable(d))
    ensures exists e :: e in b && e.path == d.path && e.contentHash == d.contentHash
  {
    hide Sort, Listing, Separable;
    var s, t := Sort(a, DocumentPath), Sort(b, DocumentPath);
    InSortedAll(a);
    InSortedAll(b);
    ListingIsExact(s, t);
    var i :| 0 <= i < |s| && s[i] == d;
    assert t[i] in b;
  }

  /** The catalogue hash pins down the paths and contents: catalogues with the same hash hold the
      same documents' texts under the same paths. */
  lemma CatalogueHashIsExact(lib: Library, a: seq<Document>, b: seq<Document>)
    requires CollisionFree(lib) && CatalogueHash(lib, a) == CatalogueHash(lib, b)
    requires forall d :: d in a ==> Separable(d) && d.contentHash == lib.sha256(d.content)
    requires forall d :: d in b ==> Separable(d) && d.contentHash == lib.sha256(d.content)
    ensures |a| == |b|
    ensures forall d :: d in a ==> exists e :: e in b && e.path == d.path && e.content == d.content
  {
    hide Sort, Listing, Separable;
    InSortedAll(a);
    InSortedAll(b);
    ListingIsExact(Sort(a, DocumentPath), Sort(b, DocumentPath));
    forall d | d in a
      ensures exists e :: e in b && e.path == d.path && e.content == d.content
    {
      HashedElsewhere(lib, a, b, d);
    }
  }
}
