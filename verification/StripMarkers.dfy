/** `stripInternalMarkers`: the whole-text stripper used for stored and final messages, and its
    agreement with the stream filter. */
module StripMarkers {
  import opened GoStrings
  import opened Markers
  import opened StreamFilter
  import opened ChunkInvariance

  /** Cut the first start marker together with the first later end marker, then start over. */
  function Strip(content: GoString): (r: GoString)
    decreases |content|
  {
    var start := Index(content, START);
    if start < 0 then content
    else
      var end := Index(content[start..], END);
      if end < 0 then content else Strip(content[..start] + content[start + end + |END|..])
  }

  method StripInternalMarkers(content: GoString) returns (r: GoString)
    ensures r == TrimSpace(Strip(content))
  {
    hide Index, IndexFrom;
    var text := content;
    while Contains(text, START)
      invariant Strip(text) == Strip(content)
      decreases |text|
    {
      var start := Index(text, START);
      var end := Index(text[start..], END);
      if end < 0 {
        break;
      }
      end := start + end + |END|;
      text := text[..start] + text[end..];
    }
    r := TrimSpace(text);
  }

  /** Is there a start marker with an end marker anywhere after it? */
  ghost predicate HasBlock(s: GoString) {
    exists i, j :: OccursAt(s, START, i) && i <= j && OccursAt(s, END, j)
  }

  lemma {:induction false} StripLeavesNoBlock(content: GoString)
    ensures !HasBlock(Strip(content))
    decreases |content|
  {
    hide Index, IndexFrom;
    var start := Index(content, START);
    if start >= 0 {
      var end := Index(content[start..], END);
      if end < 0 {
        forall i, j | OccursAt(content, START, i) && i <= j
          ensures !OccursAt(content, END, j)
        {
          OccursInSuffix(content, END, start, j - start);
        }
      } else {
        StripLeavesNoBlock(content[..start] + content[start + end + |END|..]);
      }
    }
  }

  /** After stripping, no start marker is followed by an end marker. */
  lemma StrippedTextHasNoBlock(content: GoString)
    ensures !HasBlock(TrimSpace(Strip(content)))
  {
    hide Index, IndexFrom, Strip, TrimSpace;
    var s := Strip(content);
    StripLeavesNoBlock(content);
    var a, b := TrimSpaceIsSlice(s);
    forall i, j | OccursAt(s[a..b], START, i) && i <= j && OccursAt(s[a..b], END, j)
      ensures OccursAt(s, START, a + i) && OccursAt(s, END, a + j)
    {
      OccursInSlice(s, a, b, START, i);
      OccursInSlice(s, a, b, END, j);
    }
  }

  lemma OccursInSlice(s: GoString, a: nat, b: nat, m: GoString, i: int)
    requires a <= b <= |s| && OccursAt(s[a..b], m, i)
    ensures OccursAt(s, m, a + i)
  {
    assert s[..b] + s[b..] == s && s[..b][a..] == s[a..b];
    OccursInSuffix(s[..b], m, a, i);
    OccursInConcat(s[..b], s[b..], m, a + i);
  }

  // ---------------------------------------------------------------- agreement with the filter

  /** An end marker found after a start marker lies wholly after it. */
  lemma EndAfterStart(s: GoString, i: int)
    requires OccursAt(s, START, i)
    ensures Index(s[i..], END) ==
            if Index(s[i + |START|..], END) < 0 then -1 else |START| + Index(s[i + |START|..], END)
  {
    hide Index, IndexFrom;
    var p, q := s[i..i + |START|], s[i + |START|..];
    assert p + q == s[i..];
    forall j | OccursAt(p + q, END, j)
      ensures |p| <= j
    {
      OccursInSuffix(s, END, i, j);
      if j < |START| {
        EndNeverBeginsInsideStart(s, i, j);
      }
    }
    IndexAfterPrefix(p, q, END);
  }

  lemma StripStep(s: GoString, i: nat, e: nat)
    requires Index(s, START) == i && Index(s[i + |START|..], END) == e
    ensures Strip(s) == Strip(s[..i] + s[i + |START| + e + |END|..])
  {
    hide Index, IndexFrom, OccursAt;
    EndAfterStart(s, i);
  }

  lemma StripKeepsUnclosed(s: GoString)
    requires Index(s, START) >= 0 ==> Index(s[Index(s, START) + |START|..], END) < 0
    ensures Strip(s) == s
  {
    hide Index, IndexFrom, OccursAt;
    if Index(s, START) >= 0 {
      EndAfterStart(s, Index(s, START));
    }
  }

  /** How many letters V a text has: every start marker has two, white space none. */
  function LettersV(s: GoString): nat {
    multiset(s)['V']
  }

  lemma MarkerLetters(p: GoString, q: GoString)
    ensures LettersV(p + START + q) > LettersV(p + q)
    ensures LettersV(p + q) == LettersV(p) + LettersV(q)
  {
    StartHasLetter();
    hide START;
  }

  lemma StartHasLetter()
    ensures 'V' in START
  {
    assert START[3] == 'V';
  }

  /** Cutting out text that contains a start marker cuts out letters. */
  lemma CutLosesLetters(s: GoString, i: nat, k: nat)
    requires OccursAt(s, START, i) && i + |START| <= k <= |s|
    ensures LettersV(s[..i] + s[k..]) < LettersV(s)
  {
    assert s == s[..i] + START + s[i + |START|..];
    assert s[i + |START|..] == s[i + |START|..k] + s[k..];
    MarkerLetters(s[..i], s[i + |START|..]);
    hide START;
  }

  lemma {:induction false} StripKeepsFewer(s: GoString)
    ensures LettersV(Strip(s)) <= LettersV(s)
    decreases |s|
  {
    hide Index, IndexFrom, OccursAt, LettersV;
    var start := Index(s, START);
    if start >= 0 {
      var end := Index(s[start..], END);
      if end >= 0 {
        EndAfterStart(s, start);
        MarkerLengths();
        CutLosesLetters(s, start, start + end + |END|);
        StripKeepsFewer(s[..start] + s[start + end + |END|..]);
      }
    }
  }

  lemma FirstStartBehind(p: GoString, u: GoString)
    requires !Contains(p, START)
    ensures Index(p + (START + u), START) == |p|
  {
    hide Index, IndexFrom;
    var s := p + (START + u);
    assert s[|p|..|p| + |START|] == START && OccursAt(s, START, |p|);
    forall j | OccursAt(s, START, j)
      ensures |p| <= j
    {
      OccursInConcat(p, START + u, START, j);
      if |p| - |START| < j < |p| {
        StartsNeverOverlap(s, j, |p| - j);
      }
    }
  }

  /** The first end marker behind `q` and a block is in `q` or ends the block. */
  lemma FirstEndBehind(q: GoString, h: GoString, w: GoString)
    requires Index(h + END, END) == |h|
    ensures Index(q + (START + ((h + END) + w)), END) ==
            if Contains(q, END) then Index(q, END) else |q| + |START| + |h|
  {
    hide Index, IndexFrom;
    var u := (h + END) + w;
    var s := q + (START + u);
    if Contains(q, END) {
      IndexStable(q, START + u, END);
    } else {
      IndexStable(h + END, w, END);
      assert s == (q + START) + u && s[|q|..|q| + |START|] == START;
      forall j | OccursAt(s, END, j)
        ensures |q + START| <= j
      {
        OccursInConcat(q, START + u, END, j);
        if |q| <= j < |q| + |START| {
          EndNeverBeginsInsideStart(s, |q|, j - |q|);
        } else if |q| - |END| < j < |q| {
          EndNeverRunsIntoStart(s, j, |q| - j);
        }
      }
      IndexAfterPrefix(q + START, u, END);
    }
  }

  /** What stripping cuts first when a block follows `p`: the block, or visible text from the first start
      marker in `p` to an end marker in `p` or to the end of the block. */
  function CutFirst(p: GoString, h: GoString, w: GoString): GoString {
    var i := Index(p, START);
    if i < 0 then p + w
    else
      var e := Index(p[i + |START|..], END);
      if e < 0 then p[..i] + w else p[..i] + p[i + |START| + e + |END|..] + (START + ((h + END) + w))
  }

  lemma StripCutsFirst(p: GoString, h: GoString, w: GoString)
    requires Index(h + END, END) == |h|
    ensures Strip(p + (START + ((h + END) + w))) == Strip(CutFirst(p, h, w))
  {
    MarkerLengths();
    hide Index, IndexFrom, OccursAt, Strip, START, END;
    if Contains(p, START) {
      StripCutsVisible(p, h, w);
    } else {
      var u := (h + END) + w;
      var s := p + (START + u);
      FirstStartBehind(p, u);
      IndexStable(h + END, w, END);
      assert s[|p| + |START|..] == u;
      StripStep(s, |p|, |h|);
      assert s[..|p|] == p && s[|p| + |START| + |h| + |END|..] == w;
    }
  }

  lemma StripCutsVisible(p: GoString, h: GoString, w: GoString)
    requires Index(h + END, END) == |h| && Contains(p, START)
    ensures Strip(p + (START + ((h + END) + w))) == Strip(CutFirst(p, h, w))
  {
    MarkerLengths();
    hide Index, IndexFrom, OccursAt, Strip, START, END;
    var u, i := START + ((h + END) + w), Index(p, START);
    var s, q := p + u, p[i + |START|..];
    IndexStable(p, u, START);
    assert s[i + |START|..] == q + u && s[..i] == p[..i];
    FirstEndBehind(q, h, w);
    var e := Index(q + u, END);
    StripStep(s, i, e);
    var k := i + |START| + e + |END|;
    if Contains(q, END) {
      assert s[k..] == p[k..] + u;
      assert p[..i] + (p[k..] + u) == p[..i] + p[k..] + u;
    } else {
      assert s[k..] == w;
    }
  }

  /** A block joined to the text before it. */
  lemma RenderBehind(p: GoString, b: Blocks)
    requires b.Block?
    ensures p + Render(b) == (p + b.text) + (START + ((b.hidden + END) + Render(b.rest)))
    ensures p + Visible(b) == (p + b.text) + Visible(b.rest)
  {
    RenderIs(b);
    assert p + ((b.text + START) + Behind(b)) == (p + b.text) + (START + Behind(b));
  }

  /** Cutting into visible text never leaves more than the filter shows. */
  lemma {:induction false} StripAtMost(p: GoString, b: Blocks)
    requires Delimited(b) && !EndsOpen(b)
    ensures LettersV(Strip(p + Render(b))) <= LettersV(p + Visible(b))
    ensures b.Block? && Contains(p + b.text, START) ==> LettersV(Strip(p + Render(b))) < LettersV(p + Visible(b))
    decreases |p + Render(b)|
  {
    MarkerLengths();
    hide Index, IndexFrom, OccursAt, Strip, Render, Visible, START, END, LettersV;
    if b.Plain? {
      PlainIsItself(b);
      PlainIsShown(b);
      StripKeepsFewer(p + b.text);
    } else {
      var v, h, w := p + b.text, b.hidden, Render(b.rest);
      RenderBehind(p, b);
      StripCutsFirst(v, h, w);
      var i := Index(v, START);
      if i < 0 {
        StripAtMost(v, b.rest);
      } else {
        var e := Index(v[i + |START|..], END);
        if e < 0 {
          CutOfFront(v, Visible(b.rest), i, |v|);
          StripAtMost(v[..i], b.rest);
        } else {
          var q := v[..i] + v[i + |START| + e + |END|..];
          CutOfFront(v, Visible(b.rest), i, i + |START| + e + |END|);
          EmptyBlock(h, b.rest);
          RenderBehind(q, Block("", h, b.rest));
          assert q + "" == q;
          StripAtMost(q, Block("", h, b.rest));
        }
      }
    }
  }

  lemma CutOfFront(v: GoString, u: GoString, i: nat, k: nat)
    requires Index(v, START) == i && i + |START| <= k <= |v|
    ensures LettersV(v[..i] + v[k..] + u) < LettersV(v + u)
    ensures k == |v| ==> v[..i] + v[k..] == v[..i]
  {
    hide Index, IndexFrom, START;
    OccursInConcat(v, u, START, i);
    CutLosesLetters(v + u, i, k);
    assert (v + u)[..i] == v[..i] && (v + u)[k..] == v[k..] + u;
    assert v[..i] + (v[k..] + u) == v[..i] + v[k..] + u;
  }

  lemma PlainIsShown(b: Blocks)
    requires b.Plain?
    ensures Visible(b) == b.text
  {
  }

  lemma EmptyBlock(h: GoString, rest: Blocks)
    requires Index(h + END, END) == |h| && Delimited(rest) && !EndsOpen(rest)
    ensures Delimited(Block("", h, rest)) && !EndsOpen(Block("", h, rest))
  {
    hide Index, IndexFrom;
    assert "" + START == START && OccursAt(START, START, 0);
  }

  // ---------------------------------------------------------------- when they agree

  /** A block was removed at position `j` of the visible text. */
  predicate SeamAt(b: Blocks, j: int) {
    b.Block? && (j == |b.text| || SeamAt(b.rest, j - |b.text|))
  }

  /** At `j` the visible text, of which the last part comes from `b`, has an end marker or lost a block. */
  predicate Closes(v: GoString, offset: nat, b: Blocks, j: int) {
    OccursAt(v, END, j) || SeamAt(b, j - offset)
  }

  /** A visible start marker is followed by a visible end marker or by the place of a removed block. */
  ghost predicate CutsVisible(v: GoString, offset: nat, b: Blocks) {
    exists i, j :: OccursAt(v, START, i) && i + |START| <= j && Closes(v, offset, b, j)
  }

  lemma PlainAgreesIff(v: GoString, offset: nat, b: Blocks)
    requires b.Plain?
    ensures if CutsVisible(v, offset, b) then LettersV(Strip(v)) < LettersV(v) else Strip(v) == v
  {
    hide Index, IndexFrom, Strip, LettersV;
    var i := Index(v, START);
    if i < 0 || Index(v[i + |START|..], END) < 0 {
      StripKeepsUnclosed(v);
      forall k, j | OccursAt(v, START, k) && k + |START| <= j
        ensures !Closes(v, offset, b, j)
      {
        OccursInSuffix(v, END, i + |START|, j - i - |START|);
      }
    } else {
      var e := Index(v[i + |START|..], END);
      OccursInSuffix(v, END, i + |START|, e);
      assert Closes(v, offset, b, i + |START| + e);
      StripStep(v, i, e);
      CutLosesLetters(v, i, i + |START| + e + |END|);
      StripKeepsFewer(v[..i] + v[i + |START| + e + |END|..]);
    }
  }

  /** Text without a start marker moves from the block to the text before it. */
  lemma CutsBehind(v: GoString, p: GoString, b: Blocks)
    requires b.Block? && !Contains(p + b.text, START) && |p + b.text| <= |v| && v[..|p + b.text|] == p + b.text
    ensures CutsVisible(v, |p|, b) <==> CutsVisible(v, |p + b.text|, b.rest)
  {
    hide Index, IndexFrom;
    var q := p + b.text;
    forall i, j | OccursAt(v, START, i) && i + |START| <= j
      ensures Closes(v, |p|, b, j) <==> Closes(v, |q|, b.rest, j)
    {
      assert v == q + v[|q|..];
      OccursInConcat(q, v[|q|..], START, i);
    }
  }

  lemma VisibleStartCuts(v: GoString, p: GoString, b: Blocks)
    requires b.Block? && Contains(p + b.text, START) && |p + b.text| <= |v| && v[..|p + b.text|] == p + b.text
    ensures CutsVisible(v, |p|, b)
  {
    hide IndexFrom;
    var q := p + b.text;
    var i := Index(q, START);
    assert v == q + v[|q|..];
    OccursInConcat(q, v[|q|..], START, i);
    assert Closes(v, |p|, b, |q|);
  }

  lemma {:induction false} AgreesIff(p: GoString, b: Blocks)
    requires Delimited(b) && !EndsOpen(b)
    ensures if CutsVisible(p + Visible(b), |p|, b) then LettersV(Strip(p + Render(b))) < LettersV(p + Visible(b))
            else Strip(p + Render(b)) == p + Visible(b)
    decreases b
  {
    MarkerLengths();
    hide Index, IndexFrom, OccursAt, Strip, Render, Visible, CutsVisible, START, END;
    var v := p + Visible(b);
    if b.Plain? {
      PlainIsItself(b);
      PlainIsShown(b);
      PlainAgreesIff(v, |p|, b);
    } else {
      var q := p + b.text;
      RenderBehind(p, b);
      if Contains(q, START) {
        VisibleStartCuts(v, p, b);
        StripAtMost(p, b);
      } else {
        StripCutsFirst(q, b.hidden, Render(b.rest));
        CutsBehind(v, p, b);
        AgreesIff(q, b.rest);
      }
    }
  }

  /** Texts with different letters stay different when they are trimmed. */
  lemma LettersTellApart(a: GoString, b: GoString)
    requires LettersV(a) != LettersV(b)
    ensures TrimSpace(a) != TrimSpace(b)
  {
    hide TrimSpace;
    TrimKeepsLetters(a, 'V');
    TrimKeepsLetters(b, 'V');
  }

  /** The two strippers agree on a stream that ends outside a block exactly when no start marker in the
      visible text is followed by a visible end marker or by the place of a removed block; trimming what
      they leave makes no difference to that. */
  lemma StrippersAgreeIff(s: GoString) returns (b: Blocks)
    requires !FilterText(s, false).inside
    ensures Delimited(b) && Render(b) == s && Visible(b) == FilterText(s, false).text
    ensures TrimSpace(Strip(s)) == TrimSpace(FilterText(s, false).text) <==> !CutsVisible(Visible(b), 0, b)
    ensures Strip(s) == FilterText(s, false).text <==> !CutsVisible(Visible(b), 0, b)
  {
    hide Index, IndexFrom, OccursAt, FilterText, Strip, Render, Visible, CutsVisible, TrimSpace, LettersV;
    b := EveryTextHasBlocks(s);
    FilterRemovesTheBlocks(b);
    assert "" + s == s && "" + Visible(b) == Visible(b);
    AgreesIff("", b);
    if CutsVisible(Visible(b), 0, b) {
      LettersTellApart(Strip(s), Visible(b));
    }
  }

  lemma {:induction false} OpenIsKept(p: GoString, b: Blocks)
    requires Delimited(b) && EndsOpen(b) && !Contains(p + Visible(b), START)
    ensures LettersV(Strip(p + Render(b))) > LettersV(p + Visible(b))
    decreases b
  {
    MarkerLengths();
    hide Index, IndexFrom, OccursAt, Strip, START, END, LettersV;
    var q := p + b.text;
    if b.Unclosed? {
      RenderIs(b);
      var s := q + (START + b.hidden);
      assert p + Render(b) == s && s[|q| + |START|..] == b.hidden;
      FirstStartBehind(q, b.hidden);
      StripKeepsUnclosed(s);
      MarkerLetters(q, b.hidden);
      assert s == q + START + b.hidden;
    } else {
      RenderBehind(p, b);
      NoneInFront(q, Visible(b.rest));
      StripCutsFirst(q, b.hidden, Render(b.rest));
      OpenIsKept(q, b.rest);
    }
  }

  lemma NoneInFront(p: GoString, q: GoString)
    requires !Contains(p + q, START)
    ensures !Contains(p, START)
  {
    hide IndexFrom;
    OccursInConcat(p, q, START, Index(p, START));
  }

  /** As long as no start marker is visible, they agree exactly on the streams that end outside a block. */
  lemma StrippersAgree(s: GoString)
    requires !Contains(FilterText(s, false).text, START)
    ensures TrimSpace(Strip(s)) == TrimSpace(FilterText(s, false).text) <==> !FilterText(s, false).inside
    ensures Strip(s) == FilterText(s, false).text <==> !FilterText(s, false).inside
  {
    hide Index, IndexFrom, FilterText, Strip, Render, Visible, Closes, TrimSpace, LettersV;
    var b := EveryTextHasBlocks(s);
    FilterRemovesTheBlocks(b);
    assert "" + s == s && "" + Visible(b) == Visible(b);
    if EndsOpen(b) {
      OpenIsKept("", b);
      LettersTellApart(Strip(s), Visible(b));
    } else {
      AgreesIff("", b);
    }
  }

  /** They do differ, either way: an unfinished block is hidden by the filter but kept by the stripper,
      and a start marker joined from two visible pieces is shown by the filter but removed together
      with a later end marker by the stripper. */
  lemma StrippersCanDiffer()
    ensures exists s :: FilterText(s, false) == Filtered("", true) && TrimSpace(Strip(s)) != TrimSpace("")
    ensures exists s :: !FilterText(s, false).inside && TrimSpace(Strip(s)) != TrimSpace(FilterText(s, false).text)
  {
    hide Index, IndexFrom, OccursAt, FilterText, Strip, TrimSpace, LettersV, CutsVisible, Render, Visible;
    UnfinishedBlock();
    assert !Contains("", START);
    StrippersAgree(START);
    var b := JoinedBlocks();
    FilterRemovesTheBlocks(b);
    var c := StrippersAgreeIff(Render(b));
    MarkersInOrder(c);
  }

  /** A block between the first byte of a start marker and the rest of it. */
  lemma JoinedBlocks() returns (b: Blocks)
    ensures Delimited(b) && Visible(b) == START + END && !EndsOpen(b)
  {
    hide Index, IndexFrom, OccursAt, Delimited, Visible, EndsOpen;
    var h, t := START[..1], START[1..];
    JoinedMarker(h, t);
    HeadAndTail(START, END);
    b := BlockBetween(h, t + END);
  }

  lemma HeadAndTail(s: GoString, u: GoString)
    requires s != ""
    ensures s[..1] + (s[1..] + u) == s + u
  {
  }

  lemma BlockBetween(h: GoString, rest: GoString) returns (b: Blocks)
    requires Index(h + START, START) == |h| && Index("" + END, END) == 0 && !Contains(rest, START)
    ensures Delimited(b) && Visible(b) == h + rest && !EndsOpen(b)
  {
    hide Index, IndexFrom, OccursAt;
    b := Block(h, "", Plain(rest));
  }

  lemma MarkersInOrder(b: Blocks)
    ensures CutsVisible(START + END, 0, b)
  {
    assert (START + END)[..|START|] == START && (START + END)[|START|..] == END;
    assert OccursAt(START + END, START, 0) && OccursAt(START + END, END, |START|);
    assert Closes(START + END, 0, b, |START|);
  }

  lemma UnfinishedBlock()
    ensures FilterText(START, false) == Filtered("", true) && Strip(START) == START
  {
    hide Index, IndexFrom;
    assert START[..0] == "" && START[0..] == START && START[|START|..] == "";
    assert OccursAt(START, START, 0);
    assert Index(START, END) < 0 && Index("", END) < 0;
  }

  lemma JoinedMarker(h: GoString, t: GoString)
    requires h == START[..1] && t == START[1..]
    ensures Index(h + START, START) == |h| && Index("" + END, END) == 0 && !Contains(t + END, START)
  {
    hide Index, IndexFrom;
    HeadIsNoMarker(h);
    assert "" + END == END && OccursAt(END, END, 0);
    forall j | 0 <= j <= |t + END| - |START|
      ensures !OccursAt(t + END, START, j)
    {
      NoStartAt(t, j);
    }
  }

  lemma HeadIsNoMarker(h: GoString)
    requires |h| == 1
    ensures Index(h + START, START) == 1
  {
    hide Index, IndexFrom;
    assert OccursAt(h + START, START, 1);
    if OccursAt(h + START, START, 0) {
      StartsNeverOverlap(h + START, 0, 1);
    }
  }

  lemma NoStartAt(t: GoString, j: nat)
    requires t == START[1..] && j <= |t + END| - |START|
    ensures !OccursAt(t + END, START, j)
  {
    var s := t + END;
    assert s[j..j + |START|][29] == s[j + 29] == END[j];
    assert s[j..j + |START|][1] == s[j + 1];
    ClosingBrackets(j);
    if j >= 31 {
      assert s[j + 1] == END[j - 28];
    }
  }

  lemma ClosingBrackets(j: nat)
    requires j < |END|
    ensures END[j] == '>' ==> j >= 31 && END[j - 28] != '<'
  {
  }
}
