/** However a text is cut into deltas, the stream filter shows the same visible text. */
module ChunkInvariance {
  import opened GoStrings
  import opened Markers
  import opened StreamFilter

  // ---------------------------------------------------------------- first occurrences and borders

  /** Text without a marker followed by more text: the first marker begins no earlier than the
      longest marker head the first part ends in. */
  lemma FirstStartAcrossBorder(b: GoString, u: GoString, j: int)
    requires Index(b, START) < 0 && OccursAt(b + u, START, j)
    ensures |b| - Held(b) <= j
  {
    hide Index, IndexFrom;
    OccursInConcat(b, u, START, j);
    if j < |b| {
      var n := |b| - j;
      assert (b + u)[j..j + |START|][..n] == b[|b| - n..];
      assert EndsInHead(b, START, n);
    }
  }

  lemma IndexAfterPrefix(p: GoString, q: GoString, m: GoString)
    requires forall j :: OccursAt(p + q, m, j) ==> |p| <= j
    ensures Index(p + q, m) == if Index(q, m) < 0 then -1 else |p| + Index(q, m)
  {
    hide Index, IndexFrom;
    OccursInConcat(p, q, m, Index(q, m));
    OccursInConcat(p, q, m, Index(p + q, m) - |p|);
  }

  lemma IndexStable(b: GoString, u: GoString, m: GoString)
    requires Index(b, m) >= 0
    ensures Index(b + u, m) == Index(b, m)
  {
    hide Index, IndexFrom;
    OccursInConcat(b, u, m, Index(b, m));
    OccursInConcat(b, u, m, Index(b + u, m));
  }

  // ---------------------------------------------------------------- one feed, any continuation

  /** Inside a block all but the last |END| - 1 bytes of an end-free buffer may be forgotten. */
  lemma DiscardKeepsMeaning(b: GoString, u: GoString)
    requires Index(b, END) < 0 && |b| >= |END| - 1
    ensures FilterText(b + u, true) == FilterText(b[|b| - (|END| - 1)..] + u, true)
  {
    hide Index, IndexFrom, OccursAt, FilterText;
    var p, q := b[..|b| - (|END| - 1)], b[|b| - (|END| - 1)..];
    assert p + q == b && p + (q + u) == b + u;
    forall j | OccursAt(b + u, END, j)
      ensures |p| <= j
    {
      NoEndInside(b, u, j);
    }
    IndexAfterPrefix(p, q + u, END);
    SkipPrefix(p, q + u);
  }

  lemma NoEndInside(b: GoString, u: GoString, j: int)
    requires Index(b, END) < 0 && OccursAt(b + u, END, j)
    ensures |b| - (|END| - 1) <= j
  {
    hide Index, IndexFrom;
    OccursInConcat(b, u, END, j);
  }

  lemma SkipPrefix(p: GoString, v: GoString)
    requires Index(p + v, END) == if Index(v, END) < 0 then -1 else |p| + Index(v, END)
    ensures FilterText(p + v, true) == FilterText(v, true)
  {
    hide Index, IndexFrom, OccursAt;
    var e := Index(v, END);
    if e >= 0 {
      assert (p + v)[|p| + e + |END|..] == v[e + |END|..];
    }
  }

  /** Outside a block everything before the held head may be shown at once. */
  lemma HoldKeepsMeaning(b: GoString, u: GoString, p: GoString, q: GoString)
    requires Index(b, START) < 0 && b == p + q && |q| == Held(b)
    ensures FilterText(b + u, false) == After(p, FilterText(q + u, false))
  {
    hide Index, IndexFrom, FilterText, Held, LongestHead;
    assert b + u == p + (q + u);
    StartBeyondHold(b, u, p, q);
    FilterAfterPrefix(p, q + u);
  }

  lemma StartBeyondHold(b: GoString, u: GoString, p: GoString, q: GoString)
    requires Index(b, START) < 0 && b + u == p + (q + u) && |p| == |b| - Held(b)
    ensures Index(p + (q + u), START) == if Index(q + u, START) < 0 then -1 else |p| + Index(q + u, START)
  {
    hide Index, IndexFrom, Held, LongestHead, OccursAt;
    forall j | OccursAt(b + u, START, j)
      ensures |p| <= j
    {
      FirstStartAcrossBorder(b, u, j);
    }
    IndexAfterPrefix(p, q + u, START);
  }

  /** Text before the first marker is shown unchanged. */
  lemma FilterAfterPrefix(p: GoString, q: GoString)
    requires Index(p + q, START) == if Index(q, START) < 0 then -1 else |p| + Index(q, START)
    ensures FilterText(p + q, false) == After(p, FilterText(q, false))
  {
    hide Index, IndexFrom, OccursAt;
    var i := Index(q, START);
    if i >= 0 {
      assert (p + q)[|p| + i + |START|..] == q[i + |START|..];
      assert (p + q)[..|p| + i] == p + q[..i];
      AfterTwice(p, q[..i], FilterText(q[i + |START|..], true));
    }
  }

  /** What a feed emits, followed by filtering what it kept together with any later text, is the
      filter of the whole, even though the inside branch throws bytes away. */
  lemma {:induction false} DrainKeepsMeaning(b: GoString, inside: bool, u: GoString)
    ensures var d := Drain(b, inside);
            FilterText(b + u, inside) == After(d.output, FilterText(d.buffer + u, d.inside))
    decreases |b|
  {
    MarkerLengths();
    hide Index, IndexFrom, START, END;
    if inside {
      var e := Index(b, END);
      if e < 0 {
        if |b| > DISCARD_ABOVE {
          DiscardKeepsMeaning(b, u);
        }
      } else {
        IndexStable(b, u, END);
        assert (b + u)[e + |END|..] == b[e + |END|..] + u;
        DrainKeepsMeaning(b[e + |END|..], false, u);
      }
    } else if Index(b, START) < 0 {
      var n := |b| - Held(b);
      HoldKeepsMeaning(b, u, b[..n], b[n..]);
    } else {
      var i := Index(b, START);
      IndexStable(b, u, START);
      var rest := b[i + |START|..];
      assert (b + u)[i + |START|..] == rest + u;
      assert (b + u)[..i] == b[..i];
      DrainKeepsMeaning(rest, true, u);
      var d := Drain(rest, true);
      AfterTwice(b[..i], d.output, FilterText(d.buffer + u, d.inside));
    }
  }

  /** What is held after a feed: outside a block the longest marker head that may still be
      completed, inside at most 6144 bytes without an end marker. */
  lemma {:induction false} DrainBounds(b: GoString, inside: bool)
    ensures var d := Drain(b, inside);
            if d.inside then |d.buffer| <= DISCARD_ABOVE && !Contains(d.buffer, END)
            else |d.buffer| < |START| && d.buffer == START[..|d.buffer|]
    decreases |b|
  {
    hide Index, IndexFrom;
    if inside {
      var e := Index(b, END);
      if e < 0 {
        if |b| > DISCARD_ABOVE {
          var q := b[|b| - (|END| - 1)..];
          if Contains(q, END) {
            OccursInSuffix(b, END, |b| - (|END| - 1), Index(q, END));
          }
        }
      } else {
        DrainBounds(b[e + |END|..], false);
      }
    } else {
      var i := Index(b, START);
      if i >= 0 {
        DrainBounds(b[i + |START|..], true);
      }
    }
  }

  // ---------------------------------------------------------------- all deltas of a message

  function Concat(deltas: seq<GoString>): GoString {
    if deltas == [] then "" else deltas[0] + Concat(deltas[1..])
  }

  /** Feeding a list of deltas one after another. */
  function DrainAll(deltas: seq<GoString>, buffer: GoString, inside: bool): Drained
    decreases |deltas|
  {
    if deltas == [] then Drained("", buffer, inside)
    else
      var d := Drain(buffer + deltas[0], inside);
      Prepend(d.output, DrainAll(deltas[1..], d.buffer, d.inside))
  }

  /** Everything emitted by feeding `deltas` and flushing. */
  function Shown(deltas: seq<GoString>, buffer: GoString, inside: bool): GoString {
    var d := DrainAll(deltas, buffer, inside);
    d.output + if d.inside then "" else d.buffer
  }

  predicate Settled(buffer: GoString, inside: bool) {
    if inside then !Contains(buffer, END) else |buffer| < |START|
  }

  lemma FilterOfSettled(buffer: GoString, inside: bool)
    requires Settled(buffer, inside)
    ensures FilterText(buffer, inside) == Filtered(if inside then "" else buffer, inside)
  {
    hide IndexFrom;
  }

  lemma {:induction false} DrainAllKeepsMeaning(deltas: seq<GoString>, buffer: GoString, inside: bool)
    requires Settled(buffer, inside)
    ensures Shown(deltas, buffer, inside) == FilterText(buffer + Concat(deltas), inside).text
    ensures DrainAll(deltas, buffer, inside).inside == FilterText(buffer + Concat(deltas), inside).inside
    decreases |deltas|
  {
    hide Index, IndexFrom, FilterText, Drain;
    if deltas == [] {
      FilterOfSettled(buffer, inside);
      assert buffer + Concat(deltas) == buffer;
    } else {
      var d := Drain(buffer + deltas[0], inside);
      DrainBounds(buffer + deltas[0], inside);
      DrainKeepsMeaning(buffer + deltas[0], inside, Concat(deltas[1..]));
      assert buffer + deltas[0] + Concat(deltas[1..]) == buffer + Concat(deltas);
      DrainAllKeepsMeaning(deltas[1..], d.buffer, d.inside);
      var r := DrainAll(deltas[1..], d.buffer, d.inside);
      assert d.output + r.output + (if r.inside then "" else r.buffer) ==
             d.output + (r.output + if r.inside then "" else r.buffer);
    }
  }

  /** Chunk invariance: the visible text depends on the concatenation only. */
  lemma ChunksDoNotMatter(deltas: seq<GoString>, others: seq<GoString>)
    ensures Shown(deltas, "", false) == FilterText(Concat(deltas), false).text
    ensures Concat(deltas) == Concat(others) ==> Shown(deltas, "", false) == Shown(others, "", false)
  {
    hide Index, IndexFrom;
    DrainAllKeepsMeaning(deltas, "", false);
    DrainAllKeepsMeaning(others, "", false);
    assert "" + Concat(deltas) == Concat(deltas);
    assert "" + Concat(others) == Concat(others);
  }

  // ---------------------------------------------------------------- what the filter means

  /** A text cut at its marker-delimited blocks. */
  datatype Blocks =
    | Plain(text: GoString)
    | Unclosed(text: GoString, hidden: GoString)
    | Block(text: GoString, hidden: GoString, rest: Blocks)

  function Render(b: Blocks): GoString {
    match b
    case Plain(t) => t
    case Unclosed(t, h) => t + START + h
    case Block(t, h, rest) => t + START + h + END + Render(rest)
  }

  function Visible(b: Blocks): GoString {
    match b
    case Plain(t) => t
    case Unclosed(t, h) => t
    case Block(t, h, rest) => t + Visible(rest)
  }

  predicate EndsOpen(b: Blocks) {
    match b
    case Plain(_) => false
    case Unclosed(_, _) => true
    case Block(_, _, rest) => EndsOpen(rest)
  }

  /** Each marker shown is the first one its reader meets. */
  predicate Delimited(b: Blocks) {
    match b
    case Plain(t) => !Contains(t, START)
    case Unclosed(t, h) => Index(t + START, START) == |t| && !Contains(h, END)
    case Block(t, h, rest) => Index(t + START, START) == |t| && Index(h + END, END) == |h| && Delimited(rest)
  }

  /** Every text can be cut in exactly one such way, and the filter shows the visible parts. */
  lemma {:induction false} FilterRemovesTheBlocks(b: Blocks)
    requires Delimited(b)
    ensures FilterText(Render(b), false) == Filtered(Visible(b), EndsOpen(b))
  {
    hide Index, IndexFrom;
    match b
    case Plain(t) =>
    case Unclosed(t, h) =>
      IndexStable(t + START, h, START);
      assert Render(b)[|t| + |START|..] == h && Render(b)[..|t|] == t;
    case Block(t, h, rest) =>
      FilterRemovesTheBlocks(rest);
      FilterSkipsBlock(t, h, Render(rest));
  }

  lemma FilterSkipsBlock(t: GoString, h: GoString, rest: GoString)
    requires Index(t + START, START) == |t| && Index(h + END, END) == |h|
    ensures FilterText(t + START + h + END + rest, false) == After(t, FilterText(rest, false))
  {
    hide Index, IndexFrom, OccursAt, FilterText;
    var u := h + END + rest;
    assert t + START + h + END + rest == (t + START) + u && u == (h + END) + rest;
    IndexStable(t + START, u, START);
    IndexStable(h + END, rest, END);
    FilterEnters(t, u);
    FilterLeaves(h, rest);
  }

  lemma FilterEnters(t: GoString, u: GoString)
    requires Index((t + START) + u, START) == |t|
    ensures FilterText((t + START) + u, false) == After(t, FilterText(u, true))
  {
    hide Index, IndexFrom, OccursAt;
    assert ((t + START) + u)[|t| + |START|..] == u && ((t + START) + u)[..|t|] == t;
  }

  lemma FilterLeaves(h: GoString, rest: GoString)
    requires Index((h + END) + rest, END) == |h|
    ensures FilterText((h + END) + rest, true) == FilterText(rest, false)
  {
    hide Index, IndexFrom, OccursAt;
    assert ((h + END) + rest)[|h| + |END|..] == rest;
  }

  lemma {:induction false} EveryTextHasBlocks(s: GoString) returns (b: Blocks)
    ensures Delimited(b) && Render(b) == s
    decreases |s|
  {
    MarkerLengths();
    hide Index, IndexFrom, OccursAt, START, END;
    var i := Index(s, START);
    if i < 0 {
      return Plain(s);
    }
    var t, u := s[..i], s[i + |START|..];
    CutAtFirst(s, START, i);
    var e := Index(u, END);
    if e < 0 {
      return Unclosed(t, u);
    }
    CutAtFirst(u, END, e);
    var rest := EveryTextHasBlocks(u[e + |END|..]);
    b := Block(t, u[..e], rest);
    assert t + START + u[..e] + END + Render(rest) == t + START + (u[..e] + END + Render(rest));
  }

  /** A text cut around its first marker: the pieces give the text back, and that marker stays first. */
  lemma CutAtFirst(s: GoString, m: GoString, i: int)
    requires Index(s, m) == i >= 0
    ensures s == s[..i] + m + s[i + |m|..]
    ensures Index(s[..i] + m, m) == i
  {
    hide Index, IndexFrom;
    var p, q := s[..i + |m|], s[i + |m|..];
    assert p + q == s && p == s[..i] + m;
    OccursInConcat(p, q, m, i);
    OccursInConcat(p, q, m, Index(p, m));
  }

  /** The first marker of a rendered text tells how its cutting begins. */
  lemma FirstMarker(b: Blocks)
    requires Delimited(b)
    ensures Index(Render(b), START) == if b.Plain? then -1 else |b.text|
    ensures !b.Plain? ==> |b.text| + |START| <= |Render(b)| && Render(b)[..|b.text|] == b.text
    ensures !b.Plain? ==> Behind(b) == Render(b)[|b.text| + |START|..]
  {
    hide Index, IndexFrom, OccursAt;
    if !b.Plain? {
      IndexStable(b.text + START, Behind(b), START);
      RenderIs(b);
      assert ((b.text + START) + Behind(b))[|b.text| + |START|..] == Behind(b);
      assert ((b.text + START) + Behind(b))[..|b.text|] == b.text;
    }
  }

  /** What follows the first start marker. */
  function Behind(b: Blocks): GoString {
    match b
    case Plain(_) => ""
    case Unclosed(_, h) => h
    case Block(_, h, rest) => (h + END) + Render(rest)
  }

  lemma RenderIs(b: Blocks)
    requires !b.Plain?
    ensures Render(b) == (b.text + START) + Behind(b)
  {
    if b.Block? {
      assert b.text + START + b.hidden + END + Render(b.rest) == (b.text + START) + ((b.hidden + END) + Render(b.rest));
    }
  }

  /** The first end marker behind it tells how the cutting goes on. */
  lemma FirstClosing(b: Blocks)
    requires Delimited(b) && !b.Plain?
    ensures Index(Behind(b), END) == if b.Unclosed? then -1 else |b.hidden|
    ensures b.Block? ==> |b.hidden| + |END| <= |Behind(b)| && Behind(b)[..|b.hidden|] == b.hidden
    ensures b.Block? ==> Render(b.rest) == Behind(b)[|b.hidden| + |END|..]
  {
    hide Index, IndexFrom, OccursAt;
    if b.Block? {
      IndexStable(b.hidden + END, Render(b.rest), END);
      assert ((b.hidden + END) + Render(b.rest))[|b.hidden| + |END|..] == Render(b.rest);
      assert ((b.hidden + END) + Render(b.rest))[..|b.hidden|] == b.hidden;
    }
  }

  /** There is only one such cutting of a text. */
  lemma {:induction false} BlocksAreUnique(a: Blocks, b: Blocks)
    requires Delimited(a) && Delimited(b) && Render(a) == Render(b)
    ensures a == b
  {
    hide Index, IndexFrom, OccursAt, Render, Behind;
    FirstMarker(a);
    FirstMarker(b);
    if a.Plain? {
      PlainIsItself(a);
      PlainIsItself(b);
    } else {
      FirstClosing(a);
      FirstClosing(b);
      if a.Block? {
        BlocksAreUnique(a.rest, b.rest);
      } else {
        UnclosedBehind(a);
        UnclosedBehind(b);
      }
    }
  }

  lemma PlainIsItself(b: Blocks)
    requires b.Plain?
    ensures Render(b) == b.text
  {
  }

  lemma UnclosedBehind(b: Blocks)
    requires b.Unclosed?
    ensures Behind(b) == b.hidden
  {
  }
}
