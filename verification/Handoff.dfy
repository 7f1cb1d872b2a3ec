/** `formatHandoff`: the newest lines of a conversation, cut to 4096 bytes at rune starts. */
module Handoff {
  import opened GoStrings
  import opened Utf8

  const MAX_BYTES: nat := 4096
  const MAX_MESSAGES: nat := 20

  /** The newest lines that fit into `room` bytes, oldest first. The first line that no longer fits
      is cut, and nothing older is kept. */
  function Kept(lines: seq<GoString>, room: nat): GoString
    decreases |lines|
  {
    if lines == [] then ""
    else
      var last := lines[|lines| - 1];
      if |last| > room then (if room > 0 then Truncated(last, room) else "")
      else Kept(lines[..|lines| - 1], room - |last|) + last
  }

  function Newest(lines: seq<GoString>): seq<GoString> {
    if |lines| > MAX_MESSAGES then lines[|lines| - MAX_MESSAGES..] else lines
  }

  function Join(lines: seq<GoString>): GoString {
    if lines == [] then "" else lines[0] + Join(lines[1..])
  }

  function Reversed(lines: seq<GoString>): (r: seq<GoString>)
    ensures |r| == |lines|
  {
    if lines == [] then [] else Reversed(lines[1..]) + [lines[0]]
  }

  lemma {:induction false} JoinOneMore(lines: seq<GoString>, line: GoString)
    ensures Join(lines + [line]) == Join(lines) + line
  {
    if lines == [] {
      assert [] + [line] == [line] && [line][1..] == [];
    } else {
      assert (lines + [line])[1..] == lines[1..] + [line];
      JoinOneMore(lines[1..], line);
    }
  }

  lemma {:induction false} ReversedOneMore(lines: seq<GoString>, line: GoString)
    ensures Reversed(lines + [line]) == [line] + Reversed(lines)
  {
    if lines == [] {
      assert [] + [line] == [line] && [line][1..] == [];
    } else {
      assert (lines + [line])[1..] == lines[1..] + [line];
      ReversedOneMore(lines[1..], line);
    }
  }

  lemma {:induction false} ReversedAt(lines: seq<GoString>, k: nat)
    requires k < |lines|
    ensures Reversed(lines)[k] == lines[|lines| - 1 - k]
  {
    if |lines| > 1 {
      ReversedAt(lines[1..], if k < |lines| - 1 then k else 0);
    }
  }

  /** `lines` holds one rendered line per message, secrets already redacted, oldest first. */
  method FormatHandoff(lines: seq<GoString>) returns (r: GoString)
    ensures r == TrimSpace(Kept(Newest(lines), MAX_BYTES))
  {
    hide TrimSpace;
    var messages := lines;
    if |messages| > MAX_MESSAGES {
      messages := messages[|messages| - MAX_MESSAGES..];
    }
    var chosen := ChooseNewest(messages);
    chosen := ReverseLines(chosen);
    r := TrimSpace(Join(chosen));
  }

  /** The loop from the newest message back. */
  method ChooseNewest(messages: seq<GoString>) returns (chosen: seq<GoString>)
    ensures Join(Reversed(chosen)) == Kept(messages, MAX_BYTES)
  {
    hide Truncated;
    chosen := [];
    var total := 0;
    assert messages[..|messages|] == messages;
    assert Kept(messages, MAX_BYTES) + "" == Kept(messages, MAX_BYTES);
    var index := |messages|;
    while index > 0
      invariant 0 <= index <= |messages| && total <= MAX_BYTES
      invariant Kept(messages[..index], MAX_BYTES - total) + Join(Reversed(chosen)) == Kept(messages, MAX_BYTES)
    {
      index := index - 1;
      var line := messages[index];
      assert messages[..index + 1][..index] == messages[..index];
      if total + |line| > MAX_BYTES {
        var remaining := MAX_BYTES - total;
        if remaining > 0 {
          var cut := TruncateUTF8(line, remaining);
          ReversedOneMore(chosen, cut);
          JoinFront(cut, Reversed(chosen));
          chosen := chosen + [cut];
        }
        return;
      }
      ReversedOneMore(chosen, line);
      JoinFront(line, Reversed(chosen));
      assert Kept(messages[..index], MAX_BYTES - total - |line|) + line + Join(Reversed(chosen)) ==
             Kept(messages[..index], MAX_BYTES - total - |line|) + (line + Join(Reversed(chosen)));
      chosen := chosen + [line];
      total := total + |line|;
    }
    assert "" + Join(Reversed(chosen)) == Join(Reversed(chosen));
  }

  lemma JoinFront(line: GoString, lines: seq<GoString>)
    ensures Join([line] + lines) == line + Join(lines)
  {
    assert ([line] + lines)[1..] == lines;
  }

  /** The swaps from both ends towards the middle. */
  method ReverseLines(lines: seq<GoString>) returns (r: seq<GoString>)
    ensures r == Reversed(lines)
  {
    r := lines;
    var left, right := 0, |r| - 1;
    while left < right
      invariant |r| == |lines| && 0 <= left <= right + 1 && left + right == |r| - 1
      invariant forall k :: left <= k <= right ==> r[k] == lines[k]
      invariant forall k :: 0 <= k < left ==> r[k] == lines[|r| - 1 - k]
      invariant forall k :: right < k < |r| ==> r[k] == lines[|r| - 1 - k]
    {
      r := r[left := r[right]][right := r[left]];
      left, right := left + 1, right - 1;
    }
    forall k | 0 <= k < |r|
      ensures r[k] == Reversed(lines)[k]
    {
      ReversedAt(lines, k);
    }
  }

  // ---------------------------------------------------------------- size, validity, content

  lemma {:induction false} KeptFits(lines: seq<GoString>, room: nat)
    ensures |Kept(lines, room)| <= room
    decreases |lines|
  {
    if lines != [] {
      var last := lines[|lines| - 1];
      if |last| <= room {
        KeptFits(lines[..|lines| - 1], room - |last|);
      }
    }
  }

  /** The last `whole` lines, joined. */
  function NewestWhole(texts: seq<Text>, whole: nat): GoString
    requires whole <= |texts|
  {
    Join(Lines(texts[|texts| - whole..]))
  }

  /** The newest whole lines that fit are kept unchanged, in order; of the next older one a head of
      as many whole runes as fit is kept; nothing older is. */
  ghost predicate Keeps(texts: seq<Text>, room: nat, whole: nat, head: Text)
    requires whole <= |texts|
  {
    var tail := NewestWhole(texts, whole);
    && Kept(Lines(texts), room) == Encode(head) + tail
    && |tail| <= room
    && (whole == |texts| ==> head == [])
    && (whole < |texts| ==>
          var older := texts[|texts| - whole - 1];
          |Encode(older)| + |tail| > room && head == older[..RunesWithin(older, room - |tail|)])
  }

  lemma {:induction false} KeptIsNewest(texts: seq<Text>, room: nat) returns (whole: nat, head: Text)
    ensures whole <= |texts| && Keeps(texts, room, whole, head)
    decreases |texts|
  {
    hide Encode, RunesWithin, Keeps;
    if texts == [] {
      NothingKept(texts, room);
      return 0, [];
    }
    var n := |texts| - 1;
    if |Encode(texts[n])| > room {
      whole, head := 0, texts[n][..RunesWithin(texts[n], room)];
      FirstLineCut(texts, room);
    } else {
      var w;
      w, head := KeptIsNewest(texts[..n], room - |Encode(texts[n])|);
      whole := w + 1;
      OneMoreLine(texts, room, w, head);
    }
  }

  lemma NothingKept(texts: seq<Text>, room: nat)
    requires texts == []
    ensures Keeps(texts, room, 0, [])
  {
  }

  lemma FirstLineCut(texts: seq<Text>, room: nat)
    requires texts != [] && |Encode(texts[|texts| - 1])| > room
    ensures Keeps(texts, room, 0, texts[|texts| - 1][..RunesWithin(texts[|texts| - 1], room)])
  {
    hide Encode, Truncated;
    var last := texts[|texts| - 1];
    assert Lines(texts[|texts|..]) == [];
    assert Encode(last[..RunesWithin(last, room)]) + "" == Encode(last[..RunesWithin(last, room)]);
    if room > 0 {
      TruncationKeepsWholeRunes(last, room);
    } else {
      NoRuneInNoRoom(last);
    }
  }

  lemma NewestWholeOneMore(texts: seq<Text>, w: nat)
    requires texts != [] && w < |texts|
    ensures NewestWhole(texts, w + 1) == NewestWhole(texts[..|texts| - 1], w) + Encode(texts[|texts| - 1])
  {
    hide Encode, Join;
    var n := |texts| - 1;
    var older := Lines(texts[..n][n - w..]);
    assert Lines(texts[n - w..]) == older + [Encode(texts[n])];
    JoinOneMore(older, Encode(texts[n]));
  }

  lemma OneMoreLine(texts: seq<Text>, room: nat, w: nat, head: Text)
    requires texts != [] && w < |texts|
    requires var n := |texts| - 1; |Encode(texts[n])| <= room && Keeps(texts[..n], room - |Encode(texts[n])|, w, head)
    ensures Keeps(texts, room, w + 1, head)
  {
    hide Encode, NewestWhole, RunesWithin;
    var n := |texts| - 1;
    var last, tail := Encode(texts[n]), NewestWhole(texts[..n], w);
    assert Lines(texts)[..n] == Lines(texts[..n]);
    NewestWholeOneMore(texts, w);
    assert Encode(head) + tail + last == Encode(head) + (tail + last);
  }

  lemma NoRuneInNoRoom(t: Text)
    ensures Encode(t[..RunesWithin(t, 0)]) == ""
  {
  }

  function Lines(texts: seq<Text>): seq<GoString> {
    seq(|texts|, i requires 0 <= i < |texts| => Encode(texts[i]))
  }

  lemma {:induction false} JoinIsText(texts: seq<Text>) returns (t: Text)
    ensures Encode(t) == Join(Lines(texts))
  {
    hide EncodeRune;
    if texts == [] {
      return [];
    }
    var rest := JoinIsText(texts[1..]);
    assert Lines(texts)[1..] == Lines(texts[1..]);
    EncodeConcat(texts[0], rest);
    return texts[0] + rest;
  }

  /** A handoff of valid text is valid text of at most 4096 bytes. */
  lemma HandoffIsText(texts: seq<Text>) returns (t: Text)
    ensures TrimSpace(Kept(Newest(Lines(texts)), MAX_BYTES)) == Encode(t) && |Encode(t)| <= MAX_BYTES
  {
    hide TrimSpace, Kept, Join, Encode;
    var newest := if |texts| > MAX_MESSAGES then texts[|texts| - MAX_MESSAGES..] else texts;
    assert Newest(Lines(texts)) == Lines(newest);
    var whole, head := KeptIsNewest(newest, MAX_BYTES);
    var tail := JoinIsText(newest[|newest| - whole..]);
    EncodeConcat(head, tail);
    KeptFits(Lines(newest), MAX_BYTES);
    t := TrimmedIsText(head + tail);
    var i, j := TrimSpaceIsSlice(Kept(Lines(newest), MAX_BYTES));
  }
}
