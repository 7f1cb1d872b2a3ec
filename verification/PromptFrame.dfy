/** The frame around a prompt: printing, parsing and the round trip between them. */
module PromptFrame {
  import opened GoStrings
  import opened Markers
  import opened Utf8
  import opened JsonText
  import opened Options

  const OPENING: GoString := START + "\n"
  const CLOSING: GoString := "\n" + END + "\n"

  /** `wrapPrompt`; `mac` stands for the keyed hash of the encoded unsigned metadata. */
  function Wrap(m: Metadata, content: GoString, mac: GoString -> Text): GoString {
    OPENING + Marshal(Signed(m, mac)) + CLOSING + content
  }

  function Signed(m: Metadata, mac: GoString -> Text): Metadata {
    m.(signature := mac(Marshal(m.(signature := []))))
  }

  /** `OutOfRange` is the run-time panic of slicing with a lower bound above the upper one. */
  datatype Unwrapped = Foreign | OutOfRange | Framed(metadata: Metadata, visible: GoString)

  /** `unwrapPrompt`; `decode` stands for `json.Unmarshal`. */
  function Unwrap(content: GoString, decode: GoString -> Option<Metadata>, mac: GoString -> Text): Unwrapped {
    if !(OPENING <= content) then Foreign
    else
      var end := Index(content, CLOSING);
      if end < 0 then Foreign
      else if end < |OPENING| then OutOfRange
      else
        var metadata := decode(content[|OPENING|..end]);
        if metadata.None? || metadata.value.signature == [] then Foreign
        else if metadata.value != Signed(metadata.value, mac) then Foreign
        else Framed(metadata.value, content[end + |CLOSING|..])
  }

  /** The closing line of a frame is found right behind a one-line header that is no marker. */
  lemma ClosingBehindHeader(header: GoString, content: GoString)
    requires '\n' !in header && header != "" && header[0] != '<'
    ensures Index(OPENING + header + CLOSING + content, CLOSING) == |OPENING| + |header|
  {
    hide Index, IndexFrom;
    var s := OPENING + header + CLOSING + content;
    var e := |OPENING| + |header|;
    assert s[e..e + |CLOSING|] == CLOSING;
    assert OccursAt(s, CLOSING, e);
    forall j | 0 <= j < e
      ensures !OccursAt(s, CLOSING, j)
    {
      NoClosingWithin(header, CLOSING + content, j);
      assert OPENING + header + (CLOSING + content) == s;
    }
  }

  lemma NoClosingWithin(header: GoString, rest: GoString, j: nat)
    requires '\n' !in header && header != "" && header[0] != '<' && j < |OPENING| + |header|
    ensures !OccursAt(OPENING + header + rest, CLOSING, j)
  {
    var s := OPENING + header + rest;
    if j + |CLOSING| <= |s| {
      assert s[j..j + |CLOSING|][0] == s[j] && s[j..j + |CLOSING|][1] == s[j + 1];
      if j == |START| {
        assert s[j + 1] == header[0];
      } else if j < |START| {
        assert s[j] == START[j];
      } else {
        assert s[j] == header[j - |OPENING|];
      }
    }
  }

  /** Round trip: whatever the content, even one holding markers or whole frames, unwrapping a
      wrapped prompt gives back the signed metadata and exactly the content. */
  lemma UnwrapOfWrap(m: Metadata, content: GoString, decode: GoString -> Option<Metadata>, mac: GoString -> Text)
    requires forall x :: decode(Marshal(x)) == Some(x)
    requires forall x :: mac(x) != []
    ensures Unwrap(Wrap(m, content, mac), decode, mac) == Framed(Signed(m, mac), content)
  {
    hide Index, IndexFrom, Marshal;
    var signed := Signed(m, mac);
    var header := Marshal(signed);
    MarshalIsOneLine(signed);
    ClosingBehindHeader(header, content);
    FramePieces(header, content);
    assert signed.(signature := []) == m.(signature := []);
    assert Signed(signed, mac) == signed;
  }

  lemma FramePieces(header: GoString, content: GoString)
    ensures var s := OPENING + header + CLOSING + content;
            && OPENING <= s
            && s[|OPENING|..|OPENING| + |header|] == header
            && s[|OPENING| + |header| + |CLOSING|..] == content
  {
    var s := OPENING + header + CLOSING + content;
    assert s[..|OPENING|] == OPENING;
  }

  /** What is accepted is authentic: a frame with a header in its encoded form is exactly what
      wrapping its metadata and visible content prints. */
  lemma WrapOfUnwrap(content: GoString, decode: GoString -> Option<Metadata>, mac: GoString -> Text)
    requires var u := Unwrap(content, decode, mac);
             u.Framed? && OPENING + Marshal(u.metadata) + CLOSING <= content
    ensures var u := Unwrap(content, decode, mac); content == Wrap(u.metadata, u.visible, mac)
  {
    hide Index, IndexFrom, Marshal;
    var u := Unwrap(content, decode, mac);
    var header := Marshal(u.metadata);
    MarshalIsOneLine(u.metadata);
    var rest := content[|OPENING + header + CLOSING|..];
    assert content == OPENING + header + CLOSING + rest;
    ClosingBehindHeader(header, rest);
    FramePieces(header, rest);
  }

  /** The parser runs out of range exactly on texts that begin with an empty frame, and so never on
      a wrapped prompt. */
  lemma OutOfRangeOnEmptyFrame(content: GoString, decode: GoString -> Option<Metadata>, mac: GoString -> Text)
    ensures Unwrap(content, decode, mac) == OutOfRange <==> START + CLOSING <= content
  {
    hide Index, IndexFrom;
    if OPENING <= content {
      assert content[|START|] == '\n';
      forall j | 0 <= j < |START|
        ensures !OccursAt(content, CLOSING, j)
      {
        assert content[j] == OPENING[j] == START[j];
        if j + |CLOSING| <= |content| {
          assert content[j..j + |CLOSING|][0] == content[j];
        }
      }
      if OccursAt(content, CLOSING, |START|) {
        assert content[..|START| + |CLOSING|] == content[..|START|] + content[|START|..|START| + |CLOSING|];
      }
    }
    if START + CLOSING <= content {
      assert content[..|START| + |CLOSING|] == START + CLOSING;
      assert content[..|OPENING|] == OPENING;
      assert content[|START|..|START| + |CLOSING|] == CLOSING;
    }
  }

  /** A decoder as the round trip asks for exists: encoded metadata determines the metadata. */
  ghost function DecodeHeader(encoded: GoString): Option<Metadata> {
    if m: Metadata :| Marshal(m) == encoded then Some(m) else None
  }

  lemma DecodeInvertsMarshal(m: Metadata)
    ensures DecodeHeader(Marshal(m)) == Some(m)
  {
    hide Marshal;
    var d := DecodeHeader(Marshal(m));
    assert d.Some? && Marshal(d.value) == Marshal(m);
    MarshalIsInjective(d.value, m);
  }
}
