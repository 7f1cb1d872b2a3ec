/** Go's JSON encoding of strings (section 7 of RFC 8259, with HTML escaping) and of the internal
    prompt's metadata. */
module JsonText {
  import opened GoStrings
  import opened Utf8

  function HexDigit(n: nat): char
    requires n < 16
  {
    if n < 10 then '0' + n as char else 'a' + (n - 10) as char
  }

  /** Quotes, backslashes, control characters, `<`, `>`, `&`, U+2028 and U+2029 are escaped. */
  function EscapeRune(r: Rune): GoString {
    match r as int
    case 0x22 => "\\\""
    case 0x5C => "\\\\"
    case 0x08 => "\\b"
    case 0x0C => "\\f"
    case 0x0A => "\\n"
    case 0x0D => "\\r"
    case 0x09 => "\\t"
    case 0x2028 => "\\u2028"
    case 0x2029 => "\\u2029"
    case n =>
      if n < 0x20 || n == 0x3C || n == 0x3E || n == 0x26
      then "\\u00" + [HexDigit(n / 16), HexDigit(n % 16)]
      else EncodeRune(r)
  }

  function EscapeText(t: Text): GoString {
    if t == [] then "" else EscapeRune(t[0]) + EscapeText(t[1..])
  }

  function JsonString(t: Text): GoString {
    "\"" + EscapeText(t) + "\""
  }

  // ---------------------------------------------------------------- what escaping keeps out

  lemma EscapedRuneIsClean(r: Rune)
    ensures '\n' !in EscapeRune(r) && '<' !in EscapeRune(r) && EscapeRune(r) != "" && EscapeRune(r)[0] != '"'
  {
    if r as int >= 0x80 {
      EncodedBytesAreHigh(r);
    } else {
      AsciiIsClean(r);
    }
  }

  lemma AsciiIsClean(r: Rune)
    requires r as int < 0x80
    ensures '\n' !in EscapeRune(r) && '<' !in EscapeRune(r) && EscapeRune(r) != "" && EscapeRune(r)[0] != '"'
  {
  }

  lemma EncodedBytesAreHigh(r: Rune)
    requires r as int >= 0x80
    ensures forall i :: 0 <= i < |EncodeRune(r)| ==> EncodeRune(r)[i] as int >= 0x80
  {
  }

  lemma {:induction false} EscapedTextIsClean(t: Text)
    ensures '\n' !in EscapeText(t) && '<' !in EscapeText(t)
  {
    hide EscapeRune;
    if t != [] {
      EscapedRuneIsClean(t[0]);
      EscapedTextIsClean(t[1..]);
    }
  }

  // ---------------------------------------------------------------- escaping loses nothing

  function HexValue(c: char): int {
    if c <= '9' then c as int - '0' as int else c as int - 'a' as int + 10
  }

  /** The rune an escape stands for. */
  function Unescaped(e: GoString): int {
    if e == "" then 0
    else if e[0] != '\\' then Bits(e)
    else if |e| == 6 then ((HexValue(e[2]) * 16 + HexValue(e[3])) * 16 + HexValue(e[4])) * 16 + HexValue(e[5])
    else if |e| == 2 then
      match e[1]
      case 'b' => 0x08
      case 'f' => 0x0C
      case 'n' => 0x0A
      case 'r' => 0x0D
      case 't' => 0x09
      case c => c as int
    else 0
  }

  lemma UnescapeRune(r: Rune)
    ensures Unescaped(EscapeRune(r)) == r as int
  {
    BitsOfRune(r);
    if r as int >= 0x80 {
      EncodedBytesAreHigh(r);
    }
  }

  /** The first two bytes tell how long an escape is. */
  function EscapeLength(s: GoString): nat
    requires s != ""
  {
    var n := s[0] as int;
    if s[0] == '\\' then (if |s| > 1 && s[1] == 'u' then 6 else 2)
    else if n < 0x80 then 1 else if n < 0xE0 then 2 else if n < 0xF0 then 3 else 4
  }

  lemma LengthOfEscape(r: Rune, rest: GoString)
    ensures |EscapeRune(r)| == EscapeLength(EscapeRune(r) + rest)
  {
  }

  lemma EscapeIsPrefixFree(a: Rune, b: Rune, u: GoString, v: GoString)
    requires EscapeRune(a) + u == EscapeRune(b) + v
    ensures a == b && u == v
  {
    hide EscapeRune, EscapeLength, Unescaped;
    var s := EscapeRune(a) + u;
    LengthOfEscape(a, u);
    LengthOfEscape(b, v);
    assert EscapeRune(a) == s[..|EscapeRune(a)|] == EscapeRune(b);
    assert u == s[|EscapeRune(a)|..] == v;
    UnescapeRune(a);
    UnescapeRune(b);
  }

  lemma {:induction false} EscapedTextEndsAtQuote(s: Text, t: Text, u: GoString, v: GoString)
    requires EscapeText(s) + "\"" + u == EscapeText(t) + "\"" + v
    ensures s == t && u == v
    decreases |s|
  {
    hide EscapeRune;
    var x := EscapeText(s) + "\"" + u;
    if s != [] {
      EscapedRuneIsClean(s[0]);
      assert x[0] == EscapeRune(s[0])[0];
    }
    if t != [] {
      EscapedRuneIsClean(t[0]);
      assert x[0] == EscapeRune(t[0])[0];
    }
    if s == [] || t == [] {
      assert x[1..] == u == v;
    } else {
      var p, q := EscapeText(s[1..]) + "\"" + u, EscapeText(t[1..]) + "\"" + v;
      assert EscapeRune(s[0]) + p == x == EscapeRune(t[0]) + q;
      EscapeIsPrefixFree(s[0], t[0], p, q);
      EscapedTextEndsAtQuote(s[1..], t[1..], u, v);
    }
  }

  /** A JSON string can be read back: it fixes its text and where it ends. */
  lemma JsonStringIsReadable(s: Text, t: Text, u: GoString, v: GoString)
    requires JsonString(s) + u == JsonString(t) + v
    ensures s == t && u == v
  {
    hide EscapeText;
    var x := JsonString(s) + u;
    assert x[1..] == EscapeText(s) + "\"" + u;
    assert x[1..] == EscapeText(t) + "\"" + v;
    EscapedTextEndsAtQuote(s, t, u, v);
  }

  // ---------------------------------------------------------------- the prompt's metadata

  /** Every field as text; the timestamp in its RFC 3339 form, the signature in hexadecimal. */
  datatype Metadata = Metadata(
    responseLocale: Text, turnID: Text, mode: Text, timestamp: Text, policy: Text,
    untrustedContext: Text, signature: Text)

  function Member(name: GoString, value: Text, rest: GoString): GoString {
    name + JsonString(value) + rest
  }

  /** `json.Marshal`: fields in declaration order, the two optional ones left out when empty. */
  function Marshal(m: Metadata): GoString {
    "{" + if m.responseLocale == [] then FromTurn(m) else Member("\"responseLocale\":", m.responseLocale, "," + FromTurn(m))
  }

  function FromTurn(m: Metadata): GoString {
    Member("\"turnId\":", m.turnID,
    Member(",\"mode\":", m.mode,
    Member(",\"timestamp\":", m.timestamp,
    Member(",\"policy\":", m.policy, FromContext(m)))))
  }

  function FromContext(m: Metadata): GoString {
    if m.untrustedContext == [] then FromSignature(m)
    else Member(",\"untrustedContext\":", m.untrustedContext, FromSignature(m))
  }

  function FromSignature(m: Metadata): GoString {
    Member(",\"signature\":", m.signature, "}")
  }

  lemma MemberIsReadable(name: GoString, s: Text, t: Text, u: GoString, v: GoString)
    requires Member(name, s, u) == Member(name, t, v)
    ensures s == t && u == v
  {
    hide JsonString;
    var x := Member(name, s, u);
    assert x[|name|..] == JsonString(s) + u;
    assert x[|name|..] == JsonString(t) + v;
    JsonStringIsReadable(s, t, u, v);
  }

  lemma MemberIsClean(name: GoString, value: Text, rest: GoString)
    requires '\n' !in name && '\n' !in rest
    ensures '\n' !in Member(name, value, rest)
  {
    hide EscapeText;
    EscapedTextIsClean(value);
  }

  /** The encoded metadata is one line and begins with a brace. */
  lemma MarshalIsOneLine(m: Metadata)
    ensures '\n' !in Marshal(m) && Marshal(m) != "" && Marshal(m)[0] == '{'
  {
    hide Member;
    MemberIsClean(",\"signature\":", m.signature, "}");
    MemberIsClean(",\"untrustedContext\":", m.untrustedContext, FromSignature(m));
    MemberIsClean(",\"policy\":", m.policy, FromContext(m));
    var p := Member(",\"policy\":", m.policy, FromContext(m));
    MemberIsClean(",\"timestamp\":", m.timestamp, p);
    var ts := Member(",\"timestamp\":", m.timestamp, p);
    MemberIsClean(",\"mode\":", m.mode, ts);
    MemberIsClean("\"turnId\":", m.turnID, Member(",\"mode\":", m.mode, ts));
    MemberIsClean("\"responseLocale\":", m.responseLocale, "," + FromTurn(m));
  }

  lemma ContextIsReadable(a: Metadata, b: Metadata)
    requires FromContext(a) == FromContext(b)
    ensures a.untrustedContext == b.untrustedContext && a.signature == b.signature
  {
    hide JsonString;
    var x := FromContext(a);
    assert x[2] == (if a.untrustedContext == [] then 's' else 'u');
    assert x[2] == (if b.untrustedContext == [] then 's' else 'u');
    hide Member;
    if a.untrustedContext != [] {
      MemberIsReadable(",\"untrustedContext\":", a.untrustedContext, b.untrustedContext, FromSignature(a), FromSignature(b));
    }
    MemberIsReadable(",\"signature\":", a.signature, b.signature, "}", "}");
  }

  lemma TurnIsReadable(a: Metadata, b: Metadata)
    requires FromTurn(a) == FromTurn(b)
    ensures a == b.(responseLocale := a.responseLocale)
  {
    hide Member, FromContext;
    var pa, pb := Member(",\"policy\":", a.policy, FromContext(a)), Member(",\"policy\":", b.policy, FromContext(b));
    var ta, tb := Member(",\"timestamp\":", a.timestamp, pa), Member(",\"timestamp\":", b.timestamp, pb);
    var ma, mb := Member(",\"mode\":", a.mode, ta), Member(",\"mode\":", b.mode, tb);
    MemberIsReadable("\"turnId\":", a.turnID, b.turnID, ma, mb);
    MemberIsReadable(",\"mode\":", a.mode, b.mode, ta, tb);
    MemberIsReadable(",\"timestamp\":", a.timestamp, b.timestamp, pa, pb);
    MemberIsReadable(",\"policy\":", a.policy, b.policy, FromContext(a), FromContext(b));
    ContextIsReadable(a, b);
  }

  /** Encoded metadata determines the metadata, so a decoder that inverts the encoder exists. */
  lemma MarshalIsInjective(a: Metadata, b: Metadata)
    requires Marshal(a) == Marshal(b)
    ensures a == b
  {
    hide JsonString, FromContext;
    var x := Marshal(a);
    assert x[2] == (if a.responseLocale == [] then 't' else 'r');
    assert x[2] == (if b.responseLocale == [] then 't' else 'r');
    if a.responseLocale == [] {
      hide Member;
      assert x[1..] == FromTurn(a) && x[1..] == FromTurn(b);
    } else {
      hide Member, FromTurn;
      var n := "\"responseLocale\":";
      assert x[1..] == Member(n, a.responseLocale, "," + FromTurn(a));
      assert x[1..] == Member(n, b.responseLocale, "," + FromTurn(b));
      MemberIsReadable(n, a.responseLocale, b.responseLocale, "," + FromTurn(a), "," + FromTurn(b));
      assert ("," + FromTurn(a))[1..] == FromTurn(a) && ("," + FromTurn(b))[1..] == FromTurn(b);
    }
    TurnIsReadable(a, b);
  }
}
