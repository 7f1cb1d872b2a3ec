/** UTF-8 (section 3 of RFC 3629) and cutting it at rune starts. */
module Utf8 {
  import opened GoStrings

  /** A Unicode scalar value. */
  newtype Rune = i: int | 0 <= i < 0x110000 && !(0xD800 <= i < 0xE000)

  type Text = seq<Rune>

  function Byte(n: int): char
    requires 0 <= n < 256
  {
    n as char
  }

  function EncodeRune(r: Rune): (b: GoString)
    ensures 1 <= |b| <= 4 && RuneStart(b[0])
    ensures forall i :: 1 <= i < |b| ==> !RuneStart(b[i])
  {
    var n := r as int;
    if n < 0x80 then [Byte(n)]
    else if n < 0x800 then [Byte(0xC0 + n / 64), Byte(0x80 + n % 64)]
    else if n < 0x10000 then [Byte(0xE0 + n / 4096), Byte(0x80 + n / 64 % 64), Byte(0x80 + n % 64)]
    else [Byte(0xF0 + n / 262144), Byte(0x80 + n / 4096 % 64), Byte(0x80 + n / 64 % 64), Byte(0x80 + n % 64)]
  }

  function Encode(t: Text): GoString {
    if t == [] then "" else EncodeRune(t[0]) + Encode(t[1..])
  }

  /** `utf8.RuneStart`: not a continuation byte. */
  predicate RuneStart(b: char) {
    !(0x80 <= b as int < 0xC0)
  }

  lemma {:induction false} EncodeConcat(a: Text, b: Text)
    ensures Encode(a + b) == Encode(a) + Encode(b)
  {
    hide EncodeRune;
    if a == [] {
      assert a + b == b;
    } else {
      assert (a + b)[1..] == a[1..] + b;
      EncodeConcat(a[1..], b);
    }
  }

  /** The bits of a code, put together again. */
  function Bits(b: GoString): int {
    match |b|
    case 1 => b[0] as int
    case 2 => (b[0] as int - 0xC0) * 64 + (b[1] as int - 0x80)
    case 3 => (b[0] as int - 0xE0) * 4096 + (b[1] as int - 0x80) * 64 + (b[2] as int - 0x80)
    case 4 => (b[0] as int - 0xF0) * 262144 + (b[1] as int - 0x80) * 4096 + (b[2] as int - 0x80) * 64 + (b[3] as int - 0x80)
    case _ => 0
  }

  lemma DivideTwice(n: nat)
    ensures n / 64 / 64 == n / 4096
  {
    var q, r := n / 4096, n % 4096;
    assert n == 4096 * q + r;
    assert n / 64 == 64 * q + r / 64;
  }

  lemma DivideThrice(n: nat)
    ensures n / 4096 / 64 == n / 262144
  {
    var q, r := n / 262144, n % 262144;
    assert n == 262144 * q + r;
    assert n / 4096 == 64 * q + r / 4096;
  }

  lemma SixBitDigits(n: nat)
    ensures n / 64 * 64 + n % 64 == n
    ensures n / 4096 * 4096 + n / 64 % 64 * 64 + n % 64 == n
    ensures n / 262144 * 262144 + n / 4096 % 64 * 4096 + n / 64 % 64 * 64 + n % 64 == n
  {
    var a, b := n / 64, n / 4096;
    DivideTwice(n);
    DivideThrice(n);
    assert n == a * 64 + n % 64;
    assert a == b * 64 + a % 64;
    assert b == n / 262144 * 64 + b % 64;
  }

  lemma BitsOfRune(r: Rune)
    ensures Bits(EncodeRune(r)) == r as int
  {
    SixBitDigits(r as int);
  }

  // ---------------------------------------------------------------- truncation

  /** The largest rune start at or below `limit`, or 0. */
  function CutBack(value: GoString, limit: nat): (r: nat)
    requires limit < |value|
    ensures r <= limit
  {
    if limit > 0 && !RuneStart(value[limit]) then CutBack(value, limit - 1) else limit
  }

  function Truncated(value: GoString, limit: int): GoString {
    if limit <= 0 || |value| <= limit then value else value[..CutBack(value, limit)]
  }

  method TruncateUTF8(value: GoString, limit: int) returns (r: GoString)
    ensures r == Truncated(value, limit)
  {
    if limit <= 0 || |value| <= limit {
      return value;
    }
    var n := limit;
    while n > 0 && !RuneStart(value[n])
      invariant 0 <= n < |value| && CutBack(value, n) == CutBack(value, limit)
    {
      n := n - 1;
    }
    return value[..n];
  }

  /** How many whole runes of `t` fit into `limit` bytes. */
  function RunesWithin(t: Text, limit: nat): (k: nat)
    ensures k <= |t|
  {
    if t == [] || |EncodeRune(t[0])| > limit then 0 else 1 + RunesWithin(t[1..], limit - |EncodeRune(t[0])|)
  }

  lemma {:induction false} RunesWithinIsMost(t: Text, limit: nat)
    ensures var k := RunesWithin(t, limit);
            |Encode(t[..k])| <= limit && (k < |t| ==> |Encode(t[..k + 1])| > limit)
  {
    hide EncodeRune;
    var k := RunesWithin(t, limit);
    if t != [] && |EncodeRune(t[0])| <= limit {
      RunesWithinIsMost(t[1..], limit - |EncodeRune(t[0])|);
      assert t[..k][1..] == t[1..][..k - 1];
      if k < |t| {
        assert t[..k + 1][1..] == t[1..][..k];
      }
    } else if t != [] {
      assert t[..1][1..] == [];
    }
  }

  lemma {:induction false} CutBackInside(value: GoString, limit: nat)
    requires limit < |value| && forall i :: 1 <= i <= limit ==> !RuneStart(value[i])
    ensures CutBack(value, limit) == 0
  {
    if limit > 0 {
      CutBackInside(value, limit - 1);
    }
  }

  lemma {:induction false} CutBackBehind(e: GoString, rest: GoString, limit: nat)
    requires limit < |rest| && RuneStart(rest[0])
    ensures CutBack(e + rest, |e| + limit) == |e| + CutBack(rest, limit)
  {
    if limit > 0 {
      CutBackBehind(e, rest, limit - 1);
    }
  }

  /** Truncating valid text keeps the longest run of whole runes within the limit. */
  lemma {:induction false} TruncationKeepsWholeRunes(t: Text, limit: nat)
    requires 0 < limit
    ensures Truncated(Encode(t), limit) == Encode(t[..RunesWithin(t, limit)])
  {
    hide EncodeRune;
    var k := RunesWithin(t, limit);
    if |Encode(t)| <= limit {
      RunesWithinIsMost(t, limit);
      AllRunesFit(t, limit);
      assert t[..k] == t;
    } else {
      CutBackAtRune(t, limit);
      EncodeConcat(t[..k], t[k..]);
      assert t[..k] + t[k..] == t;
    }
  }

  lemma {:induction false} AllRunesFit(t: Text, limit: nat)
    requires |Encode(t)| <= limit
    ensures RunesWithin(t, limit) == |t|
  {
    hide EncodeRune;
    if t != [] {
      AllRunesFit(t[1..], limit - |EncodeRune(t[0])|);
    }
  }

  lemma {:induction false} CutBackAtRune(t: Text, limit: nat)
    requires limit < |Encode(t)|
    ensures CutBack(Encode(t), limit) == |Encode(t[..RunesWithin(t, limit)])|
    decreases |t|
  {
    hide EncodeRune;
    var e, rest := EncodeRune(t[0]), Encode(t[1..]);
    var k := RunesWithin(t, limit);
    if limit < |e| {
      forall i | 1 <= i <= limit
        ensures !RuneStart((e + rest)[i])
      {
        assert (e + rest)[i] == e[i];
      }
      CutBackInside(e + rest, limit);
    } else {
      CutBackAtRune(t[1..], limit - |e|);
      assert rest[0] == EncodeRune(t[1])[0];
      CutBackBehind(e, rest, limit - |e|);
      assert t[..k][1..] == t[1..][..k - 1];
    }
  }

  // ---------------------------------------------------------------- trimming valid text

  /** White space that begins or ends where a rune does is that rune, whole. */
  lemma SpaceIsRune(p: GoString, r: Rune, q: GoString, n: nat)
    ensures var e := EncodeRune(r);
            var s := p + e + q;
            && (|p| + n <= |s| && SpaceAt(s, |p|, n) ==> n == |e|)
            && (n <= |p + e| && SpaceAt(s, |p + e| - n, n) ==> n == |e|)
  {
    var e, s := EncodeRune(r), p + EncodeRune(r) + q;
    assert forall i | 0 <= i < |e| :: s[|p| + i] == e[i];
  }

  /** The `k`-th rune of a text and the bytes around it. */
  lemma EncodeAt(t: Text, k: nat)
    requires k < |t|
    ensures var p, e := Encode(t[..k]), EncodeRune(t[k]);
            Encode(t[..k + 1]) == p + e && Encode(t) == p + e + Encode(t[k + 1..])
  {
    hide EncodeRune;
    hide Encode;
    var front, rest := t[..k + 1], t[k + 1..];
    assert front[..k] == t[..k] && t == front + rest;
    EncodeLast(front);
    EncodeConcat(front, rest);
  }

  lemma EncodeLast(t: Text)
    requires t != []
    ensures var n := |t| - 1; Encode(t) == Encode(t[..n]) + EncodeRune(t[n])
  {
    hide EncodeRune, Encode;
    var n := |t| - 1;
    EncodeOne(t[n]);
    assert t == t[..n] + [t[n]];
    EncodeConcat(t[..n], [t[n]]);
  }

  lemma EncodeOne(r: Rune)
    ensures Encode([r]) == EncodeRune(r)
  {
    hide EncodeRune;
    assert [r][1..] == [] && EncodeRune(r) + "" == EncodeRune(r);
  }

  lemma HeadIsShorter(t: Text, k: nat)
    requires k <= |t|
    ensures |Encode(t[..k])| <= |Encode(t)|
  {
    assert t == t[..k] + t[k..];
    EncodeConcat(t[..k], t[k..]);
  }

  lemma {:induction false} SpaceEndsAtRune(t: Text, k: nat) returns (m: nat)
    requires k <= |t| && |Encode(t[..k])| <= |Encode(t)|
    ensures k <= m <= |t| && SpaceEnd(Encode(t), |Encode(t[..k])|) == |Encode(t[..m])|
    decreases |t| - k
  {
    hide EncodeRune, Encode, SpaceAt;
    m := k;
    var s, i := Encode(t), |Encode(t[..k])|;
    if k < |t| {
      EncodeAt(t, k);
      forall n: nat | i + n <= |s| && SpaceAt(s, i, n)
        ensures n == |EncodeRune(t[k])|
      {
        SpaceIsRune(Encode(t[..k]), t[k], Encode(t[k + 1..]), n);
      }
      if SpaceEnd(s, i) != i {
        m := SpaceEndsAtRune(t, k + 1);
      }
    } else {
      assert t[..k] == t;
    }
  }

  lemma {:induction false} SpaceStartsAtRune(t: Text, m: nat, k: nat) returns (q: nat)
    requires m <= k <= |t| && |Encode(t[..m])| <= |Encode(t[..k])| <= |Encode(t)|
    ensures m <= q <= k && SpaceStart(Encode(t), |Encode(t[..m])|, |Encode(t[..k])|) == |Encode(t[..q])|
    decreases k
  {
    hide EncodeRune, Encode, SpaceAt;
    q := k;
    var s, i, j := Encode(t), |Encode(t[..m])|, |Encode(t[..k])|;
    if m < k {
      EncodeAt(t, k - 1);
      HeadIsShorter(t[..k - 1], m);
      assert t[..k - 1][..m] == t[..m];
      forall l: nat, n: nat | l + n == j && SpaceAt(s, l, n)
        ensures n == |EncodeRune(t[k - 1])|
      {
        SpaceIsRune(Encode(t[..k - 1]), t[k - 1], Encode(t[k..]), n);
      }
      if SpaceStart(s, i, j) != j {
        q := SpaceStartsAtRune(t, m, k - 1);
      }
    }
  }

  lemma TrimmedIsText(t: Text) returns (r: Text)
    ensures TrimSpace(Encode(t)) == Encode(r)
  {
    hide SpaceEnd, SpaceStart, EncodeRune;
    assert t[..0] == [] && t[..|t|] == t;
    var m := SpaceEndsAtRune(t, 0);
    HeadIsShorter(t, m);
    var q := SpaceStartsAtRune(t, m, |t|);
    r := t[m..q];
    assert t[..q] == t[..m] + r && t == t[..q] + t[q..];
    EncodeConcat(t[..m], r);
    EncodeConcat(t[..q], t[q..]);
    assert Encode(t) == Encode(t[..m]) + Encode(r) + Encode(t[q..]);
  }
}
