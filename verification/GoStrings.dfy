/** Go strings and the few operations of package `strings` the models rely on.

    A Go string is a sequence of bytes. In a `GoString` every Dafny `char` stands for one byte,
    so `|s|` is Go's `len(s)` and slices are byte slices. */
module GoStrings {
  type GoString = string

  predicate OccursAt(s: GoString, m: GoString, i: int) {
    0 <= i <= |s| - |m| && s[i..i + |m|] == m
  }

  /** `strings.Index`: the first position at which `m` occurs, or -1. */
  function Index(s: GoString, m: GoString): (r: int)
    ensures r == -1 || (0 <= r <= |s| - |m| && OccursAt(s, m, r))
    ensures forall j :: OccursAt(s, m, j) ==> 0 <= r <= j
  {
    IndexFrom(s, m, 0)
  }

  function IndexFrom(s: GoString, m: GoString, i: nat): (r: int)
    ensures r == -1 || (i <= r && OccursAt(s, m, r))
    ensures forall j :: i <= j && OccursAt(s, m, j) ==> 0 <= r <= j
    decreases |s| - i
  {
    if OccursAt(s, m, i) then i
    else if i >= |s| then -1
    else IndexFrom(s, m, i + 1)
  }

  predicate Contains(s: GoString, m: GoString) {
    Index(s, m) >= 0
  }

  predicate HasPrefix(s: GoString, prefix: GoString) {
    |prefix| <= |s| && s[..|prefix|] == prefix
  }

  /** An occurrence survives dropping a prefix that ends before it, and none is created. */
  lemma OccursInSuffix(s: GoString, m: GoString, k: nat, i: int)
    requires k <= |s|
    ensures i >= 0 ==> (OccursAt(s[k..], m, i) <==> OccursAt(s, m, k + i))
  {
    if 0 <= i <= |s| - k - |m| {
      assert s[k..][i..i + |m|] == s[k + i..k + i + |m|];
    }
  }

  /** Occurrences in a concatenation: those lying in either part are exactly the parts' own. */
  lemma OccursInConcat(p: GoString, q: GoString, m: GoString, i: int)
    ensures i + |m| <= |p| ==> (OccursAt(p + q, m, i) <==> OccursAt(p, m, i))
    ensures i >= 0 ==> (OccursAt(p + q, m, |p| + i) <==> OccursAt(q, m, i))
  {
    if 0 <= i && i + |m| <= |p| {
      assert (p + q)[i..i + |m|] == p[i..i + |m|];
    }
    assert (p + q)[|p|..] == q;
    OccursInSuffix(p + q, m, |p|, i);
  }

  // ---------------------------------------------------------------- strings.TrimSpace

  /** A white-space rune of `n` bytes stands at `i`: one of the ASCII ones, U+0085, U+00A0, U+1680,
      U+2000 to U+200A, U+2028, U+2029, U+202F, U+205F or U+3000. */
  predicate SpaceAt(s: GoString, i: nat, n: nat)
    requires i + n <= |s|
  {
    match n
    case 1 => s[i] == ' ' || '\t' <= s[i] <= '\r'
    case 2 => s[i] == '\U{C2}' && (s[i + 1] == '\U{85}' || s[i + 1] == '\U{A0}')
    case 3 => WideSpace(s[i], s[i + 1], s[i + 2])
    case _ => false
  }

  predicate WideSpace(a: char, b: char, c: char) {
    (a == '\U{E1}' && b == '\U{9A}' && c == '\U{80}')
    || (a == '\U{E2}' && b == '\U{80}' && ('\U{80}' <= c <= '\U{8A}' || c == '\U{A8}' || c == '\U{A9}' || c == '\U{AF}'))
    || (a == '\U{E2}' && b == '\U{81}' && c == '\U{9F}')
    || (a == '\U{E3}' && b == '\U{80}' && c == '\U{80}')
  }

  /** Where the white space that begins at `i` ends. */
  function SpaceEnd(s: GoString, i: nat): (r: nat)
    requires i <= |s|
    ensures i <= r <= |s|
    decreases |s| - i
  {
    if i + 1 <= |s| && SpaceAt(s, i, 1) then SpaceEnd(s, i + 1)
    else if i + 2 <= |s| && SpaceAt(s, i, 2) then SpaceEnd(s, i + 2)
    else if i + 3 <= |s| && SpaceAt(s, i, 3) then SpaceEnd(s, i + 3)
    else i
  }

  /** Where the white space that ends at `j` begins, `i` at the earliest. */
  function SpaceStart(s: GoString, i: nat, j: nat): (r: nat)
    requires i <= j <= |s|
    ensures i <= r <= j
    decreases j
  {
    if i + 1 <= j && SpaceAt(s, j - 1, 1) then SpaceStart(s, i, j - 1)
    else if i + 2 <= j && SpaceAt(s, j - 2, 2) then SpaceStart(s, i, j - 2)
    else if i + 3 <= j && SpaceAt(s, j - 3, 3) then SpaceStart(s, i, j - 3)
    else j
  }

  function TrimSpace(s: GoString): GoString {
    s[SpaceEnd(s, 0)..SpaceStart(s, SpaceEnd(s, 0), |s|)]
  }

  lemma TrimSpaceIsSlice(s: GoString) returns (i: nat, j: nat)
    ensures i <= j <= |s| && TrimSpace(s) == s[i..j]
  {
    i := SpaceEnd(s, 0);
    j := SpaceStart(s, i, |s|);
  }

  lemma TrimSpaceTwice(s: GoString)
    ensures TrimSpace(TrimSpace(s)) == TrimSpace(s)
  {
    hide SpaceAt, SpaceEnd, SpaceStart;
    var i := SpaceEnd(s, 0);
    var j := SpaceStart(s, i, |s|);
    SpaceEnds(s, 0);
    SpaceStarts(s, i, |s|);
    var r := s[i..j];
    forall k: nat, n: nat | k + n <= |r| && (k == 0 || k + n == |r|)
      ensures !SpaceAt(r, k, n)
    {
      SpaceInSlice(s, i, j, k, n);
    }
    NothingToTrim(r);
  }

  lemma SpaceInSlice(s: GoString, i: nat, j: nat, k: nat, n: nat)
    requires i <= j <= |s| && k + n <= j - i
    ensures SpaceAt(s[i..j], k, n) == SpaceAt(s, i + k, n)
  {
  }

  lemma SpaceWidth(s: GoString, i: nat, n: nat)
    requires i + n <= |s|
    ensures SpaceAt(s, i, n) ==> n in {1, 2, 3}
  {
  }

  /** Where white space ends no white-space rune stands. */
  lemma {:induction false} SpaceEnds(s: GoString, i: nat)
    requires i <= |s|
    ensures var r := SpaceEnd(s, i); forall k: nat, n: nat | k == r && k + n <= |s| :: !SpaceAt(s, k, n)
    decreases |s| - i
  {
    hide SpaceAt;
    if i + 1 <= |s| && SpaceAt(s, i, 1) {
      SpaceEnds(s, i + 1);
    } else if i + 2 <= |s| && SpaceAt(s, i, 2) {
      SpaceEnds(s, i + 2);
    } else if i + 3 <= |s| && SpaceAt(s, i, 3) {
      SpaceEnds(s, i + 3);
    } else {
      forall n: nat | i + n <= |s|
        ensures !SpaceAt(s, i, n)
      {
        SpaceWidth(s, i, n);
      }
    }
  }

  lemma {:induction false} SpaceStarts(s: GoString, i: nat, j: nat)
    requires i <= j <= |s|
    ensures var r := SpaceStart(s, i, j); forall k: nat, n: nat | i <= k && k + n == r :: !SpaceAt(s, k, n)
    decreases j
  {
    hide SpaceAt;
    if i + 1 <= j && SpaceAt(s, j - 1, 1) {
      SpaceStarts(s, i, j - 1);
    } else if i + 2 <= j && SpaceAt(s, j - 2, 2) {
      SpaceStarts(s, i, j - 2);
    } else if i + 3 <= j && SpaceAt(s, j - 3, 3) {
      SpaceStarts(s, i, j - 3);
    } else {
      forall k: nat, n: nat | i <= k && k + n == j
        ensures !SpaceAt(s, k, n)
      {
        SpaceWidth(s, k, n);
      }
    }
  }

  lemma NothingToTrim(r: GoString)
    requires forall k: nat, n: nat | k + n <= |r| && (k == 0 || k + n == |r|) :: !SpaceAt(r, k, n)
    ensures TrimSpace(r) == r
  {
    hide SpaceAt;
  }

  lemma NoLetterInSpace(s: GoString, i: nat, n: nat, c: char)
    requires i + n <= |s| && SpaceAt(s, i, n) && 'A' <= c <= 'z'
    ensures c !in s[i..i + n]
  {
  }

  lemma {:induction false} NoLetterBeforeEnd(s: GoString, i: nat, c: char)
    requires i <= |s| && 'A' <= c <= 'z'
    ensures c !in s[i..SpaceEnd(s, i)]
    decreases |s| - i
  {
    hide SpaceAt;
    var r := SpaceEnd(s, i);
    if r != i {
      var n := if i + 1 <= |s| && SpaceAt(s, i, 1) then 1 else if i + 2 <= |s| && SpaceAt(s, i, 2) then 2 else 3;
      NoLetterInSpace(s, i, n, c);
      NoLetterBeforeEnd(s, i + n, c);
      assert s[i..r] == s[i..i + n] + s[i + n..r];
    }
  }

  lemma {:induction false} NoLetterAfterStart(s: GoString, i: nat, j: nat, c: char)
    requires i <= j <= |s| && 'A' <= c <= 'z'
    ensures c !in s[SpaceStart(s, i, j)..j]
    decreases j
  {
    hide SpaceAt;
    var r := SpaceStart(s, i, j);
    if r != j {
      var n := if i + 1 <= j && SpaceAt(s, j - 1, 1) then 1 else if i + 2 <= j && SpaceAt(s, j - 2, 2) then 2 else 3;
      NoLetterInSpace(s, j - n, n, c);
      NoLetterAfterStart(s, i, j - n, c);
      assert s[r..j] == s[r..j - n] + s[j - n..j];
    }
  }

  /** Trimming drops no letter. */
  lemma TrimKeepsLetters(s: GoString, c: char)
    requires 'A' <= c <= 'z'
    ensures multiset(TrimSpace(s))[c] == multiset(s)[c]
  {
    hide SpaceAt, SpaceEnd, SpaceStart;
    var i := SpaceEnd(s, 0);
    var j := SpaceStart(s, i, |s|);
    NoLetterBeforeEnd(s, 0, c);
    NoLetterAfterStart(s, i, |s|, c);
    assert s == s[0..i] + s[i..j] + s[j..|s|];
  }

  // ---------------------------------------------------------------- decimal numbers

  function Digit(n: nat): char
    requires n < 10
  {
    ('0' as int + n) as char
  }

  /** A natural number in decimal: `strconv.FormatUint(n, 10)`. */
  function Decimal(n: nat): (s: GoString)
    ensures s != ""
  {
    if n < 10 then [Digit(n)] else Decimal(n / 10) + [Digit(n % 10)]
  }

  lemma {:induction false} DecimalIsInjective(m: nat, n: nat)
    requires Decimal(m) == Decimal(n)
    ensures m == n
  {
    DecimalEnds(m);
    DecimalEnds(n);
    var s := Decimal(m);
    assert Digit(m % 10) == Digit(n % 10) && m % 10 == n % 10;
    if |s| > 1 {
      DecimalIsInjective(m / 10, n / 10);
    }
  }

  /** The last digit, and the digits before it. */
  lemma DecimalEnds(n: nat)
    ensures var s := Decimal(n);
            && s[|s| - 1] == Digit(n % 10)
            && (if n < 10 then |s| == 1 else s[..|s| - 1] == Decimal(n / 10))
  {
  }
}
