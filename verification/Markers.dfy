module Markers {
  import opened GoStrings

  const START: GoString := "<<<VIKI_INTERNAL_CONTEXT_V1>>>"
  const END: GoString := "<<<END_VIKI_INTERNAL_CONTEXT_V1>>>"

  lemma MarkerLengths()
    ensures |START| == 30 && |END| == 34
  {
  }

  /** The start marker has no border, so two occurrences of it never overlap. */
  lemma StartsNeverOverlap(s: GoString, i: int, k: int)
    requires 0 < k < |START|
    ensures !(OccursAt(s, START, i) && OccursAt(s, START, i + k))
  {
    var d := if k < 3 then 3 - k else 0;
    assert START[k + d] != START[d];
    if 0 <= i && i + k + |START| <= |s| {
      assert s[i..i + |START|][k + d] == s[i + k + d] == s[i + k..i + k + |START|][d];
    }
  }

  /** The end marker cannot begin inside a start marker. */
  lemma EndNeverBeginsInsideStart(s: GoString, i: int, k: int)
    requires 0 <= k < |START|
    ensures !(OccursAt(s, START, i) && OccursAt(s, END, i + k))
  {
    var d := if k < 3 then 3 - k else 0;
    assert START[k + d] != END[d];
    if 0 <= i && i + k + |END| <= |s| {
      assert s[i..i + |START|][k + d] == s[i + k + d] == s[i + k..i + k + |END|][d];
    }
  }

  lemma NoBracket(k: int)
    requires 3 <= k < |END|
    ensures END[k] != '<'
  {
  }

  /** Nor can a start marker begin inside an end marker. */
  lemma EndNeverRunsIntoStart(s: GoString, i: int, k: int)
    requires 0 < k < |END|
    ensures !(OccursAt(s, END, i) && OccursAt(s, START, i + k))
  {
    var d := if k < 3 then 3 - k else 0;
    NoBracket(k + d);
    assert START[d] == '<';
    if 0 <= i && i + k + |START| <= |s| && i + |END| <= |s| {
      assert s[i..i + |END|][k + d] == s[i + k + d] == s[i + k..i + k + |START|][d];
    }
  }
}
