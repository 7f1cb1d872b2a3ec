/** The assistant's stream filter: removes marker-delimited blocks from text that arrives in
    arbitrary pieces, holding back only what a marker could still complete. */
module StreamFilter {
  import opened GoStrings
  import opened Markers

  /** Above this many bytes inside a block all but a possible end-marker head is thrown away. */
  const DISCARD_ABOVE: nat := 4096 + 2048

  // ---------------------------------------------------------------- whole-text reference

  /** The visible part of a text, and whether the text stops inside a block. */
  datatype Filtered = Filtered(text: GoString, inside: bool)

  function After(text: GoString, f: Filtered): Filtered {
    Filtered(text + f.text, f.inside)
  }

  lemma AfterTwice(a: GoString, b: GoString, f: Filtered)
    ensures After(a + b, f) == After(a, After(b, f))
  {
    assert a + b + f.text == a + (b + f.text);
  }

  /** The filter applied to a whole text at once. */
  function FilterText(s: GoString, inside: bool): Filtered
    decreases |s|
  {
    if inside then
      var e := Index(s, END);
      if e < 0 then Filtered("", true) else FilterText(s[e + |END|..], false)
    else
      var b := Index(s, START);
      if b < 0 then Filtered(s, false)
      else
        After(s[..b], FilterText(s[b + |START|..], true))
  }

  // ---------------------------------------------------------------- the incremental filter

  /** Does `value` end with the first `length` bytes of `marker`? */
  predicate EndsInHead(value: GoString, marker: GoString, length: nat) {
    length <= |value| && length <= |marker| && value[|value| - length..] == marker[..length]
  }

  /** The longest proper head of the marker, of at most `max` bytes, that `value` ends with. */
  function LongestHead(value: GoString, marker: GoString, max: nat): (k: nat)
    requires max <= |value| && max < |marker|
    ensures k <= max && EndsInHead(value, marker, k)
    ensures forall j :: k < j <= max ==> !EndsInHead(value, marker, j)
  {
    if max == 0 || EndsInHead(value, marker, max) then max else LongestHead(value, marker, max - 1)
  }

  /** How many bytes at the end of `value` may still turn out to begin a start marker. */
  function Held(value: GoString): (k: nat)
    ensures k <= |value| && k < |START| && EndsInHead(value, START, k)
    ensures forall j :: k < j < |START| ==> !EndsInHead(value, START, j)
  {
    LongestHead(value, START, if |value| < |START| - 1 then |value| else |START| - 1)
  }

  datatype Drained = Drained(output: GoString, buffer: GoString, inside: bool)

  function Prepend(text: GoString, d: Drained): Drained {
    Drained(text + d.output, d.buffer, d.inside)
  }

  lemma PrependTwice(a: GoString, b: GoString, d: Drained)
    ensures Prepend(a + b, d) == Prepend(a, Prepend(b, d))
  {
    assert a + b + d.output == a + (b + d.output);
  }

  /** What one `Feed` emits and keeps, as a function of the extended buffer. */
  function Drain(buffer: GoString, inside: bool): Drained
    decreases |buffer|
  {
    if inside then
      var e := Index(buffer, END);
      if e < 0 then
        Drained("", if |buffer| > DISCARD_ABOVE then buffer[|buffer| - (|END| - 1)..] else buffer, true)
      else Drain(buffer[e + |END|..], false)
    else
      var b := Index(buffer, START);
      if b >= 0 then
        Prepend(buffer[..b], Drain(buffer[b + |START|..], true))
      else
        var k := Held(buffer);
        Drained(buffer[..|buffer| - k], buffer[|buffer| - k..], false)
  }

  // ---------------------------------------------------------------- one round of the loop

  lemma DrainLeaves(output: GoString, buffer: GoString)
    requires Index(buffer, END) >= 0
    ensures Prepend(output, Drain(buffer, true)) == Prepend(output, Drain(buffer[Index(buffer, END) + |END|..], false))
  {
    hide Index, IndexFrom, OccursAt;
  }

  lemma DrainStays(output: GoString, buffer: GoString)
    requires Index(buffer, END) < 0
    ensures Prepend(output, Drain(buffer, true)) ==
            Drained(output, if |buffer| > DISCARD_ABOVE then buffer[|buffer| - (|END| - 1)..] else buffer, true)
  {
    MarkerLengths();
    hide Index, IndexFrom, OccursAt, START, END;
    assert output + "" == output;
  }

  lemma DrainEnters(output: GoString, buffer: GoString)
    requires Index(buffer, START) >= 0
    ensures var i := Index(buffer, START);
            Prepend(output, Drain(buffer, false)) == Prepend(output + buffer[..i], Drain(buffer[i + |START|..], true))
  {
    hide Index, IndexFrom, OccursAt;
    var i := Index(buffer, START);
    PrependTwice(output, buffer[..i], Drain(buffer[i + |START|..], true));
  }

  lemma DrainHolds(output: GoString, buffer: GoString, keep: nat)
    requires Index(buffer, START) < 0 && keep < |START| && EndsInHead(buffer, START, keep)
    requires forall j :: keep < j < |START| ==> !EndsInHead(buffer, START, j)
    ensures Prepend(output, Drain(buffer, false)) ==
            Drained(output + buffer[..|buffer| - keep], buffer[|buffer| - keep..], false)
  {
    hide Index, IndexFrom, OccursAt, EndsInHead, Held, START, END;
    assert EndsInHead(buffer, START, Held(buffer));
    assert Held(buffer) == keep;
  }

  method LongestMarkerPrefixSuffix(value: GoString, marker: GoString) returns (length: nat)
    requires marker != ""
    ensures length < |marker| && EndsInHead(value, marker, length)
    ensures forall j :: length < j < |marker| ==> !EndsInHead(value, marker, j)
  {
    var max := |marker| - 1;
    if |value| < max {
      max := |value|;
    }
    length := max;
    while length > 0
      invariant 0 <= length <= max
      invariant forall j :: length < j < |marker| ==> !EndsInHead(value, marker, j)
    {
      if value[|value| - length..] == marker[..length] {
        return;
      }
      length := length - 1;
    }
  }

  class InternalStreamFilter {
    var buffer: GoString
    var inside: bool

    constructor ()
      ensures buffer == "" && !inside
    {
      buffer, inside := "", false;
    }

    method Feed(delta: GoString) returns (output: GoString)
      modifies this
      ensures Drained(output, buffer, inside) == Drain(old(buffer) + delta, old(inside))
    {
      MarkerLengths();
      hide Index, IndexFrom, OccursAt, Drain, EndsInHead, START, END;
      buffer := buffer + delta;
      output := "";
      ghost var whole := Drain(buffer, inside);
      assert Prepend("", whole) == whole;
      while true
        invariant Prepend(output, Drain(buffer, inside)) == whole
        decreases |buffer|
      {
        if inside {
          var end := Index(buffer, END);
          if end < 0 {
            DrainStays(output, buffer);
            if |buffer| > DISCARD_ABOVE {
              buffer := buffer[|buffer| - (|END| - 1)..];
            }
            return;
          }
          DrainLeaves(output, buffer);
          buffer := buffer[end + |END|..];
          inside := false;
        } else {
          var start := Index(buffer, START);
          if start >= 0 {
            DrainEnters(output, buffer);
            output := output + buffer[..start];
            buffer := buffer[start + |START|..];
            inside := true;
          } else {
            var keep := LongestMarkerPrefixSuffix(buffer, START);
            DrainHolds(output, buffer, keep);
            output := output + buffer[..|buffer| - keep];
            buffer := buffer[|buffer| - keep..];
            return;
          }
        }
      }
    }

    method Flush() returns (value: GoString)
      modifies this
      ensures value == if inside then "" else old(buffer)
      ensures buffer == "" && inside == old(inside)
    {
      if inside {
        buffer := "";
        return "";
      }
      value := buffer;
      buffer := "";
    }
  }
}
