/** Where a link destination ends in Markdown text: balanced parentheses and escapes are part of it. */
module MarkdownLinks {
  import opened GoStrings

  predicate IsSpace(c: char) {
    c in [' ', '\t', '\r', '\n']
  }

  /** The end of a destination read on from `i` at the given depth of parentheses. */
  function EndFrom(text: GoString, i: nat, depth: nat, angled: bool, inline: bool): (end: nat)
    ensures end <= |text|
    decreases |text| - i
  {
    if i >= |text| then |text|
    else if text[i] == '\\' then EndFrom(text, i + 2, depth, angled, inline)
    else if angled then if text[i] == '>' then i + 1 else EndFrom(text, i + 1, depth, angled, inline)
    else if IsSpace(text[i]) then i
    else if inline && text[i] == '(' then EndFrom(text, i + 1, depth + 1, angled, inline)
    else if inline && text[i] == ')' then if depth == 0 then i else EndFrom(text, i + 1, depth - 1, angled, inline)
    else EndFrom(text, i + 1, depth, angled, inline)
  }

  lemma {:induction false} EndIsBehind(text: GoString, i: nat, depth: nat, angled: bool, inline: bool)
    requires i <= |text|
    ensures i <= EndFrom(text, i, depth, angled, inline)
    decreases |text| - i
  {
    if i < |text| {
      if text[i] == '\\' {
        if i + 2 <= |text| {
          EndIsBehind(text, i + 2, depth, angled, inline);
        }
      } else {
        EndIsBehind(text, i + 1, depth, angled, inline);
        EndIsBehind(text, i + 1, depth + 1, angled, inline);
        if depth > 0 {
          EndIsBehind(text, i + 1, depth - 1, angled, inline);
        }
      }
    }
  }

  /** `markdownDestination`. */
  function Destination(text: GoString, start: nat, inline: bool): GoString
    requires start <= |text|
  {
    if start == |text| then ""
    else
      EndIsBehind(text, start, 0, text[start] == '<', inline);
      text[start..EndFrom(text, start, 0, text[start] == '<', inline)]
  }

  method MarkdownDestination(text: GoString, start: nat, inline: bool) returns (destination: GoString)
    requires start <= |text|
    ensures destination == Destination(text, start, inline)
  {
    if start == |text| {
      return "";
    }
    var depth, angled, i := 0, text[start] == '<', start;
    while i < |text|
      invariant start <= i && depth >= 0
      invariant EndFrom(text, i, depth, angled, inline) == EndFrom(text, start, 0, angled, inline)
    {
      var c := text[i];
      if c == '\\' {
        i := i + 1;
      } else if angled {
        if c == '>' {
          return text[start..i + 1];
        }
      } else if IsSpace(c) {
        return text[start..i];
      } else if inline {
        if c == '(' {
          depth := depth + 1;
        }
        if c == ')' {
          if depth == 0 {
            return text[start..i];
          }
          depth := depth - 1;
        }
      }
      i := i + 1;
    }
    return text[start..];
  }

  /** Read from `i` at this depth, the text ends on no escape, holds no unescaped space, and closes
      exactly the parentheses that are open. */
  predicate Balanced(d: GoString, i: nat, depth: nat)
    decreases |d| - i
  {
    if i >= |d| then i == |d| && depth == 0
    else if d[i] == '\\' then Balanced(d, i + 2, depth)
    else if IsSpace(d[i]) then false
    else if d[i] == '(' then Balanced(d, i + 1, depth + 1)
    else if d[i] == ')' then depth > 0 && Balanced(d, i + 1, depth - 1)
    else Balanced(d, i + 1, depth)
  }

  lemma {:induction false} ClosingEndsBalanced(d: GoString, rest: GoString, i: nat, depth: nat)
    requires i <= |d| + 1
    ensures Balanced(d, i, depth) ==> EndFrom(d + ")" + rest, i, depth, false, true) == |d|
    ensures EndFrom(d + ")" + rest, i, depth, false, true) == |d| && i <= |d| ==> Balanced(d, i, depth)
    decreases |d| - i
  {
    var text := d + ")" + rest;
    assert text[|d|] == ')';
    if i < |d| {
      assert text[i] == d[i];
      if d[i] == '\\' {
        ClosingEndsBalanced(d, rest, i + 2, depth);
        PastTheEnd(text, |d| + 1, depth);
      } else {
        ClosingEndsBalanced(d, rest, i + 1, depth);
        ClosingEndsBalanced(d, rest, i + 1, depth + 1);
        if depth > 0 {
          ClosingEndsBalanced(d, rest, i + 1, depth - 1);
        }
      }
    } else if i == |d| && depth > 0 {
      PastTheEnd(text, |d| + 1, depth - 1);
    }
  }

  lemma PastTheEnd(text: GoString, i: nat, depth: nat)
    requires i <= |text|
    ensures EndFrom(text, i, depth, false, true) >= i
  {
    EndIsBehind(text, i, depth, false, true);
  }

  /** The closing parenthesis of a link ends its destination exactly when the destination is balanced:
      parentheses of its own, even nested or escaped ones, do not cut it short. */
  lemma BalancedDestinationsAreReadWhole(d: GoString, rest: GoString)
    requires d == "" || d[0] != '<'
    ensures Destination(d + ")" + rest, 0, true) == d <==> Balanced(d, 0, 0)
  {
    hide EndFrom, Balanced;
    var text := d + ")" + rest;
    assert text[0] == if d == "" then ')' else d[0];
    ClosingEndsBalanced(d, rest, 0, 0);
    var end := EndFrom(text, 0, 0, false, true);
    assert text[0..|d|] == d;
    assert text[0..end] == d ==> end == |d|;
  }
}
