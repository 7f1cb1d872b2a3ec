/** Which messages a history shows, given element by element: what each text becomes, and where the
    messages with a fixed text come from. */
module VisibleTexts {
  import opened GoStrings
  import opened Options
  import opened Collections
  import opened Markers
  import opened StripMarkers
  import opened TurnState
  import opened TurnOps
  import opened HistoryReceipts

  /** A text as it is shown. */
  function Cleaned(text: GoString): GoString {
    TrimSpace(Strip(text))
  }

  /** How often the assistant has spoken in the turn the history ends in. */
  function Answers(history: seq<Heard>): nat {
    if history == [] then 0
    else
      var last := history[|history| - 1];
      if last.FromUser? then 0 else Answers(history[..|history| - 1]) + if last.FromAssistant? then 1 else 0
  }

  const NO_WINDOW := Window(map[], map[])

  /** A message of the assistant in the turn a history ends in, its `n`-th: it carries what is pending, and
      without a text of its own it says what it carries. */
  ghost function Answer(x: Context, history: seq<Heard>, id: GoString, content: GoString, n: nat): Message {
    WindowIsKeyed(x, history);
    var t, w := TurnAt(x, history), WindowAt(x, history);
    Message(t.turnID + id, Assistant, t.mode,
            if content != "" then content else if w.drafts != map[] then MADE_DRAFTS else FOUND_SOURCES,
            Listing(w.citations), Listing(w.drafts), t.timestamp + n)
  }

  /** Receipts nobody spoke after get a message of their own when their turn ends. */
  ghost function Closing(x: Context, history: seq<Heard>): seq<Message> {
    if WindowAt(x, history) == NO_WINDOW then [] else [Answer(x, history, "-assistant-receipt", "", Answers(history) + 1)]
  }

  /** A user's text, if there is anything to show. */
  ghost function Question(p: Prompt): seq<Message> {
    if Cleaned(p.visible) == "" then []
    else [Message(p.turnID + "-user", User, p.mode, Cleaned(p.visible), [], [], p.timestamp)]
  }

  /** The assistant's messages in a turn are numbered from the second on. */
  function AnswerPart(n: nat): GoString {
    if n > 1 then "-assistant-" + Decimal(n) else "-assistant"
  }

  /** What the next element shows after a history. */
  ghost function Contribution(x: Context, history: seq<Heard>, next: Heard): seq<Message> {
    match next
    case FromUser(text) => Closing(x, history) + Question(Opened(x, text, |history|))
    case FromAssistant(text) =>
      if Cleaned(text) == "" && WindowAt(x, history) == NO_WINDOW then []
      else [Answer(x, history, AnswerPart(Answers(history) + 1), Cleaned(text), Answers(history) + 1)]
    case _ => []
  }

  ghost function Contributions(x: Context, history: seq<Heard>): seq<Message> {
    if history == [] then []
    else Contributions(x, history[..|history| - 1]) + Contribution(x, history[..|history| - 1], history[|history| - 1])
  }

  lemma UserContributes(x: Context, front: seq<Heard>, text: GoString, r: Reading)
    requires Kept(r) && Pends(r, TurnAt(x, front), WindowAt(x, front)) && r.index == Answers(front)
    requires TurnAt(x, front).turnID == "" ==> WindowAt(x, front) == NO_WINDOW
    ensures var s := HearUser(r, Opened(x, text, |front|));
            s.messages == r.messages + Contribution(x, front, FromUser(text)) && s.index == 0
  {
    hide Opened, Strip, TrimSpace, Listing, TurnAt, WindowAt, Answers, Keyed;
    EmptyListing();
    var p := Opened(x, text, |front|);
    var closing, question := Closing(x, front), Question(p);
    assert Flushed(r).messages == r.messages + closing by {
      assert r.messages + [] == r.messages;
    }
    assert r.messages + closing + question == r.messages + (closing + question);
  }

  lemma AssistantContributes(x: Context, front: seq<Heard>, text: GoString, r: Reading)
    requires Kept(r) && Pends(r, TurnAt(x, front), WindowAt(x, front)) && r.index == Answers(front)
    ensures var s := HearAssistant(r, text);
            s.messages == r.messages + Contribution(x, front, FromAssistant(text)) && s.index == r.index + 1
  {
    hide Strip, TrimSpace, Listing, TurnAt, WindowAt, Answers, Keyed, Decimal;
    var n, t := Answers(front) + 1, TurnAt(x, front);
    assert r.turn + "-assistant" + "" == r.turn + "-assistant";
    assert r.turn + "-assistant" + ("-" + Decimal(n)) == r.turn + ("-assistant-" + Decimal(n));
  }

  lemma {:induction false} ReadIsContributions(x: Context, history: seq<Heard>)
    ensures var r := ReadHistory(x, history); r.messages == Contributions(x, history) && r.index == Answers(history)
  {
    hide Opened, HearUser, HearAssistant, Contribution, TurnAt, WindowAt, Keyed;
    if history != [] {
      var front, last := history[..|history| - 1], history[|history| - 1];
      ReadIsContributions(x, front);
      PendingIsWindow(x, front);
      match last
      case FromUser(text) => UserContributes(x, front, text, ReadHistory(x, front));
      case FromAssistant(text) => AssistantContributes(x, front, text, ReadHistory(x, front));
      case FromTool(name, found) => ToolContributes(x, front, last);
      case FromOther => ToolContributes(x, front, last);
    }
  }

  lemma ToolContributes(x: Context, front: seq<Heard>, next: Heard)
    requires !Speaks(next)
    ensures Contribution(x, front, next) == []
    ensures var s := Hear(x, ReadHistory(x, front), |front|, next);
            s.messages == ReadHistory(x, front).messages && s.index == ReadHistory(x, front).index
  {
    hide ReadHistory, Keyed, Noted;
  }

  /** The visible history is what its elements contribute, in order, and at the end one message for the
      receipts still pending. */
  lemma VisibleHistoryIs(x: Context, history: seq<Heard>)
    ensures VisibleHistory(x, history) == Contributions(x, history) + Closing(x, history)
  {
    hide ReadHistory, TurnAt, WindowAt, Answers, Contributions, Keyed, Listing;
    ReadIsContributions(x, history);
    PendingIsWindow(x, history);
    var r := ReadHistory(x, history);
    assert r.messages + [] == r.messages;
    assert r.turn + "-assistant-receipt" == TurnAt(x, history).turnID + "-assistant-receipt";
  }

  // ---------------------------------------------------------------- each text is shown once

  lemma {:induction false} ContributionsSplit(x: Context, history: seq<Heard>, i: nat) returns (after: seq<Message>)
    requires i < |history|
    ensures Contributions(x, history) == Contributions(x, history[..i]) + Contribution(x, history[..i], history[i]) + after
  {
    hide Contribution;
    var n := |history| - 1;
    if i == n {
      return [];
    }
    after := ContributionsSplit(x, history[..n], i);
    assert history[..n][..i] == history[..i];
    after := after + Contribution(x, history[..n], history[n]);
  }

  /** A user's text that is not blank is shown by exactly one message, which has the text, the mode and the
      id of the turn it begins; before it come the messages of what was heard earlier, and the receipts
      that were still pending. */
  lemma UserTextIsShown(x: Context, history: seq<Heard>, i: nat, p: Prompt) returns (after: seq<Message>)
    requires i < |history| && history[i].FromUser? && x.open(history[i].text) == Some(p) && Cleaned(p.visible) != ""
    ensures VisibleHistory(x, history) ==
            Contributions(x, history[..i]) + Closing(x, history[..i])
            + [Message(p.turnID + "-user", User, p.mode, Cleaned(p.visible), [], [], p.timestamp)] + after
  {
    hide Cleaned, Closing, Contributions, VisibleHistory;
    VisibleHistoryIs(x, history);
    after := ContributionsSplit(x, history, i);
    var before, closing, m := Contributions(x, history[..i]), Closing(x, history[..i]), Question(p);
    assert Contribution(x, history[..i], history[i]) == closing + m;
    assert before + (closing + m) + after + Closing(x, history) == before + closing + m + (after + Closing(x, history));
    after := after + Closing(x, history);
  }

  /** A text without a frame begins a turn named after the profile and its place, and is shown as it is. */
  lemma UnframedTextIsShown(x: Context, history: seq<Heard>, i: nat) returns (after: seq<Message>)
    requires i < |history| && history[i].FromUser? && x.open(history[i].text) == None && Cleaned(history[i].text) != ""
    ensures VisibleHistory(x, history) ==
            Contributions(x, history[..i]) + Closing(x, history[..i])
            + [Message((if x.mode == QA then "qa" else "edit") + "-legacy-" + Decimal(i) + "-user", User, x.mode,
                       Cleaned(history[i].text), [], [], x.fallback + i * 1_000_000)] + after
  {
    hide Cleaned, Closing, Contributions, VisibleHistory, Decimal;
    VisibleHistoryIs(x, history);
    after := ContributionsSplit(x, history, i);
    var before, closing, m := Contributions(x, history[..i]), Closing(x, history[..i]), Question(Opened(x, history[i].text, i));
    assert Contribution(x, history[..i], history[i]) == closing + m;
    assert before + (closing + m) + after + Closing(x, history) == before + closing + m + (after + Closing(x, history));
    after := after + Closing(x, history);
  }

  /** A text of the assistant that is not blank is shown by exactly one message, in the turn it was spoken. */
  lemma AssistantTextIsShown(x: Context, history: seq<Heard>, i: nat) returns (m: Message, after: seq<Message>)
    requires i < |history| && history[i].FromAssistant? && Cleaned(history[i].text) != ""
    ensures VisibleHistory(x, history) == Contributions(x, history[..i]) + [m] + after
    ensures m.role == Assistant && m.content == Cleaned(history[i].text) && m.mode == TurnAt(x, history[..i]).mode
    ensures m.id == TurnAt(x, history[..i]).turnID + AnswerPart(Answers(history[..i]) + 1)
    ensures m.createdAt == TurnAt(x, history[..i]).timestamp + Answers(history[..i]) + 1
  {
    hide Cleaned, Closing, Contributions, VisibleHistory, TurnAt, WindowAt, Answers, Listing, AnswerPart, Keyed;
    VisibleHistoryIs(x, history);
    after := ContributionsSplit(x, history, i);
    var before, c := Contributions(x, history[..i]), Contribution(x, history[..i], history[i]);
    assert |c| == 1 && c == [c[0]];
    assert before + c + after + Closing(x, history) == before + [c[0]] + (after + Closing(x, history));
    m, after := c[0], after + Closing(x, history);
  }

  // ---------------------------------------------------------------- where the other messages come from

  /** The message shows a text somebody spoke. */
  ghost predicate Quotes(x: Context, history: seq<Heard>, m: Message) {
    exists i :: 0 <= i < |history| && Speaks(history[i]) && SaysIt(x, history[i], i, m)
  }

  predicate SaysIt(x: Context, heard: Heard, i: nat, m: Message) {
    && m.content != ""
    && match heard
       case FromUser(text) => m.role == User && m.content == Cleaned(match x.open(text) case Some(p) => p.visible case None => text)
       case FromAssistant(text) => m.role == Assistant && m.content == Cleaned(text)
       case _ => false
  }

  /** The message is the assistant's, carries a receipt and says so. */
  predicate OnlyCarries(m: Message) {
    && m.role == Assistant && (m.citations != [] || m.drafts != [])
    && m.content == if m.drafts != [] then MADE_DRAFTS else FOUND_SOURCES
  }

  lemma ListingIsEmptyIff(table: Table)
    requires Keyed(table)
    ensures Listing(table) == [] <==> table == map[]
  {
    EmptyListing();
    if table != map[] {
      var k :| k in table;
      assert table[k] in table.Values;
      assert table[k] in Elements(Listing(table));
    }
  }

  lemma FixedOnlyCarries(x: Context, history: seq<Heard>, id: GoString, n: nat)
    requires WindowAt(x, history) != NO_WINDOW
    ensures OnlyCarries(Answer(x, history, id, "", n))
  {
    hide TurnAt, WindowAt, Listing, Keyed;
    WindowIsKeyed(x, history);
    ListingIsEmptyIff(WindowAt(x, history).citations);
    ListingIsEmptyIff(WindowAt(x, history).drafts);
  }

  lemma ContributedMessage(x: Context, front: seq<Heard>, next: Heard, m: Message)
    requires m in Contribution(x, front, next)
    ensures (Speaks(next) && SaysIt(x, next, |front|, m)) || OnlyCarries(m)
  {
    hide Cleaned, TurnAt, WindowAt, Listing, Answers, Keyed, OnlyCarries;
    if WindowAt(x, front) != NO_WINDOW {
      FixedOnlyCarries(x, front, "-assistant-receipt", Answers(front) + 1);
      FixedOnlyCarries(x, front, AnswerPart(Answers(front) + 1), Answers(front) + 1);
    }
  }

  /** Every message quotes a text somebody spoke, or only carries receipts. */
  lemma {:induction false} MessageComesFrom(x: Context, history: seq<Heard>, m: Message)
    requires m in Contributions(x, history)
    ensures Quotes(x, history, m) || OnlyCarries(m)
  {
    hide Contribution, SaysIt, OnlyCarries;
    var n := |history| - 1;
    var front := history[..n];
    if m in Contribution(x, front, history[n]) {
      ContributedMessage(x, front, history[n], m);
    } else {
      MessageComesFrom(x, front, m);
      if Quotes(x, front, m) {
        var i :| 0 <= i < n && Speaks(front[i]) && SaysIt(x, front[i], i, m);
        assert history[i] == front[i];
      }
    }
  }

  /** Every visible message quotes a text somebody spoke, or carries receipts and has the fixed text for
      them; and none holds a start marker with a later end marker. */
  lemma EveryMessageIsQuotedOrCarries(x: Context, history: seq<Heard>, m: Message)
    requires m in VisibleHistory(x, history)
    ensures Quotes(x, history, m) || OnlyCarries(m)
    ensures !HasBlock(m.content)
  {
    hide VisibleHistory, Contributions, Quotes, OnlyCarries, WindowAt, Answers;
    VisibleHistoryIs(x, history);
    if m in Contributions(x, history) {
      MessageComesFrom(x, history, m);
    } else {
      FixedOnlyCarries(x, history, "-assistant-receipt", Answers(history) + 1);
    }
    if Quotes(x, history, m) {
      QuotedHasNoBlock(x, history, m);
    } else {
      FixedHasNoBlock(m);
    }
  }

  lemma QuotedHasNoBlock(x: Context, history: seq<Heard>, m: Message)
    requires Quotes(x, history, m)
    ensures !HasBlock(m.content)
  {
    hide Strip, TrimSpace, HasBlock;
    var i :| 0 <= i < |history| && Speaks(history[i]) && SaysIt(x, history[i], i, m);
    StrippedTextHasNoBlock(history[i].text);
    if history[i].FromUser? && x.open(history[i].text).Some? {
      StrippedTextHasNoBlock(x.open(history[i].text).value.visible);
    }
  }

  lemma FixedHasNoBlock(m: Message)
    requires OnlyCarries(m)
    ensures !HasBlock(m.content)
  {
    hide HasBlock, START, END;
    NoBracketNoBlock(MADE_DRAFTS);
    NoBracketNoBlock(FOUND_SOURCES);
  }

  lemma NoBracketNoBlock(s: GoString)
    requires forall i :: 0 <= i < |s| ==> s[i] != '<'
    ensures !HasBlock(s)
  {
    forall i
      ensures OccursAt(s, START, i) ==> '<' in s
    {
      MarkerBegins(s, i);
    }
  }

  lemma MarkerBegins(s: GoString, i: int)
    ensures OccursAt(s, START, i) ==> '<' in s
  {
    if OccursAt(s, START, i) {
      assert START[0] == '<';
      assert s[i..i + |START|][0] == s[i];
    }
  }

  // ---------------------------------------------------------------- which receipts a message carries

  /** All receipts of the tools the turn allows, since somebody last spoke, in the order they came. */
  function BroughtSince(x: Context, history: seq<Heard>, kind: Kind): seq<Receipt> {
    if history == [] || Speaks(history[|history| - 1]) then []
    else
      var front, last := history[..|history| - 1], history[|history| - 1];
      BroughtSince(x, front, kind) +
      if last.FromTool? && last.found.Some? && TurnAt(x, front).turnID != "" && ToolAllowed(TurnAt(x, front).mode, last.name)
      then BroughtIn(last.found.value, kind) else []
  }

  /** The last receipt for the revision that also names a page. */
  predicate IsLastOf(list: seq<Receipt>, j: nat, revisionID: GoString) {
    && j < |list| && list[j].revisionID == revisionID && revisionID != "" && list[j].pageID != ""
    && forall k :: j < k < |list| && list[k].revisionID == revisionID ==> list[k].pageID == ""
  }

  lemma {:induction false} NotedIsLast(list: seq<Receipt>, r: Receipt)
    ensures (r.revisionID in Noted(map[], list) && Noted(map[], list)[r.revisionID] == r) <==>
              exists j: nat :: IsLastOf(list, j, r.revisionID) && list[j] == r
  {
    if list != [] {
      var n := |list| - 1;
      NotedIsLast(list[..n], r);
      if list[n].revisionID == r.revisionID && Complete(list[n]) {
        assert IsLastOf(list, n, r.revisionID);
      } else {
        forall j: nat
          ensures IsLastOf(list, j, r.revisionID) <==> IsLastOf(list[..n], j, r.revisionID)
        {
        }
      }
    }
  }

  lemma {:induction false} NotedTwice(table: Table, a: seq<Receipt>, b: seq<Receipt>)
    ensures Noted(Noted(table, a), b) == Noted(table, a + b)
  {
    if b == [] {
      assert a + b == a;
    } else {
      var n := |b| - 1;
      NotedTwice(table, a, b[..n]);
      assert (a + b)[..|a| + n] == a + b[..n];
    }
  }

  lemma {:induction false} WindowIsNoted(x: Context, history: seq<Heard>, kind: Kind)
    ensures TableOf(WindowAt(x, history), kind) == Noted(map[], BroughtSince(x, history, kind))
  {
    hide TurnAt, ToolAllowed;
    if history != [] && !Speaks(history[|history| - 1]) {
      var n := |history| - 1;
      WindowIsNoted(x, history[..n], kind);
      if Brings(x, history[..n], history[n]) {
        NotedTwice(map[], BroughtSince(x, history[..n], kind), BroughtIn(history[n].found.value, kind));
      } else {
        assert BroughtSince(x, history[..n], kind) + [] == BroughtSince(x, history[..n], kind);
      }
    }
  }

  /** A message after a history carries, in the order of their revisions, exactly the receipts that are
      the last complete ones brought for their revision since somebody last spoke. */
  lemma CarriesTheLast(x: Context, history: seq<Heard>, id: GoString, content: GoString, n: nat, kind: Kind, r: Receipt)
    ensures var m, list := Answer(x, history, id, content, n), BroughtSince(x, history, kind);
            && (r in (if kind == Citations then m.citations else m.drafts) <==> exists j: nat :: IsLastOf(list, j, r.revisionID) && list[j] == r)
            && Increasing(m.citations, RevisionID) && Increasing(m.drafts, RevisionID)
  {
    hide TurnAt, WindowAt, BroughtSince, Noted, IsLastOf, Keyed;
    WindowIsKeyed(x, history);
    var table := TableOf(WindowAt(x, history), kind);
    WindowIsNoted(x, history, kind);
    NotedIsLast(BroughtSince(x, history, kind), r);
    KeyedBy(table);
    assert r in Listing(table) <==> r in Elements(Listing(table));
  }

  lemma KeyedBy(table: Table)
    requires Keyed(table)
    ensures forall r :: r in table.Values <==> r.revisionID in table && table[r.revisionID] == r
  {
  }
}
