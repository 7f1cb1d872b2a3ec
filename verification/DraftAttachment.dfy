/** Attaching the stored draft receipts of a conversation to the messages of their turns. */
module DraftAttachment {
  import opened GoStrings
  import opened Options
  import opened Collections
  import opened Snapshots
  import opened HistoryReceipts

  const ASSISTANT_PART: GoString := "-assistant"
  const RECEIPT_PART: GoString := "-assistant-receipt"

  type Stored = map<GoString, seq<Receipt>>

  // ---------------------------------------------------------------- turns of messages

  /** `assistantMessageTurnID`. */
  function TurnOfMessage(id: GoString): GoString {
    var i := Index(id, ASSISTANT_PART);
    if i <= 0 then "" else id[..i]
  }

  /** The turn the message added for a turn is read as. */
  function ReadAs(turn: GoString): GoString {
    TurnOfMessage(turn + RECEIPT_PART)
  }

  /** A turn id that can be read back out of the id of its message. */
  predicate Clean(turn: GoString) {
    turn != "" && ReadAs(turn) == turn
  }

  predicate IsOf(m: Message, turn: GoString) {
    m.role.Assistant? && turn != "" && TurnOfMessage(m.id) == turn
  }

  predicate IsUserOf(m: Message, turn: GoString) {
    m.role.User? && HasPrefix(m.id, turn + "-")
  }

  ghost predicate HasAssistant(messages: seq<Message>, turn: GoString) {
    exists m :: m in messages && IsOf(m, turn)
  }

  ghost predicate HasUser(messages: seq<Message>, turn: GoString) {
    exists m :: m in messages && IsUserOf(m, turn)
  }

  /** The revisions a list of receipts names. */
  function IDs(list: seq<Receipt>): set<GoString> {
    set r | r in list && r.revisionID != "" :: r.revisionID
  }

  /** The revisions shown as drafts by the assistant's messages of a turn. */
  function DraftIDs(messages: seq<Message>, turn: GoString): set<GoString> {
    set m, r | m in messages && IsOf(m, turn) && r in m.drafts && r.revisionID != "" :: r.revisionID
  }

  function Bare(m: Message): Message {
    m.(drafts := [])
  }

  // ---------------------------------------------------------------- what attaching does

  /** The turns that have receipts and a user's message, but no message of the assistant. */
  ghost function Silent(messages: seq<Message>, receipts: Stored): set<GoString> {
    set turn | turn in receipts && receipts[turn] != [] && !HasAssistant(messages, turn) && HasUser(messages, turn)
  }

  /** One of the added messages is read as this turn's. */
  ghost predicate Answered(added: set<GoString>, turn: GoString) {
    turn != "" && exists t :: t in added && ReadAs(t) == turn
  }

  /** The receipts of a turn the assistant has spoken in. */
  ghost function Own(messages: seq<Message>, receipts: Stored, turn: GoString): set<GoString> {
    if turn in receipts && HasAssistant(messages, turn) then IDs(receipts[turn]) else {}
  }

  /** The receipts that come with the added messages read as this turn's. */
  ghost function Gained(receipts: Stored, added: set<GoString>, turn: GoString): set<GoString> {
    set t, id | t in added && t in receipts && ReadAs(t) == turn && id in IDs(receipts[t]) :: id
  }

  /** A message is still there, with at least its drafts. */
  ghost predicate StillThere(m: Message, result: seq<Message>) {
    exists r :: r in result && Bare(r) == Bare(m) && Elements(m.drafts) <= Elements(r.drafts)
  }

  ghost predicate Attached(messages: seq<Message>, receipts: Stored, result: seq<Message>) {
    && (forall m :: m in messages ==> StillThere(m, result))
    && |result| == |messages| + |Silent(messages, receipts)|
    && (forall turn :: turn != "" ==>
          DraftIDs(result, turn) ==
          DraftIDs(messages, turn) + Own(messages, receipts, turn) + Gained(receipts, Silent(messages, receipts), turn))
    && (forall turn :: HasUser(result, turn) <==> HasUser(messages, turn))
    && (forall turn :: HasAssistant(result, turn) <==> HasAssistant(messages, turn) || Answered(Silent(messages, receipts), turn))
  }

  /** When all silent turns can be read back, every turn with a message shows its old drafts and its receipts. */
  lemma EachTurnShowsItsReceipts(messages: seq<Message>, receipts: Stored, result: seq<Message>, turn: GoString)
    requires Attached(messages, receipts, result) && turn in receipts
    requires forall t :: t in Silent(messages, receipts) ==> Clean(t)
    ensures turn != "" ==>
              DraftIDs(result, turn) ==
              DraftIDs(messages, turn) + if HasAssistant(messages, turn) || HasUser(messages, turn) then IDs(receipts[turn]) else {}
    ensures HasAssistant(result, turn) <==> HasAssistant(messages, turn) || turn in Silent(messages, receipts)
  {
    hide HasAssistant, HasUser, DraftIDs, IDs, ReadAs, Gained;
    if receipts[turn] == [] {
      NoIDs(receipts[turn]);
    }
    GainedWhenClean(receipts, Silent(messages, receipts), turn);
  }

  lemma GainedWhenClean(receipts: Stored, added: set<GoString>, turn: GoString)
    requires (forall t :: t in added ==> Clean(t)) && turn in receipts
    ensures Gained(receipts, added, turn) == if turn in added then IDs(receipts[turn]) else {}
    ensures Answered(added, turn) <==> turn in added
  {
    hide ReadAs, IDs;
    assert forall t :: t in added && ReadAs(t) == turn ==> t == turn;
  }

  /** A message is never read as a turn that cannot be read back. */
  lemma ReadAsIsClean(turn: GoString)
    ensures ReadAs(turn) != "" ==> Clean(ReadAs(turn))
  {
    hide Index, IndexFrom, OccursAt, Clean;
    var s := turn + RECEIPT_PART;
    var i := Index(s, ASSISTANT_PART);
    if i > 0 {
      CleanIff(s[..i]);
      assert s == s[..i] + s[i..];
      OccursInConcat(s[..i], s[i..], ASSISTANT_PART, Index(s[..i], ASSISTANT_PART));
    }
  }

  ghost function Unreadable(messages: seq<Message>, receipts: Stored): set<GoString> {
    set turn | turn in Silent(messages, receipts) && !Clean(turn)
  }

  lemma StaySilent(messages: seq<Message>, receipts: Stored, once: seq<Message>)
    requires Attached(messages, receipts, once)
    ensures Silent(once, receipts) == Unreadable(messages, receipts)
  {
    hide HasAssistant, HasUser, DraftIDs, IDs, ReadAs, Own, Gained;
    forall turn
      ensures turn in Silent(once, receipts) <==> turn in Unreadable(messages, receipts)
    {
      if Answered(Silent(messages, receipts), turn) {
        var t :| t in Silent(messages, receipts) && ReadAs(t) == turn;
        ReadAsIsClean(t);
      }
    }
  }

  /** Attaching the same receipts again adds a message for each silent turn whose id cannot be read back:
      none exactly when all can, and then no draft either. */
  lemma AttachingAgainAddsNothingIff(messages: seq<Message>, receipts: Stored, once: seq<Message>, twice: seq<Message>)
    requires Attached(messages, receipts, once) && Attached(once, receipts, twice)
    ensures |twice| == |once| + |Unreadable(messages, receipts)|
    ensures |twice| == |once| <==> forall turn :: turn in Silent(messages, receipts) ==> Clean(turn)
    ensures |twice| == |once| ==> forall turn :: turn != "" ==> DraftIDs(twice, turn) == DraftIDs(once, turn)
  {
    hide HasAssistant, HasUser, DraftIDs, IDs, Silent, Clean, Unreadable;
    StaySilent(messages, receipts, once);
    NoneUnreadable(messages, receipts);
    if |twice| == |once| {
      forall turn | turn != ""
        ensures DraftIDs(twice, turn) == DraftIDs(once, turn)
      {
        NothingGained(receipts, turn);
        if turn in receipts {
          EachTurnShowsItsReceipts(messages, receipts, once, turn);
          OwnIsShown(messages, receipts, turn);
        }
      }
    }
  }

  lemma NoneUnreadable(messages: seq<Message>, receipts: Stored)
    ensures |Unreadable(messages, receipts)| == 0 <==> forall turn :: turn in Silent(messages, receipts) ==> Clean(turn)
    ensures |Unreadable(messages, receipts)| == 0 <==> Unreadable(messages, receipts) == {}
  {
    hide Silent, Clean;
    forall turn | turn in Silent(messages, receipts) && !Clean(turn)
      ensures turn in Unreadable(messages, receipts)
    {
    }
  }

  lemma NothingGained(receipts: Stored, turn: GoString)
    ensures Gained(receipts, {}, turn) == {}
  {
  }

  lemma OwnIsShown(messages: seq<Message>, receipts: Stored, turn: GoString)
    ensures turn in Silent(messages, receipts) ==> HasUser(messages, turn)
  {
    hide HasUser, HasAssistant;
  }

  lemma NoIDs(list: seq<Receipt>)
    requires list == []
    ensures IDs(list) == {}
  {
  }

  // ---------------------------------------------------------------- one turn

  /** The drafts with the receipts read so far whose revisions were not known, one each. */
  ghost predicate Appends(drafts: seq<Receipt>, known: set<GoString>, values: seq<Receipt>, more: seq<Receipt>) {
    && Elements(drafts) <= Elements(more) <= Elements(drafts) + Elements(values)
    && IDs(more) == IDs(drafts) + (IDs(values) - known) && |more| == |drafts| + |IDs(values) - known|
  }

  lemma NothingAppends(drafts: seq<Receipt>, known: set<GoString>)
    ensures Appends(drafts, known, [], drafts)
  {
    assert IDs([]) - known == {};
  }

  lemma AppendOne(drafts: seq<Receipt>, known: set<GoString>, values: seq<Receipt>, more: seq<Receipt>, r: Receipt)
    requires Appends(drafts, known, values, more)
    ensures if r.revisionID != "" && r.revisionID !in known + IDs(values) then Appends(drafts, known, values + [r], more + [r])
            else Appends(drafts, known, values + [r], more)
  {
    hide IDs;
    IDsOneMore(values, r);
    IDsOneMore(more, r);
    assert Elements(values + [r]) == Elements(values) + {r} && Elements(more + [r]) == Elements(more) + {r};
    if r.revisionID != "" && r.revisionID !in known + IDs(values) {
      assert IDs(values + [r]) - known == (IDs(values) - known) + {r.revisionID};
    } else {
      assert IDs(values + [r]) - known == IDs(values) - known;
    }
  }

  lemma SortedAppends(drafts: seq<Receipt>, known: set<GoString>, values: seq<Receipt>, more: seq<Receipt>)
    requires Appends(drafts, known, values, more)
    ensures Extends(drafts, known, values, Sort(more, RevisionID))
  {
    hide IDs;
    SortSorts(more, RevisionID);
    PermutedElements(more, Sort(more, RevisionID));
    SameIDs(more, Sort(more, RevisionID));
  }

  /** Receipts not shown yet are appended, in order. */
  method AppendMissing(drafts: seq<Receipt>, values: seq<Receipt>, known: set<GoString>) returns (more: seq<Receipt>)
    ensures Extends(drafts, known, values, more)
  {
    hide Appends, Extends, IDs;
    more := drafts;
    var existing := known;
    NothingAppends(drafts, known);
    assert IDs(values[..0]) == {} by { NoIDs(values[..0]); }
    for i := 0 to |values|
      invariant existing == known + IDs(values[..i]) && Appends(drafts, known, values[..i], more)
    {
      IDsOneMore(values[..i], values[i]);
      AppendOne(drafts, known, values[..i], more, values[i]);
      assert values[..i + 1] == values[..i] + [values[i]];
      if values[i].revisionID != "" && values[i].revisionID !in existing {
        more := more + [values[i]];
        existing := existing + {values[i].revisionID};
      }
    }
    assert values[..|values|] == values;
    SortedAppends(drafts, known, values, more);
    more := Sort(more, RevisionID);
  }

  lemma IDsOneMore(list: seq<Receipt>, r: Receipt)
    ensures IDs(list + [r]) == IDs(list) + if r.revisionID != "" then {r.revisionID} else {}
  {
    assert forall x :: x in list + [r] <==> x in list || x == r;
  }

  lemma SameIDs(a: seq<Receipt>, b: seq<Receipt>)
    requires Elements(a) == Elements(b)
    ensures IDs(a) == IDs(b)
  {
    assert forall x :: x in a <==> x in Elements(a);
    assert forall x :: x in b <==> x in Elements(b);
  }

  lemma InUpdated(messages: seq<Message>, i: nat, m: Message, x: Message)
    requires i < |messages|
    ensures x in messages[i := m] ==> x == m || exists k :: 0 <= k < |messages| && k != i && messages[k] == x
    ensures m in messages[i := m]
    ensures forall k :: 0 <= k < |messages| && k != i ==> messages[k] in messages[i := m]
  {
    assert messages[i := m][i] == m;
    assert forall k :: 0 <= k < |messages| && k != i ==> messages[i := m][k] == messages[k];
  }

  /** Giving one of a turn's messages more drafts adds exactly those to the turn. */
  lemma UpdatedDrafts(messages: seq<Message>, i: nat, drafts: seq<Receipt>, added: set<GoString>, turn: GoString)
    requires i < |messages| && IDs(drafts) == IDs(messages[i].drafts) + added
    ensures DraftIDs(messages[i := messages[i].(drafts := drafts)], turn) ==
            DraftIDs(messages, turn) + if IsOf(messages[i], turn) then added else {}
  {
    hide TurnOfMessage;
    var m := messages[i].(drafts := drafts);
    var updated := messages[i := m];
    assert IsOf(m, turn) == IsOf(messages[i], turn);
    InUpdated(messages, i, m, m);
    forall id | id in DraftIDs(messages, turn)
      ensures id in DraftIDs(updated, turn)
    {
      var x, r :| x in messages && IsOf(x, turn) && r in x.drafts && r.revisionID != "" && r.revisionID == id;
      var k :| 0 <= k < |messages| && messages[k] == x;
      InUpdated(messages, i, m, x);
      if k == i {
        assert id in IDs(drafts);
        var s :| s in drafts && s.revisionID == id;
        assert m in updated;
      }
    }
    forall id | id in DraftIDs(updated, turn)
      ensures id in DraftIDs(messages, turn) || (IsOf(messages[i], turn) && id in added)
    {
      var x, r :| x in updated && IsOf(x, turn) && r in x.drafts && r.revisionID != "" && r.revisionID == id;
      InUpdated(messages, i, m, x);
      if x == m {
        assert id in IDs(drafts);
        if id in IDs(messages[i].drafts) {
          var s :| s in messages[i].drafts && s.revisionID == id;
          assert messages[i] in messages;
        }
      }
    }
    if IsOf(messages[i], turn) {
      forall id | id in added
        ensures id in DraftIDs(updated, turn)
      {
        assert id in IDs(drafts);
        var s :| s in drafts && s.revisionID == id && s.revisionID != "";
        assert m in updated;
      }
    }
  }

  lemma AppendedDrafts(messages: seq<Message>, m: Message, turn: GoString)
    ensures DraftIDs(messages + [m], turn) == DraftIDs(messages, turn) + if IsOf(m, turn) then IDs(m.drafts) else {}
  {
    hide TurnOfMessage, IsOf;
    assert forall x :: x in messages + [m] <==> x in messages || x == m;
  }

  // ---------------------------------------------------------------- the invariant of the loop over turns

  /** The messages have kept their places and everything but drafts, of which none is lost; what has
      been added are messages of the assistant. */
  ghost predicate InPlace(messages: seq<Message>, current: seq<Message>) {
    && |messages| <= |current|
    && (forall i :: 0 <= i < |messages| ==> Bare(current[i]) == Bare(messages[i]) && Elements(messages[i].drafts) <= Elements(current[i].drafts))
    && (forall i :: |messages| <= i < |current| ==> current[i].role.Assistant?)
  }

  lemma InPlaceKeeps(messages: seq<Message>, current: seq<Message>)
    requires InPlace(messages, current)
    ensures forall m :: m in messages ==> StillThere(m, current)
    ensures forall turn :: HasUser(current, turn) <==> HasUser(messages, turn)
    ensures forall turn :: HasAssistant(messages, turn) ==> HasAssistant(current, turn)
  {
    hide TurnOfMessage, HasPrefix;
    forall m | m in messages
      ensures StillThere(m, current)
    {
      var i :| 0 <= i < |messages| && messages[i] == m;
      assert current[i] in current;
    }
    forall turn
      ensures HasUser(current, turn) <==> HasUser(messages, turn)
      ensures HasAssistant(messages, turn) ==> HasAssistant(current, turn)
    {
      if HasUser(current, turn) {
        var m :| m in current && IsUserOf(m, turn);
        var i :| 0 <= i < |current| && current[i] == m;
        SameBare(current[i], messages[i], turn);
        assert messages[i] in messages;
      }
      if HasUser(messages, turn) {
        var m :| m in messages && IsUserOf(m, turn);
        var i :| 0 <= i < |messages| && messages[i] == m;
        SameBare(current[i], messages[i], turn);
        assert current[i] in current;
      }
      if HasAssistant(messages, turn) {
        var m :| m in messages && IsOf(m, turn);
        var i :| 0 <= i < |messages| && messages[i] == m;
        SameBare(current[i], messages[i], turn);
        assert current[i] in current;
      }
    }
  }

  lemma SameBare(a: Message, b: Message, turn: GoString)
    requires Bare(a) == Bare(b)
    ensures IsOf(a, turn) == IsOf(b, turn) && IsUserOf(a, turn) == IsUserOf(b, turn)
  {
    assert a.role == Bare(a).role && b.role == Bare(b).role && a.id == Bare(a).id && b.id == Bare(b).id;
  }

  /** What a turn shows after the receipts of `done`. */
  ghost function Joined(messages: seq<Message>, receipts: Stored, done: set<GoString>, turn: GoString): set<GoString> {
    DraftIDs(messages, turn) + (if turn in done then Own(messages, receipts, turn) else {})
    + Gained(receipts, Silent(messages, receipts) * done, turn)
  }

  ghost predicate DraftsReached(messages: seq<Message>, receipts: Stored, done: set<GoString>, current: seq<Message>) {
    forall turn :: turn != "" ==> DraftIDs(current, turn) == Joined(messages, receipts, done, turn)
  }

  /** A message has been added exactly for the silent turns of `done`. */
  ghost predicate AdditionsReached(messages: seq<Message>, receipts: Stored, done: set<GoString>, current: seq<Message>) {
    && |current| == |messages| + |Silent(messages, receipts) * done|
    && forall turn :: HasAssistant(current, turn) <==> HasAssistant(messages, turn) || Answered(Silent(messages, receipts) * done, turn)
  }

  /** After the receipts of `done`. */
  ghost predicate Reached(messages: seq<Message>, receipts: Stored, done: set<GoString>, current: seq<Message>) {
    && InPlace(messages, current) && done <= receipts.Keys
    && DraftsReached(messages, receipts, done, current) && AdditionsReached(messages, receipts, done, current)
  }

  lemma NothingReached(messages: seq<Message>, receipts: Stored)
    ensures Reached(messages, receipts, {}, messages)
  {
    hide HasAssistant, HasUser, DraftIDs, Gained;
    assert Silent(messages, receipts) * {} == {};
    forall turn
      ensures Gained(receipts, {}, turn) == {}
    {
      NothingGained(receipts, turn);
    }
  }

  lemma AllReached(messages: seq<Message>, receipts: Stored, current: seq<Message>)
    requires Reached(messages, receipts, receipts.Keys, current)
    ensures Attached(messages, receipts, current)
  {
    hide HasAssistant, HasUser, DraftIDs, InPlace, StillThere, Gained, Answered, IDs;
    InPlaceKeeps(messages, current);
    assert Silent(messages, receipts) * receipts.Keys == Silent(messages, receipts);
  }

  lemma SkippedTurn(messages: seq<Message>, receipts: Stored, done: set<GoString>, current: seq<Message>, turn: GoString)
    requires Reached(messages, receipts, done, current) && turn in receipts && turn !in done
    requires receipts[turn] == [] || (!HasAssistant(messages, turn) && !HasUser(messages, turn))
    ensures Reached(messages, receipts, done + {turn}, current)
  {
    hide HasAssistant, HasUser, DraftIDs, InPlace, DraftsReached;
    assert Silent(messages, receipts) * (done + {turn}) == Silent(messages, receipts) * done;
    SkippedDrafts(messages, receipts, done, current, turn);
  }

  lemma SkippedDrafts(messages: seq<Message>, receipts: Stored, done: set<GoString>, current: seq<Message>, turn: GoString)
    requires DraftsReached(messages, receipts, done, current) && turn in receipts && turn !in done
    requires receipts[turn] == [] || (!HasAssistant(messages, turn) && !HasUser(messages, turn))
    ensures DraftsReached(messages, receipts, done + {turn}, current)
  {
    hide HasAssistant, HasUser, DraftIDs, IDs, Gained;
    assert Silent(messages, receipts) * (done + {turn}) == Silent(messages, receipts) * done;
    if receipts[turn] == [] {
      NoIDs(receipts[turn]);
    }
  }

  lemma ExtendedDrafts(messages: seq<Message>, receipts: Stored, done: set<GoString>, current: seq<Message>, turn: GoString,
                       i: nat, drafts: seq<Receipt>)
    requires DraftsReached(messages, receipts, done, current) && turn in receipts && turn !in done && turn != ""
    requires i < |current| && IsOf(current[i], turn) && HasAssistant(messages, turn)
    requires IDs(drafts) == IDs(current[i].drafts) + (IDs(receipts[turn]) - DraftIDs(messages, turn))
    ensures DraftsReached(messages, receipts, done + {turn}, current[i := current[i].(drafts := drafts)])
  {
    hide HasUser, DraftIDs, IDs, HasAssistant, IsOf, Gained;
    var updated := current[i := current[i].(drafts := drafts)];
    var added := IDs(receipts[turn]) - DraftIDs(messages, turn);
    assert Silent(messages, receipts) * (done + {turn}) == Silent(messages, receipts) * done;
    forall t | t != ""
      ensures DraftIDs(updated, t) == Joined(messages, receipts, done + {turn}, t)
    {
      UpdatedDrafts(current, i, drafts, added, t);
      if t != turn {
        OneTurn(current[i], turn, t);
      }
    }
  }

  lemma ExtendedTurn(messages: seq<Message>, receipts: Stored, done: set<GoString>, current: seq<Message>, turn: GoString,
                     i: nat, drafts: seq<Receipt>)
    requires Reached(messages, receipts, done, current) && turn in receipts && turn !in done && turn != ""
    requires i < |messages| && IsOf(messages[i], turn) && Elements(current[i].drafts) <= Elements(drafts)
    requires IDs(drafts) == IDs(current[i].drafts) + (IDs(receipts[turn]) - DraftIDs(messages, turn))
    ensures Reached(messages, receipts, done + {turn}, current[i := current[i].(drafts := drafts)])
  {
    hide HasUser, DraftIDs, IDs, HasAssistant, IsOf, DraftsReached;
    assert messages[i] in messages;
    HasOne(messages, messages[i], turn);
    SameBare(current[i], messages[i], turn);
    ExtendedDrafts(messages, receipts, done, current, turn, i, drafts);
    SameAssistants(current, i, drafts);
    assert Silent(messages, receipts) * (done + {turn}) == Silent(messages, receipts) * done;
  }

  lemma OneTurn(m: Message, turn: GoString, other: GoString)
    requires IsOf(m, turn) && turn != other
    ensures !IsOf(m, other)
  {
    hide TurnOfMessage;
  }

  lemma HasOne(messages: seq<Message>, m: Message, turn: GoString)
    requires m in messages
    ensures IsOf(m, turn) ==> HasAssistant(messages, turn)
    ensures IsUserOf(m, turn) ==> HasUser(messages, turn)
  {
    hide IsOf, IsUserOf;
  }

  lemma SameAssistants(current: seq<Message>, i: nat, drafts: seq<Receipt>)
    requires i < |current|
    ensures forall t :: HasAssistant(current[i := current[i].(drafts := drafts)], t) <==> HasAssistant(current, t)
  {
    hide IsOf;
    var m := current[i].(drafts := drafts);
    var updated := current[i := m];
    forall t
      ensures HasAssistant(updated, t) <==> HasAssistant(current, t)
    {
      SameBare(m, current[i], t);
      if HasAssistant(updated, t) {
        var x :| x in updated && IsOf(x, t);
        InUpdated(current, i, m, x);
        assert current[i] in current;
      }
      if HasAssistant(current, t) {
        var x :| x in current && IsOf(x, t);
        var k :| 0 <= k < |current| && current[k] == x;
        InUpdated(current, i, m, x);
      }
    }
  }

  /** The message added for a turn answers the turn it is read as. */
  predicate AddedFor(m: Message, turn: GoString) {
    m.role.Assistant? && m.id == turn + RECEIPT_PART
  }

  lemma AddedIsOf(m: Message, turn: GoString, t: GoString)
    requires AddedFor(m, turn)
    ensures IsOf(m, t) <==> t != "" && ReadAs(turn) == t
  {
    hide TurnOfMessage;
  }

  lemma GainedOneMore(receipts: Stored, added: set<GoString>, turn: GoString, t: GoString)
    requires turn in receipts
    ensures Gained(receipts, added + {turn}, t) == Gained(receipts, added, t) + if ReadAs(turn) == t then IDs(receipts[turn]) else {}
  {
    hide ReadAs, IDs;
  }

  lemma AddedDrafts(messages: seq<Message>, receipts: Stored, done: set<GoString>, current: seq<Message>, turn: GoString, m: Message)
    requires DraftsReached(messages, receipts, done, current) && turn in Silent(messages, receipts) && turn !in done
    requires AddedFor(m, turn) && m.drafts == receipts[turn]
    ensures DraftsReached(messages, receipts, done + {turn}, current + [m])
  {
    hide HasUser, DraftIDs, IDs, HasAssistant, IsOf, Gained, ReadAs;
    var silent := Silent(messages, receipts);
    assert silent * (done + {turn}) == silent * done + {turn};
    forall t | t != ""
      ensures DraftIDs(current + [m], t) == Joined(messages, receipts, done + {turn}, t)
    {
      AppendedDrafts(current, m, t);
      AddedIsOf(m, turn, t);
      GainedOneMore(receipts, silent * done, turn, t);
    }
  }

  lemma AddedTurn(messages: seq<Message>, receipts: Stored, done: set<GoString>, current: seq<Message>, turn: GoString, m: Message)
    requires Reached(messages, receipts, done, current) && turn in Silent(messages, receipts) && turn !in done
    requires AddedFor(m, turn) && m.drafts == receipts[turn]
    ensures Reached(messages, receipts, done + {turn}, current + [m])
  {
    hide HasUser, DraftIDs, IDs, HasAssistant, IsOf, DraftsReached, ReadAs;
    var silent := Silent(messages, receipts);
    AddedDrafts(messages, receipts, done, current, turn, m);
    assert silent * (done + {turn}) == silent * done + {turn};
    forall t
      ensures HasAssistant(current + [m], t) <==> HasAssistant(current, t) || (t != "" && ReadAs(turn) == t)
    {
      AppendedAssistant(current, m, t);
      AddedIsOf(m, turn, t);
    }
    forall t
      ensures Answered(silent * done + {turn}, t) <==> Answered(silent * done, t) || (t != "" && ReadAs(turn) == t)
    {
      assert turn in silent * done + {turn};
    }
  }

  lemma AppendedAssistant(current: seq<Message>, m: Message, t: GoString)
    ensures HasAssistant(current + [m], t) <==> HasAssistant(current, t) || IsOf(m, t)
  {
    hide TurnOfMessage;
    assert forall x :: x in current + [m] <==> x in current || x == m;
  }

  // ---------------------------------------------------------------- message by message

  predicate IsLast(messages: seq<Message>, i: nat, turn: GoString) {
    i < |messages| && IsOf(messages[i], turn) && forall j :: i < j < |messages| ==> !IsOf(messages[j], turn)
  }

  predicate IsFirstUser(messages: seq<Message>, i: nat, turn: GoString) {
    i < |messages| && IsUserOf(messages[i], turn) && forall j :: 0 <= j < i ==> !IsUserOf(messages[j], turn)
  }

  /** The drafts with those of the receipts whose revisions are not known, one each, in order. */
  ghost predicate Extends(drafts: seq<Receipt>, known: set<GoString>, values: seq<Receipt>, more: seq<Receipt>) {
    && Elements(drafts) <= Elements(more) <= Elements(drafts) + Elements(values)
    && IDs(more) == IDs(drafts) + (IDs(values) - known) && |more| == |drafts| + |IDs(values) - known|
    && Ordered(more, RevisionID)
  }

  /** What becomes of a message: the last one of a turn takes what the turn did not show, any other
      stays as it was. */
  ghost predicate Becomes(messages: seq<Message>, receipts: Stored, done: set<GoString>, i: nat, r: Message)
    requires i < |messages| && done <= receipts.Keys
  {
    var turn := TurnOfMessage(messages[i].id);
    if turn in done && receipts[turn] != [] && IsLast(messages, i, turn)
    then Bare(r) == Bare(messages[i]) && Extends(messages[i].drafts, DraftIDs(messages, turn), receipts[turn], r.drafts)
    else r == messages[i]
  }

  /** The message added for a turn speaks right after the user, in his mode, and carries its receipts. */
  ghost predicate IsReceiptMessage(messages: seq<Message>, receipts: Stored, turn: GoString, r: Message) {
    turn in receipts && exists i: nat :: IsFirstUser(messages, i, turn) && r == ReceiptMessage(messages[i], turn, receipts[turn])
  }

  function ReceiptMessage(user: Message, turn: GoString, values: seq<Receipt>): Message {
    Message(turn + "-assistant-receipt", Assistant, user.mode, MADE_DRAFTS, [], values, user.createdAt + 1)
  }

  ghost predicate IsAdded(messages: seq<Message>, receipts: Stored, added: set<GoString>, r: Message) {
    exists turn :: turn in added && IsReceiptMessage(messages, receipts, turn, r)
  }

  ghost predicate HasAdded(messages: seq<Message>, receipts: Stored, turn: GoString, current: seq<Message>) {
    exists k :: |messages| <= k < |current| && IsReceiptMessage(messages, receipts, turn, current[k])
  }

  ghost predicate Placed(messages: seq<Message>, receipts: Stored, done: set<GoString>, current: seq<Message>) {
    && done <= receipts.Keys && |messages| <= |current|
    && (forall i :: 0 <= i < |messages| ==> Becomes(messages, receipts, done, i, current[i]))
    && var added := Silent(messages, receipts) * done;
       && (forall k :: |messages| <= k < |current| ==> IsAdded(messages, receipts, added, current[k]))
       && (forall turn :: turn in added ==> HasAdded(messages, receipts, turn, current))
  }

  /** The messages are those placed, in some order. */
  ghost predicate PlacedInOrder(messages: seq<Message>, receipts: Stored, result: seq<Message>) {
    exists placed :: Placed(messages, receipts, receipts.Keys, placed) && multiset(result) == multiset(placed)
  }

  lemma NothingPlaced(messages: seq<Message>, receipts: Stored)
    ensures Placed(messages, receipts, {}, messages)
  {
    hide Silent, TurnOfMessage;
  }

  lemma PlacedAnother(messages: seq<Message>, receipts: Stored, done: set<GoString>, current: seq<Message>, turn: GoString, i: nat)
    requires Placed(messages, receipts, done, current) && turn in receipts && turn !in done && i < |messages|
    requires receipts[turn] != [] ==> !IsLast(messages, i, turn)
    ensures Becomes(messages, receipts, done + {turn}, i, current[i])
  {
    hide TurnOfMessage, IsLast, Silent, DraftIDs, Extends, IsReceiptMessage;
    assert Becomes(messages, receipts, done, i, current[i]);
  }

  lemma NoneIsLast(messages: seq<Message>, turn: GoString, i: nat)
    ensures !HasAssistant(messages, turn) ==> !IsLast(messages, i, turn)
  {
    hide IsOf;
    assert i < |messages| ==> messages[i] in messages;
  }

  lemma NotSilent(messages: seq<Message>, receipts: Stored, turn: GoString)
    requires turn in receipts && (receipts[turn] == [] || HasAssistant(messages, turn) || !HasUser(messages, turn))
    ensures turn !in Silent(messages, receipts)
  {
  }

  lemma SkippedPlace(messages: seq<Message>, receipts: Stored, done: set<GoString>, current: seq<Message>, turn: GoString)
    requires Placed(messages, receipts, done, current) && turn in receipts && turn !in done
    requires receipts[turn] == [] || (!HasAssistant(messages, turn) && !HasUser(messages, turn))
    ensures Placed(messages, receipts, done + {turn}, current)
  {
    hide TurnOfMessage, IsOf, HasUser, Becomes, DraftIDs, Extends, IsReceiptMessage, IsAdded;
    NotSilent(messages, receipts, turn);
    hide Silent;
    assert Silent(messages, receipts) * (done + {turn}) == Silent(messages, receipts) * done;
    forall i | 0 <= i < |messages|
      ensures Becomes(messages, receipts, done + {turn}, i, current[i])
    {
      NoneIsLast(messages, turn, i);
      PlacedAnother(messages, receipts, done, current, turn, i);
    }
  }

  lemma ExtendedPlace(messages: seq<Message>, receipts: Stored, done: set<GoString>, current: seq<Message>, turn: GoString, i: nat, drafts: seq<Receipt>)
    requires Placed(messages, receipts, done, current) && turn in receipts && turn !in done && receipts[turn] != []
    requires IsLast(messages, i, turn) && Extends(messages[i].drafts, DraftIDs(messages, turn), receipts[turn], drafts)
    ensures Placed(messages, receipts, done + {turn}, current[i := messages[i].(drafts := drafts)])
  {
    hide TurnOfMessage, HasUser, DraftIDs, Extends, IsReceiptMessage, Becomes;
    HasOne(messages, messages[i], turn);
    NotSilent(messages, receipts, turn);
    hide Silent;
    assert Silent(messages, receipts) * (done + {turn}) == Silent(messages, receipts) * done;
    var more := current[i := messages[i].(drafts := drafts)];
    forall k | 0 <= k < |messages|
      ensures Becomes(messages, receipts, done + {turn}, k, more[k])
    {
      if k == i {
        LastBecomes(messages, receipts, done + {turn}, turn, i, drafts);
      } else {
        PlacedAnother(messages, receipts, done, current, turn, k);
      }
    }
    assert forall k :: |messages| <= k < |current| ==> more[k] == current[k];
    forall t | HasAdded(messages, receipts, t, current)
      ensures HasAdded(messages, receipts, t, more)
    {
      var k :| |messages| <= k < |current| && IsReceiptMessage(messages, receipts, t, current[k]);
      assert IsReceiptMessage(messages, receipts, t, more[k]);
    }
  }

  lemma LastBecomes(messages: seq<Message>, receipts: Stored, done: set<GoString>, turn: GoString, i: nat, drafts: seq<Receipt>)
    requires turn in done && done <= receipts.Keys && receipts[turn] != []
    requires IsLast(messages, i, turn) && Extends(messages[i].drafts, DraftIDs(messages, turn), receipts[turn], drafts)
    ensures Becomes(messages, receipts, done, i, messages[i].(drafts := drafts))
  {
    hide TurnOfMessage, DraftIDs, Extends;
  }

  lemma AddedMore(messages: seq<Message>, receipts: Stored, added: set<GoString>, turn: GoString, r: Message)
    requires IsAdded(messages, receipts, added, r) || IsReceiptMessage(messages, receipts, turn, r)
    ensures IsAdded(messages, receipts, added + {turn}, r)
  {
    hide IsReceiptMessage;
    assert turn in added + {turn};
  }

  lemma AddedPlace(messages: seq<Message>, receipts: Stored, done: set<GoString>, current: seq<Message>, turn: GoString, m: Message)
    requires Placed(messages, receipts, done, current) && turn in Silent(messages, receipts) && turn !in done
    requires IsReceiptMessage(messages, receipts, turn, m)
    ensures Placed(messages, receipts, done + {turn}, current + [m])
  {
    hide TurnOfMessage, IsOf, HasUser, Becomes, DraftIDs, Extends, IsReceiptMessage, IsAdded;
    var silent, more := Silent(messages, receipts), current + [m];
    assert silent * (done + {turn}) == silent * done + {turn};
    forall i | 0 <= i < |messages|
      ensures Becomes(messages, receipts, done + {turn}, i, more[i])
    {
      NoneIsLast(messages, turn, i);
      PlacedAnother(messages, receipts, done, current, turn, i);
    }
    assert more[|current|] == m && forall k :: |messages| <= k < |current| ==> more[k] == current[k];
    forall k | |messages| <= k < |more|
      ensures IsAdded(messages, receipts, silent * done + {turn}, more[k])
    {
      AddedMore(messages, receipts, silent * done, turn, more[k]);
    }
    forall t | t == turn || HasAdded(messages, receipts, t, current)
      ensures HasAdded(messages, receipts, t, more)
    {
      if t != turn {
        var k :| |messages| <= k < |current| && IsReceiptMessage(messages, receipts, t, current[k]);
        assert IsReceiptMessage(messages, receipts, t, more[k]);
      }
    }
  }

  /** Until its turn is done a message is the one it was; the user's messages stay so. */
  lemma StillAsItWas(messages: seq<Message>, receipts: Stored, done: set<GoString>, current: seq<Message>, i: nat)
    requires Placed(messages, receipts, done, current) && i < |messages|
    requires messages[i].role.User? || TurnOfMessage(messages[i].id) !in done
    ensures current[i] == messages[i]
  {
    hide TurnOfMessage, Silent, DraftIDs, Extends, IsReceiptMessage;
    assert Becomes(messages, receipts, done, i, current[i]);
  }

  lemma AddedAreAssistants(messages: seq<Message>, receipts: Stored, done: set<GoString>, current: seq<Message>)
    requires Placed(messages, receipts, done, current)
    ensures forall k :: |messages| <= k < |current| ==> current[k].role.Assistant?
  {
    hide Becomes, Silent;
  }

  lemma FirstUserStays(messages: seq<Message>, receipts: Stored, done: set<GoString>, current: seq<Message>, turn: GoString, i: nat)
    requires Placed(messages, receipts, done, current) && IsFirstUser(current, i, turn)
    ensures IsFirstUser(messages, i, turn) && current[i] == messages[i]
  {
    hide TurnOfMessage, Silent, DraftIDs, Extends, HasPrefix;
    forall k | 0 <= k < |messages|
      ensures Bare(current[k]) == Bare(messages[k])
    {
      assert Becomes(messages, receipts, done, k, current[k]);
    }
    AddedAreAssistants(messages, receipts, done, current);
    forall k | 0 <= k <= i
      ensures IsUserOf(current[k], turn) == IsUserOf(messages[k], turn)
    {
      SameBare(current[k], messages[k], turn);
    }
    StillAsItWas(messages, receipts, done, current, i);
  }

  // ---------------------------------------------------------------- the method

  /** Where the last message of the assistant in each turn is, and the drafts its turn shows. */
  ghost predicate Indexed(messages: seq<Message>, n: nat, last: map<GoString, nat>, known: map<GoString, set<GoString>>) {
    && n <= |messages| && last.Keys == known.Keys
    && (forall turn :: turn in last ==> last[turn] < n && IsOf(messages[last[turn]], turn) && known[turn] == DraftIDs(messages[..n], turn))
    && (forall turn :: HasAssistant(messages[..n], turn) ==> turn in last)
  }

  ghost predicate LastIndexed(messages: seq<Message>, n: nat, last: map<GoString, nat>) {
    n <= |messages| && forall turn, k :: turn in last && last[turn] < k < n ==> !IsOf(messages[k], turn)
  }

  lemma LastIndexedOneMore(messages: seq<Message>, n: nat, last: map<GoString, nat>)
    requires n < |messages| && LastIndexed(messages, n, last)
    ensures var m := messages[n]; var turn := TurnOfMessage(m.id);
            LastIndexed(messages, n + 1, if m.role.Assistant? && turn != "" then last[turn := n] else last)
  {
    hide TurnOfMessage;
  }

  lemma NothingIndexed(messages: seq<Message>)
    ensures Indexed(messages, 0, map[], map[]) && LastIndexed(messages, 0, map[])
  {
  }

  lemma IndexedOneMore(messages: seq<Message>, n: nat, last: map<GoString, nat>, known: map<GoString, set<GoString>>)
    requires n < |messages| && Indexed(messages, n, last, known)
    ensures var m := messages[n]; var turn := TurnOfMessage(m.id);
            if m.role.Assistant? && turn != "" then
              var before := if turn in known then known[turn] else {};
              Indexed(messages, n + 1, last[turn := n], known[turn := before + IDs(m.drafts)])
            else Indexed(messages, n + 1, last, known)
  {
    hide TurnOfMessage, DraftIDs, IDs;
    var m := messages[n];
    var turn := TurnOfMessage(m.id);
    assert messages[..n + 1] == messages[..n] + [m];
    forall t
      ensures DraftIDs(messages[..n + 1], t) == DraftIDs(messages[..n], t) + if IsOf(m, t) then IDs(m.drafts) else {}
      ensures HasAssistant(messages[..n + 1], t) ==> HasAssistant(messages[..n], t) || IsOf(m, t)
      ensures !HasAssistant(messages[..n], t) ==> DraftIDs(messages[..n], t) == {}
    {
      AppendedDrafts(messages[..n], m, t);
      NoAssistantNoDrafts(messages[..n], t);
    }
  }

  lemma NoAssistantNoDrafts(messages: seq<Message>, t: GoString)
    ensures !HasAssistant(messages, t) ==> DraftIDs(messages, t) == {}
  {
    hide TurnOfMessage;
  }

  method FindUser(messages: seq<Message>, turn: GoString) returns (found: Option<nat>)
    ensures found.Some? ==> IsFirstUser(messages, found.value, turn)
    ensures found.Some? <==> HasUser(messages, turn)
  {
    hide HasPrefix;
    for i := 0 to |messages|
      invariant forall k :: 0 <= k < i ==> !IsUserOf(messages[k], turn)
    {
      if IsUserOf(messages[i], turn) {
        assert messages[i] in messages;
        return Some(i);
      }
    }
    return None;
  }

  method IndexMessages(messages: seq<Message>) returns (last: map<GoString, nat>, known: map<GoString, set<GoString>>)
    ensures Indexed(messages, |messages|, last, known) && LastIndexed(messages, |messages|, last)
  {
    hide Indexed, LastIndexed, TurnOfMessage, IDs;
    last, known := map[], map[];
    NothingIndexed(messages);
    for i := 0 to |messages|
      invariant Indexed(messages, i, last, known) && LastIndexed(messages, i, last)
    {
      IndexedOneMore(messages, i, last, known);
      LastIndexedOneMore(messages, i, last);
      var m := messages[i];
      var turn := TurnOfMessage(m.id);
      if m.role.Assistant? && turn != "" {
        var before := if turn in known then known[turn] else {};
        last := last[turn := i];
        known := known[turn := before + IDs(m.drafts)];
      }
    }
  }

  lemma IndexedMeans(messages: seq<Message>, last: map<GoString, nat>, known: map<GoString, set<GoString>>, turn: GoString)
    requires Indexed(messages, |messages|, last, known) && LastIndexed(messages, |messages|, last)
    ensures turn in last <==> HasAssistant(messages, turn)
    ensures turn in last ==> turn in known && IsLast(messages, last[turn], turn) && known[turn] == DraftIDs(messages, turn)
  {
    hide TurnOfMessage, DraftIDs, IsOf;
    assert messages[..|messages|] == messages;
    if turn in last {
      HasOne(messages, messages[last[turn]], turn);
    }
  }

  /** `attachDraftReceipts`, for whatever order the table of receipts is walked in. */
  method AttachDraftReceipts(messages: seq<Message>, receipts: Stored) returns (result: seq<Message>)
    ensures Attached(messages, receipts, result) && Chronological(result)
    ensures PlacedInOrder(messages, receipts, result)
  {
    hide Placed, Extends, IsReceiptMessage, Becomes, Silent, Reached, Indexed, LastIndexed, IsOf, IsUserOf, HasUser, HasAssistant, DraftIDs, IDs, TurnOfMessage, Attached;
    var last, known := IndexMessages(messages);
    var remaining := receipts.Keys;
    ghost var done: set<GoString> := {};
    result := messages;
    NothingReached(messages, receipts);
    NothingPlaced(messages, receipts);
    while remaining != {}
      invariant done + remaining == receipts.Keys && done !! remaining
      invariant Reached(messages, receipts, done, result) && Placed(messages, receipts, done, result)
      decreases remaining
    {
      var turn :| turn in remaining;
      var values := receipts[turn];
      IndexedMeans(messages, last, known, turn);
      InPlaceOf(messages, receipts, done, result);
      InPlaceKeeps(messages, result);
      if values == [] {
        SkippedTurn(messages, receipts, done, result, turn);
        SkippedPlace(messages, receipts, done, result, turn);
      } else if turn in last {
        var i := last[turn];
        NamedTurn(messages[i], turn);
        StillAsItWas(messages, receipts, done, result, i);
        var drafts := AppendMissing(result[i].drafts, values, known[turn]);
        ExtendsAdds(result[i].drafts, known[turn], values, drafts);
        ExtendedTurn(messages, receipts, done, result, turn, i, drafts);
        ExtendedPlace(messages, receipts, done, result, turn, i, drafts);
        result := result[i := result[i].(drafts := drafts)];
      } else {
        var user := FindUser(result, turn);
        if user.Some? {
          var said := result[user.value];
          var m := Message(turn + RECEIPT_PART, Assistant, said.mode, MADE_DRAFTS, [], values, said.createdAt + 1);
          FirstUserStays(messages, receipts, done, result, turn, user.value);
          IsSilent(messages, receipts, turn);
          AddedTurn(messages, receipts, done, result, turn, m);
          SpeaksAfter(messages, receipts, turn, user.value);
          AddedPlace(messages, receipts, done, result, turn, m);
          result := result + [m];
        } else {
          SkippedTurn(messages, receipts, done, result, turn);
          SkippedPlace(messages, receipts, done, result, turn);
        SkippedPlace(messages, receipts, done, result, turn);
        }
      }
      remaining := remaining - {turn};
      done := done + {turn};
    }
    assert done == receipts.Keys;
    AllReached(messages, receipts, result);
    SortByTimeSorts(result);
    SortedStaysAttached(messages, receipts, result, SortByTime(result));
    result := SortByTime(result);
  }

  lemma InPlaceOf(messages: seq<Message>, receipts: Stored, done: set<GoString>, current: seq<Message>)
    requires Reached(messages, receipts, done, current)
    ensures InPlace(messages, current)
  {
  }

  lemma NamedTurn(m: Message, turn: GoString)
    requires IsOf(m, turn)
    ensures turn != "" && m.role.Assistant? && TurnOfMessage(m.id) == turn
  {
  }

  lemma ExtendsAdds(drafts: seq<Receipt>, known: set<GoString>, values: seq<Receipt>, more: seq<Receipt>)
    requires Extends(drafts, known, values, more)
    ensures Elements(drafts) <= Elements(more) && IDs(more) == IDs(drafts) + (IDs(values) - known)
  {
    hide IDs;
  }

  lemma SpeaksAfter(messages: seq<Message>, receipts: Stored, turn: GoString, i: nat)
    requires turn in receipts && IsFirstUser(messages, i, turn)
    ensures IsReceiptMessage(messages, receipts, turn, Message(
                               turn + RECEIPT_PART, Assistant, messages[i].mode, MADE_DRAFTS, [], receipts[turn], messages[i].createdAt + 1))
  {
    hide IsFirstUser;
  }

  lemma IsSilent(messages: seq<Message>, receipts: Stored, turn: GoString)
    requires turn in receipts && receipts[turn] != [] && !HasAssistant(messages, turn) && HasUser(messages, turn)
    ensures turn in Silent(messages, receipts)
  {
    hide HasAssistant, HasUser;
  }

  lemma SortedStaysAttached(messages: seq<Message>, receipts: Stored, a: seq<Message>, b: seq<Message>)
    requires Attached(messages, receipts, a) && multiset(b) == multiset(a)
    ensures Attached(messages, receipts, b)
  {
    hide TurnOfMessage, IsOf, IsUserOf, Silent, Own, Gained, Answered;
    PermutedElements(b, a);
    assert forall x :: x in a <==> x in Elements(a);
    assert forall x :: x in b <==> x in Elements(b);
    forall turn
      ensures DraftIDs(b, turn) == DraftIDs(a, turn)
      ensures HasUser(b, turn) == HasUser(a, turn) && HasAssistant(b, turn) == HasAssistant(a, turn)
    {
    }
    forall m | m in messages
      ensures StillThere(m, b)
    {
      assert StillThere(m, a);
    }
  }

  // ---------------------------------------------------------------- which turns need a readable id

  /** No occurrence runs across the seam: the marker has a hyphen only at its beginning. */
  lemma NoCrossing(turn: GoString, j: nat)
    requires |turn| - |ASSISTANT_PART| < j < |turn|
    ensures !OccursAt(turn + RECEIPT_PART, ASSISTANT_PART, j)
  {
    var s, k := turn + RECEIPT_PART, |turn| - j;
    assert s[|turn|] == RECEIPT_PART[0] == '-';
    assert 0 < k < |ASSISTANT_PART| && ASSISTANT_PART[k] != '-';
    if j + |ASSISTANT_PART| <= |s| {
      assert s[j..j + |ASSISTANT_PART|][k] == s[|turn|];
    }
  }

  /** A turn's id can be read back out of its receipt message exactly when it is not empty and does
      not contain the marker itself. */
  lemma CleanIff(turn: GoString)
    ensures Clean(turn) <==> turn != "" && !Contains(turn, ASSISTANT_PART)
  {
    hide Index, IndexFrom, OccursAt;
    var s, first := turn + RECEIPT_PART, Index(turn, ASSISTANT_PART);
    SeamOccurs(turn);
    forall j | 0 <= j < |turn| && OccursAt(s, ASSISTANT_PART, j)
      ensures OccursAt(turn, ASSISTANT_PART, j)
    {
      if |turn| - |ASSISTANT_PART| < j {
        NoCrossing(turn, j);
      } else {
        OccursInConcat(turn, RECEIPT_PART, ASSISTANT_PART, j);
      }
    }
    if first >= 0 {
      OccursInConcat(turn, RECEIPT_PART, ASSISTANT_PART, first);
    }
    var i := Index(s, ASSISTANT_PART);
    assert 0 <= i <= |turn|;
    assert i == |turn| ==> s[..i] == turn;
  }

  lemma SeamOccurs(turn: GoString)
    ensures OccursAt(turn + RECEIPT_PART, ASSISTANT_PART, |turn|)
  {
    var s := turn + RECEIPT_PART;
    assert s[|turn|..] == RECEIPT_PART;
    assert s[|turn|..|turn| + |ASSISTANT_PART|] == RECEIPT_PART[..|ASSISTANT_PART|] == ASSISTANT_PART;
  }

  /** Turn ids without the letter s can be read back: uuids, which have only hexadecimal digits and hyphens. */
  lemma NoSIsClean(turn: GoString)
    requires turn != "" && 's' !in turn
    ensures Clean(turn)
  {
    hide IndexFrom;
    CleanIff(turn);
    assert ASSISTANT_PART[2] == 's';
  }

  /** So can the ids given to turns whose prompt has no frame. */
  lemma LegacyIsClean(x: Context, text: GoString, i: nat)
    requires x.open(text).None?
    ensures Clean(Opened(x, text, i).turnID)
  {
    hide Clean, Decimal;
    DecimalHasDigits(i);
    assert 's' !in ModeName(x.mode);
    NoSIsClean(Opened(x, text, i).turnID);
  }

  lemma {:induction false} DecimalHasDigits(n: nat)
    ensures forall c :: c in Decimal(n) ==> '0' <= c <= '9'
  {
    if n >= 10 {
      DecimalHasDigits(n / 10);
    }
  }
}
