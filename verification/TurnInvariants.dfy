/** What every run of the assistant runtime keeps. */
module TurnInvariants {
  import opened GoStrings
  import opened Options
  import opened StreamFilter
  import opened StripMarkers
  import opened ChunkInvariance
  import opened TurnState
  import opened TurnOps

  // ---------------------------------------------------------------- the indexes and the states

  /** Session entries point at active turns under their current runtime or stored ID; entries kept
      for finished turns point at finished turns. */
  ghost predicate Indexed(s: State) {
    && (forall k :: k in s.byRuntime ==>
          var t := s.byRuntime[k]; t < |s.turns| && !s.turns[t].finalized && k == (s.turns[t].mode, s.turns[t].runtimeID))
    && (forall k :: k in s.byStored ==>
          var t := s.byStored[k]; t < |s.turns| && !s.turns[t].finalized && k == (s.turns[t].mode, s.turns[t].storedID))
    && (forall k :: k in s.recent ==> s.recent[k] < |s.turns| && s.turns[s.recent[k]].finalized)
  }

  /** A conversation is running or awaiting exactly while it has an active turn, and a
      clarification is pending exactly while it is awaiting one. */
  ghost predicate Stated(s: State) {
    && (forall c :: (c in s.conversation && s.conversation[c] in {Running, AwaitingClarification}) <==> c in s.byConversation)
    && (forall c :: c in s.clarifications <==> c in s.conversation && s.conversation[c] == AwaitingClarification)
  }

  ghost predicate Structured(s: State) {
    OneTurnEach(s) && Indexed(s) && Stated(s)
  }

  lemma WorkKeepsStructure(s: State, s': State, t: nat)
    requires Structured(s) && t < |s.turns| && WorksOn(s, s', t)
    ensures Structured(s')
  {
  }

  lemma BeginKeepsStructure(s: State, conversation: string, mode: Mode)
    requires Structured(s) && conversation !in s.byConversation
    ensures Structured(Begin(s, conversation, mode))
    ensures Unindexed(Begin(s, conversation, mode), |s.turns|)
  {
    hide Begin, OneTurnEach, Indexed, Stated, Unindexed;
    BeginKeepsOneTurnEach(s, conversation, mode);
    BeginKeepsIndexes(s, conversation, mode);
    BeginKeepsStates(s, conversation, mode);
  }

  lemma BeginKeepsIndexes(s: State, conversation: string, mode: Mode)
    requires Indexed(s)
    ensures Indexed(Begin(s, conversation, mode)) && Unindexed(Begin(s, conversation, mode), |s.turns|)
  {
  }

  lemma BeginKeepsStates(s: State, conversation: string, mode: Mode)
    requires Stated(s) && conversation !in s.byConversation
    ensures Stated(Begin(s, conversation, mode))
  {
  }

  /** No session entry points at turn `t` yet. */
  ghost predicate Unindexed(s: State, t: nat) {
    && (forall k :: k in s.byRuntime ==> s.byRuntime[k] != t)
    && (forall k :: k in s.byStored ==> s.byStored[k] != t)
  }

  lemma IndexKeepsStructure(s: State, t: nat, runtimeID: string, storedID: string)
    requires Structured(s) && t < |s.turns| && !s.turns[t].finalized && Unindexed(s, t)
    ensures Structured(IndexSession(s, t, runtimeID, storedID))
  {
    hide OneTurnEach, Indexed, Stated, Unindexed, IndexSession;
    IndexKeepsIndexes(s, t, runtimeID, storedID);
    IndexKeepsRest(s, t, runtimeID, storedID);
  }

  lemma IndexKeepsIndexes(s: State, t: nat, runtimeID: string, storedID: string)
    requires Indexed(s) && t < |s.turns| && !s.turns[t].finalized && Unindexed(s, t)
    ensures Indexed(IndexSession(s, t, runtimeID, storedID))
  {
  }

  lemma IndexKeepsRest(s: State, t: nat, runtimeID: string, storedID: string)
    requires OneTurnEach(s) && Stated(s) && t < |s.turns|
    ensures OneTurnEach(IndexSession(s, t, runtimeID, storedID)) && Stated(IndexSession(s, t, runtimeID, storedID))
  {
  }

  lemma FinishKeepsIndexes(s: State, t: nat, state: ConversationState)
    requires Indexed(s) && t < |s.turns| && !s.turns[t].finalized
    ensures Indexed(Finish(s, t, state))
  {
    forall k | k in s.byRuntime && k != (s.turns[t].mode, s.turns[t].runtimeID)
      ensures s.byRuntime[k] != t
    {
    }
    forall k | k in s.byStored && k != (s.turns[t].mode, s.turns[t].storedID)
      ensures s.byStored[k] != t
    {
    }
  }

  lemma FinishKeepsStates(s: State, t: nat, state: ConversationState)
    requires OneTurnEach(s) && Stated(s) && t < |s.turns| && !s.turns[t].finalized && state in {Idle, Stopped, Failed}
    ensures Stated(Finish(s, t, state))
  {
  }

  lemma FinishKeepsStructure(s: State, t: nat, state: ConversationState)
    requires Structured(s) && t < |s.turns| && !s.turns[t].finalized && state in {Idle, Stopped, Failed}
    ensures Structured(Finish(s, t, state))
  {
    hide Finish, OneTurnEach, Indexed, Stated;
    FinishKeepsOneTurnEach(s, t, state);
    FinishKeepsIndexes(s, t, state);
    FinishKeepsStates(s, t, state);
  }

  /** No active index leads to turn `t`. */
  ghost predicate Unlisted(s: State, t: nat) {
    Unindexed(s, t) && forall c :: c in s.byConversation ==> s.byConversation[c] != t
  }

  lemma FinishUnlists(s: State, t: nat, state: ConversationState)
    requires t < |s.turns|
    ensures Structured(s) ==> Unlisted(Finish(s, t, state), t)
  {
    hide Stated;
  }

  lemma RotateKeepsStructure(s: State, t: nat, storedID: string)
    requires Structured(s) && t < |s.turns|
    ensures Structured(Rotate(s, t, storedID))
  {
    hide OneTurnEach, Indexed, Stated, Rotate;
    RotateKeepsIndexes(s, t, storedID);
    RotateKeepsRest(s, t, storedID);
  }

  lemma RotateKeepsIndexes(s: State, t: nat, storedID: string)
    requires OneTurnEach(s) && Indexed(s) && t < |s.turns|
    ensures Indexed(Rotate(s, t, storedID))
  {
  }

  lemma RotateKeepsRest(s: State, t: nat, storedID: string)
    requires OneTurnEach(s) && Stated(s) && t < |s.turns|
    ensures OneTurnEach(Rotate(s, t, storedID)) && Stated(Rotate(s, t, storedID))
  {
  }

  lemma RebindKeepsStructure(s: State, t: nat, runtimeID: string)
    requires Structured(s) && t < |s.turns| && !s.turns[t].finalized
    ensures Structured(Rebind(s, t, runtimeID))
  {
    hide OneTurnEach, Indexed, Stated, Rebind;
    RebindKeepsIndexes(s, t, runtimeID);
    RebindKeepsRest(s, t, runtimeID);
  }

  lemma RebindKeepsIndexes(s: State, t: nat, runtimeID: string)
    requires Indexed(s) && t < |s.turns| && !s.turns[t].finalized
    ensures Indexed(Rebind(s, t, runtimeID))
  {
  }

  lemma RebindKeepsRest(s: State, t: nat, runtimeID: string)
    requires OneTurnEach(s) && Stated(s) && t < |s.turns|
    ensures OneTurnEach(Rebind(s, t, runtimeID)) && Stated(Rebind(s, t, runtimeID))
  {
  }

  lemma AskKeepsStructure(s: State, t: nat, requestID: string)
    requires Structured(s) && t < |s.turns| && !s.turns[t].finalized
    ensures Structured(Ask(s, t, requestID))
  {
  }

  lemma AnswerKeepsStructure(s: State, conversation: string)
    requires Structured(s) && conversation in s.byConversation
    ensures Structured(Answer(s, conversation))
  {
  }

  // ---------------------------------------------------------------- what a turn has published

  function TextOf(events: seq<Event>): GoString {
    if events == [] then ""
    else
      var last := events[|events| - 1];
      TextOf(events[..|events| - 1]) + if last.MessageDelta? then last.text else ""
  }

  lemma TextOfOneMore(events: seq<Event>, e: Event)
    ensures TextOf(events + [e]) == TextOf(events) + if e.MessageDelta? then e.text else ""
  {
    assert (events + [e])[..|events|] == events;
  }

  /** Each noted revision was published once, and nothing else was. */
  ghost predicate ReceiptsOnce(turn: Turn) {
    && (forall r :: multiset(turn.events)[CitationFound(r)] == if r in turn.citations then 1 else 0)
    && (forall r :: multiset(turn.events)[DraftCreated(r)] == if r in turn.drafts then 1 else 0)
  }

  ghost predicate NoEnding(events: seq<Event>) {
    forall i :: 0 <= i < |events| ==> !IsEnding(events[i])
  }

  /** Exactly one ending, and nothing after it. */
  ghost predicate OneEnding(events: seq<Event>) {
    events != [] && IsEnding(events[|events| - 1]) && NoEnding(events[..|events| - 1])
  }

  /** A turn still receiving text: what it has shown and what its filter holds are what feeding its
      deltas gives. */
  ghost predicate Streaming(turn: Turn) {
    && DrainAll(turn.fed, "", false) == Drained(TextOf(turn.events), turn.buffer, turn.inside)
    && (turn.hadDelta <==> TextOf(turn.events) != "")
    && turn.finalText == None
  }

  /** The text a completed message must have shown. */
  function CompletedText(fed: seq<GoString>, finalText: GoString): GoString {
    var streamed := FilterText(Concat(fed), false).text;
    if streamed != "" then streamed else TrimSpace(Strip(finalText))
  }

  ghost predicate Traced(turn: Turn) {
    && ReceiptsOnce(turn)
    && (!turn.accepted ==> turn.finalized && turn.events == [])
    && (!turn.finalized ==> NoEnding(turn.events) && Streaming(turn))
    && (turn.accepted && turn.finalized ==> OneEnding(turn.events))
    && (turn.finalText.Some? ==> TextOf(turn.events) == CompletedText(turn.fed, turn.finalText.value))
  }

  // ---------------------------------------------------------------- one turn at a time

  lemma EmitKeepsReceipts(turn: Turn, e: Event)
    requires ReceiptsOnce(turn) && !e.CitationFound? && !e.DraftCreated?
    ensures ReceiptsOnce(Emit(turn, e))
  {
    assert multiset(turn.events + [e]) == multiset(turn.events) + multiset{e};
  }

  lemma {:induction false} DrainAllOneMore(deltas: seq<GoString>, buffer: GoString, inside: bool, delta: GoString)
    ensures var a := DrainAll(deltas, buffer, inside);
            DrainAll(deltas + [delta], buffer, inside) == Prepend(a.output, Drain(a.buffer + delta, a.inside))
    decreases |deltas|
  {
    hide Drain;
    if deltas == [] {
      assert ([] + [delta])[1..] == [];
      var d := Drain(buffer + delta, inside);
      assert DrainAll([], d.buffer, d.inside) == Drained("", d.buffer, d.inside);
      assert d.output + "" == d.output;
      assert "" + d.output == d.output;
    } else {
      assert (deltas + [delta])[1..] == deltas[1..] + [delta];
      var d := Drain(buffer + deltas[0], inside);
      DrainAllOneMore(deltas[1..], d.buffer, d.inside, delta);
      var a := DrainAll(deltas[1..], d.buffer, d.inside);
      PrependTwice(d.output, a.output, Drain(a.buffer + delta, a.inside));
    }
  }

  lemma ShowTextShows(turn: Turn, text: GoString)
    ensures TextOf(ShowText(turn, text).events) == TextOf(turn.events) + text
    ensures ReceiptsOnce(turn) ==> ReceiptsOnce(ShowText(turn, text))
    ensures NoEnding(turn.events) ==> NoEnding(ShowText(turn, text).events)
  {
    if text != "" {
      var e := MessageDelta(text);
      TextOfOneMore(turn.events, e);
      assert multiset(turn.events + [e]) == multiset(turn.events) + multiset{e};
    } else {
      assert TextOf(turn.events) + "" == TextOf(turn.events);
    }
  }

  /** Feeding a streaming turn: shown and held text stay those of feeding all its deltas. */
  lemma FeedKeepsStreaming(turn: Turn, text: GoString)
    requires Streaming(turn)
    ensures var d := Drain(turn.buffer + text, turn.inside);
            Streaming(ShowText(Absorb(turn, d, text), d.output))
  {
    hide Drain, DrainAll, TextOf;
    DrainAllOneMore(turn.fed, "", false, text);
    var d := Drain(turn.buffer + text, turn.inside);
    ShowTextShows(Absorb(turn, d, text), d.output);
  }

  /** A completed message has shown the filtered text of all its deltas, or else its stripped final
      text. */
  lemma CompletionShowsTheText(turn: Turn, finalText: GoString)
    requires Streaming(turn)
    ensures var flushed := ShowText(turn.(buffer := ""), if turn.inside then "" else turn.buffer);
            var stripped := TrimSpace(Strip(finalText));
            var shown := if stripped != "" && !flushed.hadDelta then Emit(flushed, MessageDelta(stripped)) else flushed;
            TextOf(shown.events) == CompletedText(turn.fed, finalText)
  {
    hide Drain, DrainAll, TextOf, Strip, TrimSpace, FilterText;
    ChunksDoNotMatter(turn.fed, turn.fed);
    var tail := if turn.inside then "" else turn.buffer;
    ShowTextShows(turn.(buffer := ""), tail);
    var flushed := ShowText(turn.(buffer := ""), tail);
    var stripped := TrimSpace(Strip(finalText));
    TextOfOneMore(flushed.events, MessageDelta(stripped));
    assert TextOf(flushed.events) == FilterText(Concat(turn.fed), false).text;
    assert "" + stripped == stripped;
  }
}
