/** Every run of the assistant runtime keeps the turn invariants. */
module TurnRuns {
  import opened GoStrings
  import opened Options
  import opened StreamFilter
  import opened StripMarkers
  import opened ChunkInvariance
  import opened TurnState
  import opened TurnOps
  import opened TurnInvariants

  /** The events published for turn `t`, in order. */
  function EventsOf(published: seq<Published>, t: nat): seq<Event> {
    if published == [] then []
    else
      var last := published[|published| - 1];
      EventsOf(published[..|published| - 1], t) + if last.turn == t then [last.event] else []
  }

  /** A turn's event history is what was published for it. */
  ghost predicate Projected(s: State) {
    && (forall t :: 0 <= t < |s.turns| ==> EventsOf(s.published, t) == s.turns[t].events)
    && (forall t :: t >= |s.turns| ==> EventsOf(s.published, t) == [])
  }

  ghost predicate Invariant(s: State) {
    Structured(s) && Projected(s) && forall t :: 0 <= t < |s.turns| ==> Traced(s.turns[t])
  }

  /** The invariant in the middle of an operation on turn `t`. */
  ghost predicate Amid(s: State, t: nat) {
    && t < |s.turns| && Structured(s) && Projected(s)
    && forall u :: 0 <= u < |s.turns| && u != t ==> Traced(s.turns[u])
  }

  /** A turn about to end. */
  ghost predicate MayEnd(turn: Turn) {
    && !turn.finalized && turn.accepted && ReceiptsOnce(turn) && NoEnding(turn.events)
    && (turn.finalText.Some? ==> TextOf(turn.events) == CompletedText(turn.fed, turn.finalText.value))
  }

  // ---------------------------------------------------------------- steps inside an operation

  lemma PublishProjects(s: State, t: nat, e: Event)
    requires t < |s.turns| && Projected(s)
    ensures Projected(Publish(s, t, e))
  {
    hide EventsOf;
    forall u: nat
      ensures EventsOf(Publish(s, t, e).published, u) == EventsOf(s.published, u) + if u == t then [e] else []
    {
      OneMoreEvent(s.published, t, e, u);
    }
    forall u | u >= |s.turns|
      ensures EventsOf(Publish(s, t, e).published, u) == []
    {
      assert EventsOf(s.published, u) == [];
    }
  }

  lemma OneMoreEvent(published: seq<Published>, t: nat, e: Event, u: nat)
    ensures EventsOf(published + [Published(t, e)], u) == EventsOf(published, u) + if u == t then [e] else []
  {
    assert (published + [Published(t, e)])[..|published|] == published;
  }

  lemma WorkKeepsAmid(s: State, s': State, t: nat)
    requires Amid(s, t) && WorksOn(s, s', t) && Projected(s')
    ensures Amid(s', t)
  {
    hide Structured, Projected, Traced;
    WorkKeepsStructure(s, s', t);
  }

  lemma PublishTextKeepsAmid(s: State, t: nat, text: GoString)
    requires Amid(s, t)
    ensures Amid(PublishText(s, t, text), t)
  {
    hide Structured, Traced;
    if text != "" {
      PublishProjects(s.(turns := s.turns[t := s.turns[t].(hadDelta := true)]), t, MessageDelta(text));
    }
    WorkKeepsAmid(s, PublishText(s, t, text), t);
  }

  lemma PublishKeepsAmid(s: State, t: nat, e: Event)
    requires Amid(s, t)
    ensures Amid(Publish(s, t, e), t)
  {
    hide Structured, Traced, Projected, Publish;
    PublishProjects(s, t, e);
    WorkKeepsAmid(s, Publish(s, t, e), t);
  }

  lemma EndKeepsInvariant(s: State, t: nat, e: Event, state: ConversationState)
    requires Amid(s, t) && MayEnd(s.turns[t]) && IsEnding(e) && state in {Idle, Stopped, Failed}
    ensures Invariant(End(s, t, e, state))
  {
    hide Structured, Projected, TextOf, DrainAll, FilterText, CompletedText;
    PublishKeepsAmid(s, t, e);
    var p := Publish(s, t, e);
    FinishKeepsStructure(p, t, state);
    FinishKeepsProjection(p, t, state);
    var turn := s.turns[t];
    EmitKeepsReceipts(turn, e);
    TextOfOneMore(turn.events, e);
    assert TextOf(turn.events) + "" == TextOf(turn.events);
    assert (turn.events + [e])[..|turn.events|] == turn.events;
    assert Finish(p, t, state).turns[t] == Emit(turn, e).(finalized := true);
  }

  lemma FinishKeepsProjection(s: State, t: nat, state: ConversationState)
    requires t < |s.turns| && Projected(s)
    ensures Projected(Finish(s, t, state))
  {
    hide EventsOf;
  }

  lemma ActiveTurnMayEnd(s: State, t: nat)
    requires Invariant(s) && t < |s.turns| && !s.turns[t].finalized
    ensures Amid(s, t) && MayEnd(s.turns[t]) && Streaming(s.turns[t])
  {
    assert Traced(s.turns[t]);
  }

  lemma AmidCloses(s: State, t: nat)
    requires Amid(s, t) && Traced(s.turns[t])
    ensures Invariant(s)
  {
  }

  /** An event that is no text, receipt or ending leaves an active turn as it was. */
  lemma EmitKeepsTraced(turn: Turn, e: Event)
    requires Traced(turn) && !turn.finalized
    requires e.Activity? || e.ClarificationAsked?
    ensures Traced(Emit(turn, e))
  {
    hide DrainAll, CompletedText, TextOf;
    EmitKeepsReceipts(turn, e);
    TextOfOneMore(turn.events, e);
    assert TextOf(turn.events) + "" == TextOf(turn.events);
  }

  lemma NoteKeepsInvariant(s: State, t: nat, e: Event)
    requires Invariant(s) && t < |s.turns| && !s.turns[t].finalized && (e.Activity? || e.ClarificationAsked?)
    ensures Invariant(Publish(s, t, e))
  {
    hide Structured, Projected, Traced;
    EmitKeepsTraced(s.turns[t], e);
    PublishKeepsAmid(s, t, e);
    AmidCloses(Publish(s, t, e), t);
  }

  // ---------------------------------------------------------------- submit, stop, respond

  lemma BeginStartsATurn(s: State, conversation: string, mode: Mode)
    requires Invariant(s) && conversation !in s.byConversation
    ensures Amid(Begin(s, conversation, mode), |s.turns|)
  {
    hide Traced, Structured, EventsOf;
    BeginKeepsStructure(s, conversation, mode);
  }

  lemma IndexKeepsAmid(s: State, t: nat, runtimeID: string, storedID: string)
    requires Amid(s, t) && !s.turns[t].finalized && Unindexed(s, t)
    ensures Amid(IndexSession(s, t, runtimeID, storedID), t)
  {
    hide Traced, Structured, EventsOf, Unindexed;
    IndexKeepsStructure(s, t, runtimeID, storedID);
  }

  lemma AcceptKeepsAmid(s: State, t: nat)
    requires Amid(s, t)
    ensures Amid(Accept(s, t), t)
  {
    hide Traced, EventsOf, Structured;
    AcceptKeepsStructure(s, t);
  }

  lemma AcceptKeepsStructure(s: State, t: nat)
    requires Structured(s) && t < |s.turns|
    ensures Structured(Accept(s, t))
  {
    hide Indexed, OneTurnEach, Stated;
    AcceptKeepsIndexes(s, t);
    AcceptKeepsRest(s, t);
  }

  lemma AcceptKeepsIndexes(s: State, t: nat)
    requires Indexed(s) && t < |s.turns|
    ensures Indexed(Accept(s, t))
  {
  }

  lemma AcceptKeepsRest(s: State, t: nat)
    requires OneTurnEach(s) && Stated(s) && t < |s.turns|
    ensures OneTurnEach(Accept(s, t)) && Stated(Accept(s, t))
  {
  }

  lemma UnacceptedTurnFails(s: State, t: nat)
    requires Amid(s, t) && ReceiptsOnce(s.turns[t])
    requires var turn := s.turns[t]; !turn.finalized && !turn.accepted && turn.events == [] && turn.finalText == None
    ensures Invariant(Finish(s, t, Failed))
  {
    hide Structured, Projected, EventsOf;
    FinishKeepsStructure(s, t, Failed);
    FinishKeepsProjection(s, t, Failed);
  }

  lemma SubmitKeepsInvariant(s: State, conversation: string, mode: Mode, content: GoString, outcome: SubmitOutcome)
    requires Invariant(s)
    ensures Invariant(Submit(s, conversation, mode, content, outcome))
  {
    hide Structured, Projected, Traced, IsCommand, Amid, Unindexed;
    if !IsCommand(content) && conversation !in s.byConversation {
      var t, begun := |s.turns|, Begin(s, conversation, mode);
      BeginStartsATurn(s, conversation, mode);
      BeginLeavesUnindexed(s, conversation, mode);
      match outcome
      case NoSession => UnacceptedTurnFails(begun, t);
      case FailedWith(r, st) =>
        IndexKeepsAmid(begun, t, r, st);
        UnacceptedTurnFails(IndexSession(begun, t, r, st), t);
      case AcceptedWith(r, st) =>
        IndexKeepsAmid(begun, t, r, st);
        var accepted := Accept(IndexSession(begun, t, r, st), t);
        AcceptKeepsAmid(IndexSession(begun, t, r, st), t);
        PublishKeepsAmid(accepted, t, Activity);
        AmidCloses(Publish(accepted, t, Activity), t);
    }
  }

  lemma BeginLeavesUnindexed(s: State, conversation: string, mode: Mode)
    requires Invariant(s) && conversation !in s.byConversation
    ensures Unindexed(Begin(s, conversation, mode), |s.turns|)
  {
    BeginKeepsStructure(s, conversation, mode);
  }

  lemma StopKeepsInvariant(s: State, conversation: string, interrupted: bool)
    requires Invariant(s)
    ensures Invariant(Stop(s, conversation, interrupted))
  {
    hide Indexed, Stated, Projected, Traced, End, MayEnd, Amid;
    if conversation in s.byConversation {
      var t := s.byConversation[conversation];
      ActiveTurnMayEnd(s, t);
      EndKeepsInvariant(s, t, StoppedEvent, Stopped);
    }
  }

  lemma RespondKeepsInvariant(s: State, conversation: string, requestID: string, delivered: bool)
    requires Invariant(s)
    ensures Invariant(Respond(s, conversation, requestID, delivered))
  {
    hide Indexed, Stated, Traced, EventsOf;
    if conversation in s.byConversation {
      AnswerKeepsStructure(s, conversation);
      NoteKeepsInvariant(Answer(s, conversation), s.byConversation[conversation], Activity);
    }
  }

  // ---------------------------------------------------------------- gateway events

  lemma FeedKeepsInvariant(s: State, t: nat, text: GoString)
    requires Invariant(s) && t < |s.turns| && !s.turns[t].finalized
    ensures Invariant(FeedText(s, t, text))
  {
    hide Structured, EventsOf, Drain, TextOf, DrainAll, CompletedText;
    var turn := s.turns[t];
    var d := Drain(turn.buffer + text, turn.inside);
    var absorbed := s.(turns := s.turns[t := Absorb(turn, d, text)]);
    ActiveTurnMayEnd(s, t);
    WorkKeepsAmid(s, absorbed, t);
    PublishTextKeepsAmid(absorbed, t, d.output);
    FeedKeepsStreaming(turn, text);
    ShowTextShows(Absorb(turn, d, text), d.output);
    AmidCloses(FeedText(s, t, text), t);
  }

  lemma FlushKeepsAmid(s: State, t: nat)
    requires Amid(s, t)
    ensures Amid(FlushFilter(s, t), t)
  {
    hide Structured, EventsOf, Traced;
    var flushed := s.(turns := s.turns[t := s.turns[t].(buffer := "")]);
    WorkKeepsAmid(s, flushed, t);
    PublishTextKeepsAmid(flushed, t, if s.turns[t].inside then "" else s.turns[t].buffer);
  }

  lemma ShowFinalKeepsAmid(s: State, t: nat, text: GoString, stripped: GoString)
    requires Amid(s, t)
    ensures Amid(ShowFinalText(s, t, text, stripped), t)
  {
    hide Structured, EventsOf, Traced;
    var noted := s.(turns := s.turns[t := s.turns[t].(finalText := Some(text))]);
    WorkKeepsAmid(s, noted, t);
    PublishKeepsAmid(noted, t, MessageDelta(stripped));
  }

  lemma ShownTurnMayEnd(turn: Turn, text: GoString)
    requires MayEnd(turn) && Streaming(turn)
    ensures var flushed := ShowText(turn.(buffer := ""), if turn.inside then "" else turn.buffer);
            var stripped := TrimSpace(Strip(text));
            var noted := flushed.(finalText := Some(text));
            MayEnd(if stripped != "" && !flushed.hadDelta then Emit(noted, MessageDelta(stripped)) else noted)
  {
    hide Streaming, TextOf, CompletedText, Strip, TrimSpace, ReceiptsOnce, NoEnding, ShowText;
    CompletionShowsTheText(turn, text);
    var tail := if turn.inside then "" else turn.buffer;
    ShowTextShows(turn.(buffer := ""), tail);
    ShowTextKeepsRest(turn.(buffer := ""), tail);
    NotesKeepReceipts(turn, turn.(buffer := ""));
    var flushed := ShowText(turn.(buffer := ""), tail);
    NotesKeepReceipts(flushed, flushed.(finalText := Some(text)));
    var stripped := MessageDelta(TrimSpace(Strip(text)));
    EmitKeepsReceipts(flushed.(finalText := Some(text)), stripped);
    EmitKeepsNoEnding(flushed.(finalText := Some(text)), stripped);
  }

  lemma ShowTextKeepsRest(turn: Turn, text: GoString)
    ensures var shown := ShowText(turn, text);
            shown.finalized == turn.finalized && shown.accepted == turn.accepted && shown.fed == turn.fed
  {
  }

  lemma NotesKeepReceipts(turn: Turn, noted: Turn)
    requires noted.events == turn.events && noted.citations == turn.citations && noted.drafts == turn.drafts
    ensures ReceiptsOnce(turn) == ReceiptsOnce(noted)
  {
  }

  lemma EmitKeepsNoEnding(turn: Turn, e: Event)
    requires NoEnding(turn.events) && !IsEnding(e)
    ensures NoEnding(Emit(turn, e).events)
  {
  }

  lemma CompletedTurnMayEnd(s: State, t: nat, text: GoString)
    requires Invariant(s) && t < |s.turns| && !s.turns[t].finalized
    ensures var shown := ShowFinalText(FlushFilter(s, t), t, text, TrimSpace(Strip(text)));
            Amid(shown, t) && MayEnd(shown.turns[t])
  {
    hide Structured, Projected, TextOf, DrainAll, CompletedText, Strip, TrimSpace, MayEnd, Traced, Streaming, ShowText;
    ActiveTurnMayEnd(s, t);
    FlushKeepsAmid(s, t);
    ShowFinalKeepsAmid(FlushFilter(s, t), t, text, TrimSpace(Strip(text)));
    ShownTurnMayEnd(s.turns[t], text);
  }

  lemma CompleteKeepsInvariant(s: State, t: nat, text: GoString, status: string)
    requires Invariant(s) && t < |s.turns| && !s.turns[t].finalized
    ensures Invariant(HandleComplete(s, t, text, status))
  {
    hide Structured, Projected, Traced, MayEnd, Strip, TrimSpace, ShowFinalText, End;
    CompletedTurnMayEnd(s, t, text);
    var shown := ShowFinalText(FlushFilter(s, t), t, text, TrimSpace(Strip(text)));
    EndKeepsInvariant(shown, t, StoppedEvent, Stopped);
    EndKeepsInvariant(shown, t, ErrorEvent, Failed);
    EndKeepsInvariant(shown, t, CompletedEvent, Idle);
  }

  lemma FailKeepsInvariant(s: State, t: nat)
    requires Invariant(s) && t < |s.turns| && !s.turns[t].finalized
    ensures Invariant(End(s, t, ErrorEvent, Failed))
  {
    hide Structured, Projected, Traced, MayEnd, End;
    ActiveTurnMayEnd(s, t);
    EndKeepsInvariant(s, t, ErrorEvent, Failed);
  }

  /** A receipt event for a revision not noted before. */
  lemma CitationKeepsTraced(turn: Turn, r: string)
    requires Traced(turn) && !turn.finalized && r !in turn.citations
    ensures Traced(Emit(turn.(citations := turn.citations + {r}), CitationFound(r)))
  {
    hide DrainAll, CompletedText, TextOf;
    TextOfOneMore(turn.events, CitationFound(r));
    assert TextOf(turn.events) + "" == TextOf(turn.events);
    assert multiset(turn.events + [CitationFound(r)]) == multiset(turn.events) + multiset{CitationFound(r)};
  }

  lemma DraftKeepsTraced(turn: Turn, r: string)
    requires Traced(turn) && !turn.finalized && r !in turn.drafts
    ensures Traced(Emit(turn.(drafts := turn.drafts + {r}), DraftCreated(r)))
  {
    hide DrainAll, CompletedText, TextOf;
    TextOfOneMore(turn.events, DraftCreated(r));
    assert TextOf(turn.events) + "" == TextOf(turn.events);
    assert multiset(turn.events + [DraftCreated(r)]) == multiset(turn.events) + multiset{DraftCreated(r)};
  }

  lemma CitationKeepsInvariant(s: State, t: nat, r: string)
    requires Invariant(s) && t < |s.turns| && !s.turns[t].finalized && r !in s.turns[t].citations
    ensures var noted := s.(turns := s.turns[t := s.turns[t].(citations := s.turns[t].citations + {r})]);
            Invariant(Publish(noted, t, CitationFound(r)))
  {
    hide Structured, EventsOf, Traced;
    var noted := s.(turns := s.turns[t := s.turns[t].(citations := s.turns[t].citations + {r})]);
    WorkKeepsAmid(s, noted, t);
    PublishKeepsAmid(noted, t, CitationFound(r));
    CitationKeepsTraced(s.turns[t], r);
    AmidCloses(Publish(noted, t, CitationFound(r)), t);
  }

  lemma DraftKeepsInvariant(s: State, t: nat, r: string)
    requires Invariant(s) && t < |s.turns| && !s.turns[t].finalized && r !in s.turns[t].drafts
    ensures var noted := s.(turns := s.turns[t := s.turns[t].(drafts := s.turns[t].drafts + {r})]);
            Invariant(Publish(noted, t, DraftCreated(r)))
  {
    hide Structured, EventsOf, Traced;
    var noted := s.(turns := s.turns[t := s.turns[t].(drafts := s.turns[t].drafts + {r})]);
    WorkKeepsAmid(s, noted, t);
    PublishKeepsAmid(noted, t, DraftCreated(r));
    DraftKeepsTraced(s.turns[t], r);
    AmidCloses(Publish(noted, t, DraftCreated(r)), t);
  }

  lemma {:induction false} CitationsKeepInvariant(s: State, t: nat, revisions: seq<string>)
    requires Invariant(s) && t < |s.turns| && !s.turns[t].finalized
    ensures Invariant(PublishCitations(s, t, revisions))
    decreases |revisions|
  {
    hide Invariant, Publish;
    if revisions != [] {
      if revisions[0] in s.turns[t].citations {
        CitationsKeepInvariant(s, t, revisions[1..]);
      } else {
        CitationKeepsInvariant(s, t, revisions[0]);
        var noted := s.(turns := s.turns[t := s.turns[t].(citations := s.turns[t].citations + {revisions[0]})]);
        CitationsKeepInvariant(Publish(noted, t, CitationFound(revisions[0])), t, revisions[1..]);
      }
    }
  }

  lemma {:induction false} DraftsKeepInvariant(s: State, t: nat, revisions: seq<string>)
    requires Invariant(s) && t < |s.turns| && !s.turns[t].finalized
    ensures Invariant(PublishDrafts(s, t, revisions))
    decreases |revisions|
  {
    hide Invariant, Publish;
    if revisions != [] {
      if revisions[0] in s.turns[t].drafts {
        DraftsKeepInvariant(s, t, revisions[1..]);
      } else {
        DraftKeepsInvariant(s, t, revisions[0]);
        var noted := s.(turns := s.turns[t := s.turns[t].(drafts := s.turns[t].drafts + {revisions[0]})]);
        DraftsKeepInvariant(Publish(noted, t, DraftCreated(revisions[0])), t, revisions[1..]);
      }
    }
  }

  lemma ToolKeepsInvariant(s: State, t: nat, e: GatewayEvent)
    requires Invariant(s) && t < |s.turns| && !s.turns[t].finalized && e.ToolEvent?
    ensures Invariant(HandleTool(s, t, e))
  {
    hide Invariant, Publish, End, ToolAllowed;
    FailKeepsInvariant(s, t);
    NoteKeepsInvariant(s, t, Activity);
    CitationsKeepInvariant(Publish(s, t, Activity), t, e.citations);
    DraftsKeepInvariant(Publish(s, t, Activity), t, e.drafts);
  }

  lemma AskKeepsInvariant(s: State, t: nat, requestID: string)
    requires Invariant(s) && t < |s.turns| && !s.turns[t].finalized
    ensures Invariant(Publish(Ask(s, t, requestID), t, ClarificationAsked(requestID)))
  {
    hide Structured, Traced, EventsOf;
    AskKeepsStructure(s, t, requestID);
    NoteKeepsInvariant(Ask(s, t, requestID), t, ClarificationAsked(requestID));
  }

  lemma RotateKeepsInvariant(s: State, t: nat, storedID: string)
    requires Invariant(s) && t < |s.turns|
    ensures Invariant(Rotate(s, t, storedID))
  {
    hide Structured, EventsOf, TextOf, DrainAll, CompletedText;
    RotateKeepsStructure(s, t, storedID);
    assert Traced(s.turns[t]);
  }

  lemma ActiveEventKeepsInvariant(s: State, t: nat, e: GatewayEvent)
    requires Invariant(s) && t < |s.turns| && !s.turns[t].finalized
    ensures Invariant(HandleActive(s, t, e))
  {
    hide Invariant, Publish, End, Rotate, FeedText, HandleComplete, HandleTool;
    match e
    case TextEvent(_, _, _, text) => FeedKeepsInvariant(s, t, text);
    case MessageComplete(text, status) => CompleteKeepsInvariant(s, t, text, status);
    case ToolEvent(_, _, _, _, _, _) => ToolKeepsInvariant(s, t, e);
    case ClarifyRequest(_, q, _) => AskKeepsInvariant(s, t, q); FailKeepsInvariant(s, t);
    case SessionInfo(_, storedID, _) => RotateKeepsInvariant(s, t, storedID);
    case GatewayFailure => FailKeepsInvariant(s, t);
    case OtherRequest => FailKeepsInvariant(s, t);
    case Unknown =>
  }

  lemma GatewayEventKeepsInvariant(s: State, mode: Mode, sessionID: string, e: GatewayEvent)
    requires Invariant(s)
    ensures Invariant(HandleGatewayEvent(s, mode, sessionID, e))
  {
    hide OneTurnEach, Stated, Projected, Traced, HandleActive, Rotate;
    var key := (mode, sessionID);
    if key in s.byRuntime {
      ActiveEventKeepsInvariant(s, s.byRuntime[key], e);
    } else if key in s.recent && e.SessionInfo? {
      RotateKeepsInvariant(s, s.recent[key], e.storedID);
    }
  }

  // ---------------------------------------------------------------- reconnect

  lemma RebindKeepsInvariant(s: State, t: nat, runtimeID: string)
    requires Invariant(s) && t < |s.turns| && !s.turns[t].finalized
    ensures Invariant(Rebind(s, t, runtimeID))
  {
    hide Structured, EventsOf, TextOf, DrainAll, CompletedText;
    RebindKeepsStructure(s, t, runtimeID);
    assert Traced(s.turns[t]);
  }

  lemma ReconcileTurnKeepsInvariant(s: State, t: nat, outcome: ResumeOutcome)
    requires Invariant(s) && t < |s.turns| && !s.turns[t].finalized
    ensures Invariant(ReconcileTurn(s, t, outcome))
  {
    hide Invariant, End, Rotate, Rebind;
    FailKeepsInvariant(s, t);
    if outcome.Resumed? {
      RebindKeepsInvariant(s, t, outcome.runtimeID);
      var bound := Rebind(s, t, outcome.runtimeID);
      RotateKeepsInvariant(bound, t, outcome.storedID);
      var rotated := if outcome.storedID != "" && outcome.storedID != bound.turns[t].storedID && outcome.saved
                     then Rotate(bound, t, outcome.storedID) else bound;
      FailKeepsInvariant(rotated, t);
      CompleteActiveKeepsInvariant(rotated, t);
    }
  }

  lemma CompleteActiveKeepsInvariant(s: State, t: nat)
    requires Invariant(s) && t < |s.turns| && !s.turns[t].finalized
    ensures Invariant(End(s, t, CompletedEvent, Idle))
  {
    hide Structured, Projected, Traced, MayEnd, End;
    ActiveTurnMayEnd(s, t);
    EndKeepsInvariant(s, t, CompletedEvent, Idle);
  }

  predicate OthersSame(s: State, s': State, t: nat) {
    |s'.turns| == |s.turns| && forall u :: 0 <= u < |s.turns| && u != t ==> s'.turns[u] == s.turns[u]
  }

  lemma EndLeavesOthers(s: State, t: nat, e: Event, state: ConversationState)
    requires t < |s.turns|
    ensures OthersSame(s, End(s, t, e, state), t)
  {
  }

  lemma ReconcileTurnLeavesOthers(s: State, t: nat, outcome: ResumeOutcome)
    requires t < |s.turns|
    ensures OthersSame(s, ReconcileTurn(s, t, outcome), t)
  {
    hide End;
    EndLeavesOthers(s, t, ErrorEvent, Failed);
    if outcome.Resumed? {
      var bound := Rebind(s, t, outcome.runtimeID);
      var rotated := if outcome.storedID != "" && outcome.storedID != bound.turns[t].storedID && outcome.saved
                     then Rotate(bound, t, outcome.storedID) else bound;
      EndLeavesOthers(rotated, t, ErrorEvent, Failed);
      EndLeavesOthers(rotated, t, CompletedEvent, Idle);
    }
  }

  lemma {:induction false} ReconcileKeepsInvariant(s: State, mode: Mode, rs: seq<Resumption>)
    requires Invariant(s) && ActiveOnce(s, mode, rs)
    ensures Invariant(ReconcileTurns(s, rs))
    decreases |rs|
  {
    hide Invariant, ReconcileTurn;
    if rs != [] {
      ReconcileTurnKeepsInvariant(s, rs[0].turn, rs[0].outcome);
      ReconcileTurnLeavesOthers(s, rs[0].turn, rs[0].outcome);
      ReconcileKeepsInvariant(ReconcileTurn(s, rs[0].turn, rs[0].outcome), mode, rs[1..]);
    }
  }

  // ---------------------------------------------------------------- runs

  lemma StepKeepsInvariant(s: State, op: Operation)
    requires Invariant(s)
    ensures Invariant(Step(s, op))
  {
    hide Submit, Stop, Respond, HandleGatewayEvent, ReconcileTurns, ActiveOnce, EventsOf, Traced;
    match op
    case SubmitOp(c, m, content, outcome) => SubmitKeepsInvariant(s, c, m, content, outcome);
    case StopOp(c, ok) => StopKeepsInvariant(s, c, ok);
    case RespondOp(c, q, ok) => RespondKeepsInvariant(s, c, q, ok);
    case GatewayOp(m, id, e) => GatewayEventKeepsInvariant(s, m, id, e);
    case ReconcileOp(m, rs) => if ActiveOnce(s, m, rs) { ReconcileKeepsInvariant(s, m, rs); }
    case ForgetOp(k) =>
  }

  lemma {:induction false} RunKeepsInvariant(s: State, ops: seq<Operation>)
    requires Invariant(s)
    ensures Invariant(Run(s, ops))
    decreases |ops|
  {
    hide Invariant, Step;
    if ops != [] {
      StepKeepsInvariant(s, ops[0]);
      RunKeepsInvariant(Step(s, ops[0]), ops[1..]);
    }
  }

  lemma InitialInvariant()
    ensures Invariant(INITIAL)
  {
  }

  /** Turn safety over all runs from the empty runtime. */
  lemma TurnSafety(ops: seq<Operation>)
    ensures var s := Run(INITIAL, ops); OneTurnEach(s) && Indexed(s) && Stated(s)
  {
    hide OneTurnEach, Indexed, Stated, Projected, Traced, Run;
    InitialInvariant();
    RunKeepsInvariant(INITIAL, ops);
  }

  /** One ending, one text: what any run has published for a turn. */
  lemma OneEndingOneText(ops: seq<Operation>, t: nat)
    requires t < |Run(INITIAL, ops).turns|
    ensures var s := Run(INITIAL, ops); var turn, events := s.turns[t], EventsOf(s.published, t);
            && (turn.accepted && turn.finalized ==> OneEnding(events))
            && (turn.accepted && !turn.finalized ==> NoEnding(events))
            && (!turn.accepted ==> events == [])
            && (turn.finalText.Some? ==> TextOf(events) == CompletedText(turn.fed, turn.finalText.value))
            && (forall r :: multiset(events)[CitationFound(r)] <= 1 && multiset(events)[DraftCreated(r)] <= 1)
  {
    hide Structured, Run, TextOf, CompletedText, OneEnding, NoEnding, EventsOf;
    InitialInvariant();
    RunKeepsInvariant(INITIAL, ops);
    assert Traced(Run(INITIAL, ops).turns[t]);
  }

  // ---------------------------------------------------------------- finished turns stay finished

  /** A finished turn keeps everything but the stored session ID a late rotation may give it. */
  predicate StaysFinished(s: State, s': State, t: nat)
    requires t < |s.turns|
  {
    |s'.turns| >= |s.turns| && s'.turns[t] == s.turns[t].(storedID := s'.turns[t].storedID)
  }

  lemma FinishedStaysFinished(s: State, op: Operation, t: nat)
    requires Invariant(s) && t < |s.turns| && s.turns[t].finalized
    ensures StaysFinished(s, Step(s, op), t)
  {
    hide Projected, Traced, Structured, ActiveOnce, Submit, Stop, Respond, HandleGatewayEvent, ReconcileTurns;
    match op
    case SubmitOp(c, m, content, outcome) => SubmitLeavesOldTurns(s, c, m, content, outcome);
    case StopOp(c, ok) => StopLeavesFinished(s, c, ok, t);
    case RespondOp(c, q, ok) => RespondLeavesFinished(s, c, q, ok, t);
    case GatewayOp(m, id, e) => GatewayLeavesFinished(s, m, id, e, t);
    case ReconcileOp(m, rs) => if ActiveOnce(s, m, rs) { ReconcileLeavesFinished(s, m, rs, t); }
    case ForgetOp(k) =>
  }

  lemma StopLeavesFinished(s: State, conversation: string, interrupted: bool, t: nat)
    requires Structured(s) && t < |s.turns| && s.turns[t].finalized
    ensures StaysFinished(s, Stop(s, conversation, interrupted), t)
  {
    hide Stated, Indexed, End;
    if conversation in s.byConversation && s.byConversation[conversation] < |s.turns| {
      EndLeavesOthers(s, s.byConversation[conversation], StoppedEvent, Stopped);
    }
  }

  lemma RespondLeavesFinished(s: State, conversation: string, requestID: string, delivered: bool, t: nat)
    requires Structured(s) && t < |s.turns| && s.turns[t].finalized
    ensures StaysFinished(s, Respond(s, conversation, requestID, delivered), t)
  {
    hide Stated, Indexed;
  }

  lemma GatewayLeavesFinished(s: State, mode: Mode, sessionID: string, e: GatewayEvent, t: nat)
    requires Structured(s) && t < |s.turns| && s.turns[t].finalized
    ensures StaysFinished(s, HandleGatewayEvent(s, mode, sessionID, e), t)
  {
    hide HandleActive, OneTurnEach, Stated;
    if (mode, sessionID) in s.byRuntime {
      ActiveEventLeavesOthers(s, s.byRuntime[(mode, sessionID)], e);
    }
  }

  lemma SubmitLeavesOldTurns(s: State, conversation: string, mode: Mode, content: GoString, outcome: SubmitOutcome)
    ensures var s' := Submit(s, conversation, mode, content, outcome);
            |s'.turns| >= |s.turns| && s'.turns[..|s.turns|] == s.turns
  {
    hide IsCommand;
  }

  lemma {:induction false} ReceiptsLeaveOthers(s: State, t: nat, revisions: seq<string>)
    requires t < |s.turns|
    ensures OthersSame(s, PublishCitations(s, t, revisions), t) && OthersSame(s, PublishDrafts(s, t, revisions), t)
  {
    hide PublishCitations, PublishDrafts;
  }

  lemma ActiveEventLeavesOthers(s: State, t: nat, e: GatewayEvent)
    requires t < |s.turns|
    ensures OthersSame(s, HandleActive(s, t, e), t)
  {
    hide FeedText, End, ShowFinalText, FlushFilter, PublishDrafts, PublishCitations, Strip, TrimSpace, Publish;
    EndLeavesOthers(s, t, ErrorEvent, Failed);
    if e.MessageComplete? {
      var shown := ShowFinalText(FlushFilter(s, t), t, e.text, TrimSpace(Strip(e.text)));
      EndLeavesOthers(shown, t, StoppedEvent, Stopped);
      EndLeavesOthers(shown, t, ErrorEvent, Failed);
      EndLeavesOthers(shown, t, CompletedEvent, Idle);
    } else if e.ToolEvent? {
      ReceiptsLeaveOthers(Publish(s, t, Activity), t, e.drafts);
      ReceiptsLeaveOthers(Publish(s, t, Activity), t, e.citations);
    }
  }

  lemma {:induction false} ReconcileLeavesFinished(s: State, mode: Mode, rs: seq<Resumption>, t: nat)
    requires ActiveOnce(s, mode, rs) && t < |s.turns| && s.turns[t].finalized
    ensures StaysFinished(s, ReconcileTurns(s, rs), t)
    decreases |rs|
  {
    hide ReconcileTurn;
    if rs != [] {
      ReconcileTurnLeavesOthers(s, rs[0].turn, rs[0].outcome);
      ReconcileLeavesFinished(ReconcileTurn(s, rs[0].turn, rs[0].outcome), mode, rs[1..], t);
    }
  }

  /** An accepted turn that has ended publishes nothing more, whatever happens later. */
  lemma {:induction false} NothingAfterTheEnding(s: State, ops: seq<Operation>, t: nat)
    requires Invariant(s) && t < |s.turns| && s.turns[t].finalized
    ensures |Run(s, ops).turns| >= |s.turns| && Run(s, ops).turns[t].finalized
    ensures EventsOf(Run(s, ops).published, t) == EventsOf(s.published, t)
    decreases |ops|
  {
    hide Structured, Traced, Step, EventsOf;
    if ops != [] {
      StepKeepsInvariant(s, ops[0]);
      FinishedStaysFinished(s, ops[0], t);
      NothingAfterTheEnding(Step(s, ops[0]), ops[1..], t);
    }
  }

  /** The grant for a stored session is an active turn bound to that very session. */
  lemma GrantIsActive(ops: seq<Operation>, mode: Mode, sessionID: string)
    requires (mode, sessionID) in Run(INITIAL, ops).byStored
    ensures var s := Run(INITIAL, ops); var t := s.byStored[(mode, sessionID)];
            && t < |s.turns| && !s.turns[t].finalized
            && s.turns[t].mode == mode && s.turns[t].storedID == sessionID
            && s.turns[t].conversation in s.byConversation && s.byConversation[s.turns[t].conversation] == t
  {
    hide Run, Stated;
    TurnSafety(ops);
  }
}
