/** What each operation of the assistant runtime does to the turn it is about: which ending and which
    state of the conversation it leaves, and what it publishes. */
module TurnOutcomes {
  import opened GoStrings
  import opened Options
  import opened StreamFilter
  import opened StripMarkers
  import opened TurnState
  import opened TurnOps
  import opened TurnInvariants
  import opened TurnRuns

  // ---------------------------------------------------------------- an ending

  /** Turn `t` ends with this event, after whatever else it published, and leaves its conversation in this
      state, without a turn and without a clarification; nothing else changes. */
  ghost predicate EndsWith(s: State, s': State, t: nat, e: Event, state: ConversationState)
    requires t < |s.turns|
  {
    var c, before, after := s.turns[t].conversation, EventsOf(s.published, t), EventsOf(s'.published, t);
    && |s'.turns| == |s.turns| && s'.turns[t].finalized
    && after != [] && after[|after| - 1] == e && before <= after[..|after| - 1]
    && s'.conversation == s.conversation[c := state]
    && s'.byConversation == s.byConversation - {c} && s'.clarifications == s.clarifications - {c}
    && forall u :: 0 <= u < |s.turns| && u != t ==> s'.turns[u] == s.turns[u]
  }

  /** Turn `t` stays active and publishes these events; its conversation is in this state. */
  ghost predicate GoesOn(s: State, s': State, t: nat, added: seq<Event>, state: ConversationState)
    requires t < |s.turns|
  {
    var c := s.turns[t].conversation;
    && |s'.turns| == |s.turns| && !s'.turns[t].finalized
    && EventsOf(s'.published, t) == EventsOf(s.published, t) + added
    && s'.conversation == s.conversation[c := state] && s'.byConversation == s.byConversation
    && forall u :: 0 <= u < |s.turns| && u != t ==> s'.turns[u] == s.turns[u]
  }

  lemma ActiveIn(s: State, key: SessionKey)
    requires Invariant(s) && key in s.byRuntime
    ensures IsActive(s, s.byRuntime[key]) && s.turns[s.byRuntime[key]].mode == key.0
  {
    hide Stated, Projected, Traced;
  }

  predicate IsActive(s: State, t: nat) {
    && t < |s.turns| && !s.turns[t].finalized
    && s.turns[t].conversation in s.byConversation && s.byConversation[s.turns[t].conversation] == t
  }

  lemma EndIs(s: State, p: State, t: nat, e: Event, state: ConversationState)
    requires IsActive(s, t) && WorksOn(s, p, t) && s.turns[t].events <= p.turns[t].events
    requires Projected(s) && Projected(End(p, t, e, state))
    ensures EndsWith(s, End(p, t, e, state), t, e, state)
  {
    hide Projected, EventsOf;
    var f := End(p, t, e, state);
    EventsAre(s, t);
    EventsAre(f, t);
    assert f.turns[t].events == p.turns[t].events + [e];
  }

  lemma EventsAre(s: State, t: nat)
    requires Projected(s) && t < |s.turns|
    ensures EventsOf(s.published, t) == s.turns[t].events
  {
  }

  lemma Kept(s: State, op: Operation)
    requires Invariant(s)
    ensures Projected(s) && Projected(Step(s, op))
  {
    hide Structured, Projected, Traced, Step;
    StepKeepsInvariant(s, op);
  }

  // ---------------------------------------------------------------- a completed message

  lemma CompletionEnds(s: State, mode: Mode, sessionID: string, text: GoString, status: string)
    requires Invariant(s) && (mode, sessionID) in s.byRuntime
    ensures var t, s' := s.byRuntime[(mode, sessionID)], Step(s, GatewayOp(mode, sessionID, MessageComplete(text, status)));
            && IsActive(s, t)
            && (status == "interrupted" ==> EndsWith(s, s', t, StoppedEvent, Stopped))
            && (status == "error" ==> EndsWith(s, s', t, ErrorEvent, Failed))
            && (status != "interrupted" && status != "error" ==> EndsWith(s, s', t, CompletedEvent, Idle))
  {
    hide Invariant, Projected, EndsWith, Strip, TrimSpace, FlushFilter, ShowFinalText, End;
    var t := s.byRuntime[(mode, sessionID)];
    ActiveIn(s, (mode, sessionID));
    Kept(s, GatewayOp(mode, sessionID, MessageComplete(text, status)));
    var shown := ShowFinalText(FlushFilter(s, t), t, text, TrimSpace(Strip(text)));
    ShownExtends(s, t, text, TrimSpace(Strip(text)));
    if status == "interrupted" {
      EndIs(s, shown, t, StoppedEvent, Stopped);
    } else if status == "error" {
      EndIs(s, shown, t, ErrorEvent, Failed);
    } else {
      EndIs(s, shown, t, CompletedEvent, Idle);
    }
  }

  lemma ShownExtends(s: State, t: nat, text: GoString, stripped: GoString)
    requires t < |s.turns|
    ensures var shown := ShowFinalText(FlushFilter(s, t), t, text, stripped);
            WorksOn(s, shown, t) && s.turns[t].events <= shown.turns[t].events
  {
    var flushed := FlushFilter(s, t);
    assert WorksOn(s, flushed, t) && s.turns[t].events <= flushed.turns[t].events;
    hide FlushFilter;
  }

  /** In every reachable state a completed message ends its active turn as it was reported: stopped exactly
      for the status "interrupted", failed exactly for "error", completed otherwise. */
  lemma CompletionEndsAsReported(ops: seq<Operation>, mode: Mode, sessionID: string, text: GoString, status: string)
    requires (mode, sessionID) in Run(INITIAL, ops).byRuntime
    ensures var s := Run(INITIAL, ops);
            var t, s' := s.byRuntime[(mode, sessionID)], Step(s, GatewayOp(mode, sessionID, MessageComplete(text, status)));
            && IsActive(s, t)
            && (EndsWith(s, s', t, StoppedEvent, Stopped) <==> status == "interrupted")
            && (EndsWith(s, s', t, ErrorEvent, Failed) <==> status == "error")
            && (EndsWith(s, s', t, CompletedEvent, Idle) <==> status != "interrupted" && status != "error")
  {
    hide Run, Step, Invariant, EventsOf;
    InitialInvariant();
    RunKeepsInvariant(INITIAL, ops);
    CompletionEnds(Run(INITIAL, ops), mode, sessionID, text, status);
  }

  // ---------------------------------------------------------------- the other operations that end a turn

  /** Stopping ends the conversation's turn as stopped, if the gateway interrupts it. */
  lemma StopEnds(s: State, conversation: string, interrupted: bool)
    requires Invariant(s)
    ensures var s' := Step(s, StopOp(conversation, interrupted));
            if conversation in s.byConversation && interrupted
            then IsActive(s, s.byConversation[conversation])
                 && EndsWith(s, s', s.byConversation[conversation], StoppedEvent, Stopped)
            else s' == s
  {
    hide Projected, Traced, Indexed, Stated, EndsWith, End;
    Kept(s, StopOp(conversation, interrupted));
    if conversation in s.byConversation && interrupted {
      EndIs(s, s, s.byConversation[conversation], StoppedEvent, Stopped);
    }
  }

  /** A gateway failure, and any request for a permission that is not granted, end the turn as failed. */
  lemma FailureEnds(s: State, mode: Mode, sessionID: string, e: GatewayEvent)
    requires Invariant(s) && (mode, sessionID) in s.byRuntime && (e.GatewayFailure? || e.OtherRequest?)
    ensures EndsWith(s, Step(s, GatewayOp(mode, sessionID, e)), s.byRuntime[(mode, sessionID)], ErrorEvent, Failed)
  {
    hide Invariant, Projected, EndsWith, End;
    ActiveIn(s, (mode, sessionID));
    Kept(s, GatewayOp(mode, sessionID, e));
    EndIs(s, s, s.byRuntime[(mode, sessionID)], ErrorEvent, Failed);
  }

  /** The tools each mode may use. */
  predicate MayUse(mode: Mode, name: string) {
    || name in ["search_viki", "get_viki_page", "get_viki_revision"]
    || (mode == Edit && name == "apply_viki_draft_changeset")
  }

  /** The events with which new receipts are published, in order. */
  function DraftEvents(known: set<string>, revisions: seq<string>): seq<Event>
    decreases |revisions|
  {
    if revisions == [] then []
    else if revisions[0] in known then DraftEvents(known, revisions[1..])
    else [DraftCreated(revisions[0])] + DraftEvents(known + {revisions[0]}, revisions[1..])
  }

  function CitationEvents(known: set<string>, revisions: seq<string>): seq<Event>
    decreases |revisions|
  {
    if revisions == [] then []
    else if revisions[0] in known then CitationEvents(known, revisions[1..])
    else [CitationFound(revisions[0])] + CitationEvents(known + {revisions[0]}, revisions[1..])
  }

  /** Every revision not known before is published, once, and nothing else is. */
  lemma {:induction false} DraftEventsAre(known: set<string>, revisions: seq<string>)
    ensures forall r :: DraftCreated(r) in DraftEvents(known, revisions) <==> r in revisions && r !in known
    ensures forall e :: e in DraftEvents(known, revisions) ==> e.DraftCreated?
    ensures Distinct(DraftEvents(known, revisions))
    decreases |revisions|
  {
    if revisions != [] {
      if revisions[0] in known {
        DraftEventsAre(known, revisions[1..]);
      } else {
        DraftEventsAre(known + {revisions[0]}, revisions[1..]);
      }
    }
  }

  lemma {:induction false} CitationEventsAre(known: set<string>, revisions: seq<string>)
    ensures forall r :: CitationFound(r) in CitationEvents(known, revisions) <==> r in revisions && r !in known
    ensures forall e :: e in CitationEvents(known, revisions) ==> e.CitationFound?
    ensures Distinct(CitationEvents(known, revisions))
    decreases |revisions|
  {
    if revisions != [] {
      if revisions[0] in known {
        CitationEventsAre(known, revisions[1..]);
      } else {
        CitationEventsAre(known + {revisions[0]}, revisions[1..]);
      }
    }
  }

  predicate Distinct(events: seq<Event>) {
    forall i, j :: 0 <= i < j < |events| ==> events[i] != events[j]
  }

  lemma {:induction false} DraftsPublish(s: State, t: nat, revisions: seq<string>)
    requires t < |s.turns|
    ensures PublishDrafts(s, t, revisions).turns[t].events == s.turns[t].events + DraftEvents(s.turns[t].drafts, revisions)
    decreases |revisions|
  {
    if revisions != [] {
      var r := revisions[0];
      if r in s.turns[t].drafts {
        DraftsPublish(s, t, revisions[1..]);
      } else {
        var noted := s.(turns := s.turns[t := s.turns[t].(drafts := s.turns[t].drafts + {r})]);
        DraftsPublish(Publish(noted, t, DraftCreated(r)), t, revisions[1..]);
        var rest := DraftEvents(s.turns[t].drafts + {r}, revisions[1..]);
        assert s.turns[t].events + [DraftCreated(r)] + rest == s.turns[t].events + ([DraftCreated(r)] + rest);
      }
    }
  }

  lemma {:induction false} CitationsPublish(s: State, t: nat, revisions: seq<string>)
    requires t < |s.turns|
    ensures PublishCitations(s, t, revisions).turns[t].events == s.turns[t].events + CitationEvents(s.turns[t].citations, revisions)
    decreases |revisions|
  {
    if revisions != [] {
      var r := revisions[0];
      if r in s.turns[t].citations {
        CitationsPublish(s, t, revisions[1..]);
      } else {
        var noted := s.(turns := s.turns[t := s.turns[t].(citations := s.turns[t].citations + {r})]);
        CitationsPublish(Publish(noted, t, CitationFound(r)), t, revisions[1..]);
        var rest := CitationEvents(s.turns[t].citations + {r}, revisions[1..]);
        assert s.turns[t].events + [CitationFound(r)] + rest == s.turns[t].events + ([CitationFound(r)] + rest);
      }
    }
  }

  /** What a tool event publishes while the turn goes on. */
  function ToolEvents(turn: Turn, e: GatewayEvent): seq<Event>
    requires e.ToolEvent?
  {
    [Activity]
    + if !e.kind.ToolComplete? || !e.hasResult then []
      else if e.name == "apply_viki_draft_changeset" then DraftEvents(turn.drafts, e.drafts)
      else CitationEvents(turn.citations, e.citations)
  }

  /** A tool the mode may not use ends the turn as failed; one it may use is published as activity, and
      its result as the receipts not published before. */
  lemma ToolOutcome(s: State, mode: Mode, sessionID: string, e: GatewayEvent)
    requires Invariant(s) && (mode, sessionID) in s.byRuntime && e.ToolEvent?
    ensures var t, s' := s.byRuntime[(mode, sessionID)], Step(s, GatewayOp(mode, sessionID, e));
            && IsActive(s, t)
            && if !e.decoded || e.name == "clarify" || (e.name == "" && e.kind.ToolProgress?) then s' == s
               else if !MayUse(mode, e.name) then EndsWith(s, s', t, ErrorEvent, Failed)
               else exists state :: GoesOn(s, s', t, ToolEvents(s.turns[t], e), state) && StateOf(s, t) == Some(state)
  {
    hide Invariant, Projected, EndsWith, End;
    var t, op := s.byRuntime[(mode, sessionID)], GatewayOp(mode, sessionID, e);
    ActiveIn(s, (mode, sessionID));
    Kept(s, op);
    if !e.decoded || e.name == "clarify" || (e.name == "" && e.kind.ToolProgress?) {
    } else if !MayUse(mode, e.name) {
      EndIs(s, s, t, ErrorEvent, Failed);
    } else {
      HasState(s, t);
      ToolGoesOn(s, t, e);
    }
  }

  function StateOf(s: State, t: nat): Option<ConversationState>
    requires t < |s.turns|
  {
    if s.turns[t].conversation in s.conversation then Some(s.conversation[s.turns[t].conversation]) else None
  }

  lemma HasState(s: State, t: nat)
    requires Invariant(s) && IsActive(s, t)
    ensures StateOf(s, t) in {Some(Running), Some(AwaitingClarification)}
  {
    hide OneTurnEach, Indexed, Projected, Traced;
  }

  lemma ToolGoesOn(s: State, t: nat, e: GatewayEvent)
    requires IsActive(s, t) && e.ToolEvent? && e.decoded && e.name != "clarify" && MayUse(s.turns[t].mode, e.name)
    requires Projected(s) && Projected(HandleTool(s, t, e)) && StateOf(s, t).Some?
    ensures GoesOn(s, HandleTool(s, t, e), t, ToolEvents(s.turns[t], e), StateOf(s, t).value)
  {
    hide Projected, EventsOf, PublishDrafts, PublishCitations;
    var f, a := HandleTool(s, t, e), Publish(s, t, Activity);
    EventsAre(s, t);
    EventsAre(f, t);
    DraftsPublish(a, t, e.drafts);
    CitationsPublish(a, t, e.citations);
    var events, drafts, citations := s.turns[t].events, DraftEvents(s.turns[t].drafts, e.drafts), CitationEvents(s.turns[t].citations, e.citations);
    assert events + [Activity] + drafts == events + ([Activity] + drafts);
    assert events + [Activity] + citations == events + ([Activity] + citations);
    assert [Activity] + [] == [Activity];
  }

  /** A clarification without an id or a question ends the turn as failed; any other is pending from then
      on, and the conversation waits for its answer. */
  lemma ClarifyOutcome(s: State, mode: Mode, sessionID: string, e: GatewayEvent)
    requires Invariant(s) && (mode, sessionID) in s.byRuntime && e.ClarifyRequest?
    ensures var t, s' := s.byRuntime[(mode, sessionID)], Step(s, GatewayOp(mode, sessionID, e));
            && IsActive(s, t)
            && if !e.decoded || e.requestID == "" || TrimSpace(e.question) == "" then EndsWith(s, s', t, ErrorEvent, Failed)
               else GoesOn(s, s', t, [ClarificationAsked(e.requestID)], AwaitingClarification)
                    && s'.clarifications == s.clarifications[s.turns[t].conversation := e.requestID]
  {
    hide Invariant, Projected, EndsWith, End, TrimSpace, EventsOf;
    var t, op := s.byRuntime[(mode, sessionID)], GatewayOp(mode, sessionID, e);
    ActiveIn(s, (mode, sessionID));
    Kept(s, op);
    if !e.decoded || e.requestID == "" || TrimSpace(e.question) == "" {
      EndIs(s, s, t, ErrorEvent, Failed);
    } else {
      EventsAre(s, t);
      EventsAre(Step(s, op), t);
    }
  }

  /** An answer reaches the pending clarification of the conversation only; then the turn runs on. */
  lemma RespondOutcome(s: State, conversation: string, requestID: string, delivered: bool)
    requires Invariant(s)
    ensures var s' := Step(s, RespondOp(conversation, requestID, delivered));
            if conversation in s.clarifications && s.clarifications[conversation] == requestID && delivered
            then conversation in s.byConversation && IsActive(s, s.byConversation[conversation])
                 && GoesOn(s, s', s.byConversation[conversation], [Activity], Running)
                 && s'.clarifications == s.clarifications - {conversation}
            else s' == s
  {
    hide Projected, Traced, Indexed, EventsOf;
    var op := RespondOp(conversation, requestID, delivered);
    Kept(s, op);
    if conversation in s.clarifications && s.clarifications[conversation] == requestID && delivered {
      EventsAre(s, s.byConversation[conversation]);
      EventsAre(Step(s, op), s.byConversation[conversation]);
    }
  }

  // ---------------------------------------------------------------- submissions, texts, unknown sessions

  /** A submission is refused for a command and while the conversation has a turn; else it begins a turn,
      which runs if it was accepted and has failed, without publishing anything, if not. */
  lemma SubmitOutcomeIs(s: State, conversation: string, mode: Mode, content: GoString, outcome: SubmitOutcome)
    requires Invariant(s)
    ensures var t, s' := |s.turns|, Step(s, SubmitOp(conversation, mode, content, outcome));
            if HasPrefix(TrimSpace(content), "/") || conversation in s.byConversation then s' == s
            else
              && |s'.turns| == t + 1 && s'.turns[..t] == s.turns
              && s'.turns[t].conversation == conversation && s'.turns[t].mode == mode
              && (s'.turns[t].finalized <==> !outcome.AcceptedWith?)
              && EventsOf(s'.published, t) == (if outcome.AcceptedWith? then [Activity] else [])
              && s'.conversation == s.conversation[conversation := if outcome.AcceptedWith? then Running else Failed]
              && s'.clarifications == s.clarifications - {conversation}
              && (outcome.AcceptedWith? ==>
                    && s'.byConversation == s.byConversation[conversation := t]
                    && s'.byRuntime == s.byRuntime[(mode, outcome.runtimeID) := t]
                    && s'.byStored == s.byStored[(mode, outcome.storedID) := t]
                    && s'.turns[t].runtimeID == outcome.runtimeID && s'.turns[t].storedID == outcome.storedID)
  {
    hide Indexed, Stated, Traced, Projected, EventsOf, TrimSpace;
    var op := SubmitOp(conversation, mode, content, outcome);
    Kept(s, op);
    CommandIff(content);
    if !IsCommand(content) && conversation !in s.byConversation {
      EventsAre(Step(s, op), |s.turns|);
    }
  }

  lemma CommandIff(content: GoString)
    ensures IsCommand(content) <==> HasPrefix(TrimSpace(content), "/")
  {
    hide TrimSpace;
    var c := TrimSpace(content);
    if HasPrefix(c, "/") {
      assert c[..1][0] == c[0];
    } else if c != "" {
      assert c[..1] == [c[0]];
    }
  }

  /** Text reaches the turn's filter unless it cannot be read or has been streamed already. */
  lemma TextOutcome(s: State, mode: Mode, sessionID: string, e: GatewayEvent)
    requires Invariant(s) && (mode, sessionID) in s.byRuntime && e.TextEvent?
    ensures var t, s' := s.byRuntime[(mode, sessionID)], Step(s, GatewayOp(mode, sessionID, e));
            && IsActive(s, t)
            && if !e.decoded || (e.interim && e.alreadyStreamed) then s' == s
               else t < |s'.turns| && !s'.turns[t].finalized && s'.turns[t].fed == s.turns[t].fed + [e.text] && s'.conversation == s.conversation
  {
    hide Invariant, Drain;
    ActiveIn(s, (mode, sessionID));
  }

  /** Events of a session without a turn change nothing, nor do events nothing is known about. */
  lemma OtherEventsAreIgnored(s: State, mode: Mode, sessionID: string, e: GatewayEvent)
    requires if (mode, sessionID) in s.byRuntime then e.Unknown? else e.SessionInfo? ==> (mode, sessionID) !in s.recent
    ensures Step(s, GatewayOp(mode, sessionID, e)) == s
  {
  }

  // ---------------------------------------------------------------- reconnects

  /** What a reconnect does to one of the turns it resumes. */
  ghost predicate ResumedAs(s: State, s': State, r: Resumption)
    requires r.turn < |s.turns| && r.turn < |s'.turns|
  {
    var t, c, before, after := r.turn, s.turns[r.turn].conversation, EventsOf(s.published, r.turn), EventsOf(s'.published, r.turn);
    match r.outcome
    case ResumeFailed => Closed(s', t, c, before, after, ErrorEvent, Failed)
    case Resumed(runtimeID, _, _, status) =>
      match status
      case StatusUnknown => Closed(s', t, c, before, after, ErrorEvent, Failed)
      case NotRunning => Closed(s', t, c, before, after, CompletedEvent, Idle)
      case StillRunning =>
        && !s'.turns[t].finalized && after == before && StateOf(s', t) == StateOf(s, t)
        && s'.turns[t].conversation == c && s'.turns[t].runtimeID == runtimeID
        && (c in s'.byConversation && s'.byConversation[c] == t)
  }

  ghost predicate Closed(s': State, t: nat, c: string, before: seq<Event>, after: seq<Event>, e: Event, state: ConversationState)
    requires t < |s'.turns|
  {
    && s'.turns[t].finalized && s'.turns[t].conversation == c && after == before + [e]
    && c in s'.conversation && s'.conversation[c] == state && c !in s'.byConversation
  }

  lemma EndCloses(p: State, t: nat, e: Event, state: ConversationState)
    requires t < |p.turns| && !p.turns[t].finalized
    ensures var f, c := End(p, t, e, state), p.turns[t].conversation;
            && |f.turns| == |p.turns| && f.turns[t] == p.turns[t].(finalized := true, events := p.turns[t].events + [e])
            && f.conversation == p.conversation[c := state]
            && (forall d :: d != c ==> (d in f.byConversation <==> d in p.byConversation)
                                       && (d in p.byConversation ==> f.byConversation[d] == p.byConversation[d]))
            && (c in p.byConversation && p.byConversation[c] == t ==> c !in f.byConversation)
  {
  }

  lemma RotateKeeps(s: State, t: nat, storedID: string)
    requires t < |s.turns|
    ensures var r := Rotate(s, t, storedID);
            && |r.turns| == |s.turns| && r.turns[t] == s.turns[t].(storedID := storedID)
            && r.conversation == s.conversation && r.byConversation == s.byConversation
  {
  }

  /** What resuming leaves of one turn before it may end. */
  lemma BoundIs(s: State, r: Resumption)
    requires r.turn < |s.turns| && r.outcome.Resumed?
    ensures var t, o := r.turn, r.outcome;
            var bound := Rebind(s, t, o.runtimeID);
            var rotated := if o.storedID != "" && o.storedID != bound.turns[t].storedID && o.saved then Rotate(bound, t, o.storedID) else bound;
            && |rotated.turns| == |s.turns| && rotated.turns[t] == s.turns[t].(runtimeID := o.runtimeID, storedID := rotated.turns[t].storedID)
            && rotated.conversation == s.conversation && rotated.byConversation == s.byConversation
            && ReconcileTurn(s, t, o) == match o.status
                                         case StatusUnknown => End(rotated, t, ErrorEvent, Failed)
                                         case NotRunning => End(rotated, t, CompletedEvent, Idle)
                                         case StillRunning => rotated
  {
    hide End, Rotate;
    RotateKeeps(Rebind(s, r.turn, r.outcome.runtimeID), r.turn, r.outcome.storedID);
  }

  lemma FailedResume(s: State, r: Resumption)
    requires r.turn < |s.turns| && r.outcome.ResumeFailed?
    ensures ReconcileTurn(s, r.turn, r.outcome) == End(s, r.turn, ErrorEvent, Failed)
  {
  }

  lemma EndedIsClosed(s: State, p: State, t: nat, e: Event, state: ConversationState)
    requires IsActive(s, t) && |p.turns| == |s.turns| && p.byConversation == s.byConversation
    requires p.turns[t].events == s.turns[t].events && !p.turns[t].finalized && p.turns[t].conversation == s.turns[t].conversation
    requires Projected(s) && Projected(End(p, t, e, state))
    ensures var f, c := End(p, t, e, state), s.turns[t].conversation;
            |f.turns| == |s.turns| && Closed(f, t, c, EventsOf(s.published, t), EventsOf(f.published, t), e, state)
  {
    hide Projected, EventsOf, End;
    EventsAre(s, t);
    EndCloses(p, t, e, state);
    EventsAre(End(p, t, e, state), t);
  }

  lemma ReconcileTurnIs(s: State, r: Resumption)
    requires IsActive(s, r.turn) && Projected(s) && Projected(ReconcileTurn(s, r.turn, r.outcome))
    ensures ResumedAs(s, ReconcileTurn(s, r.turn, r.outcome), r)
  {
    hide Projected, EventsOf, End, Rotate, ReconcileTurn, Closed;
    var t, o := r.turn, r.outcome;
    if o.ResumeFailed? {
      FailedResume(s, r);
      EndedIsClosed(s, s, t, ErrorEvent, Failed);
    } else {
      BoundIs(s, r);
      var bound := Rebind(s, t, o.runtimeID);
      var rotated := if o.storedID != "" && o.storedID != bound.turns[t].storedID && o.saved then Rotate(bound, t, o.storedID) else bound;
      match o.status
      case StatusUnknown => EndedIsClosed(s, rotated, t, ErrorEvent, Failed);
      case NotRunning => EndedIsClosed(s, rotated, t, CompletedEvent, Idle);
      case StillRunning =>
        EventsAre(s, t);
        EventsAre(rotated, t);
    }
  }

  /** Resuming one turn leaves the other conversations alone. */
  lemma ReconcileTurnLeavesConversations(s: State, r: Resumption, c: string)
    requires r.turn < |s.turns| && !s.turns[r.turn].finalized && c != s.turns[r.turn].conversation
    ensures var f := ReconcileTurn(s, r.turn, r.outcome);
            && (c in f.conversation <==> c in s.conversation) && (c in s.conversation ==> f.conversation[c] == s.conversation[c])
            && (c in f.byConversation <==> c in s.byConversation) && (c in s.byConversation ==> f.byConversation[c] == s.byConversation[c])
  {
    hide End, Rotate, Rebind;
    var t, o := r.turn, r.outcome;
    if o.ResumeFailed? {
      EndCloses(s, t, ErrorEvent, Failed);
    } else {
      hide ReconcileTurn;
      BoundIs(s, r);
      var bound := Rebind(s, t, o.runtimeID);
      var rotated := if o.storedID != "" && o.storedID != bound.turns[t].storedID && o.saved then Rotate(bound, t, o.storedID) else bound;
      EndCloses(rotated, t, ErrorEvent, Failed);
      EndCloses(rotated, t, CompletedEvent, Idle);
    }
  }

  /** A turn of another conversation is resumed the same afterwards as before. */
  lemma ResumedLater(s: State, m: State, s': State, q: Resumption, r: Resumption)
    requires IsActive(s, q.turn) && IsActive(s, r.turn) && q.turn != r.turn && m == ReconcileTurn(s, q.turn, q.outcome)
    requires Projected(s) && Projected(m) && |s'.turns| == |m.turns| && ResumedAs(m, s', r)
    ensures ResumedAs(s, s', r)
  {
    hide Projected, EventsOf, ReconcileTurn;
    ReconcileTurnLeavesOthers(s, q.turn, q.outcome);
    ReconcileTurnLeavesConversations(s, q, s.turns[r.turn].conversation);
    EventsAre(s, r.turn);
    EventsAre(m, r.turn);
  }

  /** A turn keeps how it was resumed while others are. */
  lemma ResumedStays(s: State, m: State, f: State, q: Resumption, r: Resumption)
    requires r.turn < |s.turns| && r.turn < |m.turns| && ResumedAs(s, m, r) && q.turn < |m.turns| && q.turn != r.turn
    requires !m.turns[q.turn].finalized && m.turns[q.turn].conversation != m.turns[r.turn].conversation && f == ReconcileTurn(m, q.turn, q.outcome)
    requires m.turns[r.turn].conversation == s.turns[r.turn].conversation
    requires Projected(m) && Projected(f)
    ensures ResumedAs(s, f, r) && f.turns[r.turn] == m.turns[r.turn]
  {
    hide Projected, EventsOf, ReconcileTurn;
    ReconcileTurnLeavesOthers(m, q.turn, q.outcome);
    ReconcileTurnLeavesConversations(m, q, s.turns[r.turn].conversation);
    EventsAre(m, r.turn);
    EventsAre(f, r.turn);
  }

  lemma {:induction false} OthersStay(s: State, m: State, mode: Mode, rs: seq<Resumption>, r: Resumption)
    requires Invariant(m) && ActiveOnce(m, mode, rs) && r.turn < |s.turns| && r.turn < |m.turns| && ResumedAs(s, m, r)
    requires forall i :: 0 <= i < |rs| ==> rs[i].turn != r.turn && m.turns[rs[i].turn].conversation != m.turns[r.turn].conversation
    requires m.turns[r.turn].conversation == s.turns[r.turn].conversation
    ensures |ReconcileTurns(m, rs).turns| == |m.turns| && ResumedAs(s, ReconcileTurns(m, rs), r)
    decreases |rs|
  {
    hide Structured, Projected, Traced, ReconcileTurn, ResumedAs;
    if rs != [] {
      var f := ReconcileTurn(m, rs[0].turn, rs[0].outcome);
      ReconcileTurnKeepsInvariant(m, rs[0].turn, rs[0].outcome);
      ReconcileTurnLeavesOthers(m, rs[0].turn, rs[0].outcome);
      ResumedStays(s, m, f, rs[0], r);
      OthersStay(s, f, mode, rs[1..], r);
    }
  }

  lemma {:induction false} ResumptionsAre(s: State, mode: Mode, rs: seq<Resumption>)
    requires Invariant(s) && ActiveOnce(s, mode, rs)
    ensures var s' := ReconcileTurns(s, rs);
            |s'.turns| == |s.turns| && forall i :: 0 <= i < |rs| ==> ResumedAs(s, s', rs[i])
    decreases |rs|
  {
    hide Invariant, Projected, ReconcileTurn, ResumedAs;
    if rs != [] {
      var q, rest := rs[0], rs[1..];
      var m := ReconcileTurn(s, q.turn, q.outcome);
      ReconcileTurnKeepsInvariant(s, q.turn, q.outcome);
      ReconcileTurnLeavesOthers(s, q.turn, q.outcome);
      BothProjected(s, m);
      ResumptionsAre(m, mode, rest);
      ActiveEach(s, mode, rs);
      ReconcileTurnIs(s, q);
      ResumedConversation(s, m, q);
      OthersStay(s, m, mode, rest, q);
      forall i | 1 <= i < |rs|
        ensures ResumedAs(s, ReconcileTurns(s, rs), rs[i])
      {
        assert rest[i - 1] == rs[i];
        ResumedLater(s, m, ReconcileTurns(s, rs), q, rs[i]);
      }
    }
  }

  lemma BothProjected(s: State, m: State)
    requires Invariant(s) && Invariant(m)
    ensures Projected(s) && Projected(m)
  {
    hide Structured, Projected, Traced;
  }

  lemma ActiveEach(s: State, mode: Mode, rs: seq<Resumption>)
    requires Invariant(s) && ActiveOnce(s, mode, rs)
    ensures forall i :: 0 <= i < |rs| ==> IsActive(s, rs[i].turn)
    ensures forall i :: 1 <= i < |rs| ==> rs[i].turn != rs[0].turn && s.turns[rs[i].turn].conversation != s.turns[rs[0].turn].conversation
  {
    hide Indexed, Stated, Projected, Traced;
  }

  lemma ResumedConversation(s: State, m: State, r: Resumption)
    requires r.turn < |s.turns| && r.turn < |m.turns| && ResumedAs(s, m, r)
    ensures m.turns[r.turn].conversation == s.turns[r.turn].conversation
  {
    hide EventsOf;
  }

  /** A reconnect ends a turn as failed if its session cannot be resumed or its status read, ends it as
      completed if the gateway no longer runs it, and else binds it to the new runtime session. */
  lemma ReconnectOutcome(s: State, mode: Mode, rs: seq<Resumption>)
    requires Invariant(s) && ActiveOnce(s, mode, rs)
    ensures var s' := Step(s, ReconcileOp(mode, rs));
            |s'.turns| == |s.turns| && forall i :: 0 <= i < |rs| ==> ResumedAs(s, s', rs[i])
  {
    hide Invariant, ResumedAs, ActiveOnce, ReconcileTurns;
    ResumptionsAre(s, mode, rs);
  }
}
