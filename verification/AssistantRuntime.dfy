/** The assistant runtime in its own form: maps updated in place, each operation proved against its
    step function. */
module AssistantRuntime {
  import opened GoStrings
  import opened Options
  import opened StreamFilter
  import opened StripMarkers
  import opened TurnState
  import opened TurnInvariants
  import Ops = TurnOps
  import opened TurnRuns

  datatype SubmitResult = CommandForbidden | TurnActive | Unavailable | Submitted(turn: nat)
  datatype StopResult = TurnNotActive | InterruptFailed | StoppedTurn(turn: nat)
  datatype RespondResult = ClarificationMismatch | DeliveryFailed | Answered(turn: nat)

  class Runtime {
    var turns: seq<Turn>
    var activeByConversation: map<string, nat>
    var activeByRuntime: map<SessionKey, nat>
    var activeByStored: map<SessionKey, nat>
    var recentByRuntime: map<SessionKey, nat>
    var conversationState: map<string, ConversationState>
    var clarifications: map<string, string>
    var published: seq<Published>

    ghost function Abs(): State
      reads this
    {
      State(turns, activeByConversation, activeByRuntime, activeByStored, recentByRuntime,
            conversationState, clarifications, published)
    }

    ghost predicate Valid()
      reads this
    {
      Invariant(Abs())
    }

    constructor ()
      ensures Valid() && Abs() == INITIAL
    {
      turns, published := [], [];
      activeByConversation, activeByRuntime, activeByStored, recentByRuntime := map[], map[], map[], map[];
      conversationState, clarifications := map[], map[];
      new;
      InitialInvariant();
    }

    method PublishEvent(t: nat, e: Event)
      requires t < |turns|
      modifies this`turns, this`published
      ensures Abs() == Publish(old(Abs()), t, e) && |turns| == |old(turns)|
    {
      turns := turns[t := turns[t].(events := turns[t].events + [e])];
      published := published + [Published(t, e)];
    }

    method FinishTurn(t: nat, state: ConversationState)
      requires t < |turns|
      modifies this
      ensures Abs() == Finish(old(Abs()), t, state)
      ensures turns[t].finalized && (old(turns)[t].finalized ==> Abs() == old(Abs()))
      ensures Structured(old(Abs())) ==> Unlisted(Abs(), t)
      ensures !old(turns)[t].finalized && turns[t].runtimeID != "" ==>
                var key := (turns[t].mode, turns[t].runtimeID); key in recentByRuntime && recentByRuntime[key] == t
    {
      hide Structured, Unlisted;
      FinishUnlists(Abs(), t, state);
      if !turns[t].finalized {
        LeaveIndexes(t);
        Conclude(t, state);
      }
    }

    /** The part of `finishTurn` that drops the turn from the active indexes. */
    method LeaveIndexes(t: nat)
      requires t < |turns|
      modifies this`activeByConversation, this`activeByRuntime, this`activeByStored
      ensures var turn := turns[t];
              && activeByRuntime == old(activeByRuntime) - {(turn.mode, turn.runtimeID)}
              && activeByStored == old(activeByStored) - {(turn.mode, turn.storedID)}
              && activeByConversation == if turn.conversation in old(activeByConversation) && old(activeByConversation)[turn.conversation] == t
                                         then old(activeByConversation) - {turn.conversation} else old(activeByConversation)
    {
      var turn := turns[t];
      if turn.conversation in activeByConversation && activeByConversation[turn.conversation] == t {
        activeByConversation := activeByConversation - {turn.conversation};
      }
      activeByRuntime := activeByRuntime - {(turn.mode, turn.runtimeID)};
      activeByStored := activeByStored - {(turn.mode, turn.storedID)};
    }

    /** The rest of it. */
    method Conclude(t: nat, state: ConversationState)
      requires t < |turns|
      modifies this`turns, this`clarifications, this`conversationState, this`recentByRuntime
      ensures var turn := old(turns)[t];
              && turns == old(turns)[t := turn.(finalized := true)]
              && clarifications == old(clarifications) - {turn.conversation}
              && conversationState == old(conversationState)[turn.conversation := state]
              && recentByRuntime == if turn.runtimeID != "" then old(recentByRuntime)[(turn.mode, turn.runtimeID) := t] else old(recentByRuntime)
    {
      var turn := turns[t];
      turns := turns[t := turn.(finalized := true)];
      clarifications := clarifications - {turn.conversation};
      conversationState := conversationState[turn.conversation := state];
      if turn.runtimeID != "" {
        recentByRuntime := recentByRuntime[(turn.mode, turn.runtimeID) := t];
      }
    }

    method EndTurn(t: nat, e: Event, state: ConversationState)
      requires t < |turns|
      modifies this
      ensures Abs() == Ops.End(old(Abs()), t, e, state)
    {
      PublishEvent(t, e);
      FinishTurn(t, state);
    }

    method EnterSession(t: nat, runtimeID: string, storedID: string)
      requires t < |turns|
      modifies this`turns, this`activeByRuntime, this`activeByStored
      ensures Abs() == IndexSession(old(Abs()), t, runtimeID, storedID)
    {
      var turn := turns[t];
      turns := turns[t := turn.(runtimeID := runtimeID, storedID := storedID)];
      activeByRuntime := activeByRuntime[(turn.mode, runtimeID) := t];
      activeByStored := activeByStored[(turn.mode, storedID) := t];
    }

    method Submit(conversation: string, mode: Mode, content: GoString, outcome: Ops.SubmitOutcome) returns (r: SubmitResult)
      requires Valid()
      modifies this
      ensures Valid() && Abs() == Ops.Submit(old(Abs()), conversation, mode, content, outcome)
      ensures r.CommandForbidden? <==> Ops.IsCommand(content)
      ensures r.TurnActive? <==> !Ops.IsCommand(content) && conversation in old(activeByConversation)
      ensures r.Submitted? <==> !r.CommandForbidden? && !r.TurnActive? && outcome.AcceptedWith?
      ensures r.Submitted? ==> r.turn == |old(turns)| && conversation in activeByConversation && activeByConversation[conversation] == r.turn
    {
      hide Invariant, TrimSpace, Finish, IndexSession, Ops.IsCommand;
      SubmitKeepsInvariant(Abs(), conversation, mode, content, outcome);
      if Ops.IsCommand(content) {
        return CommandForbidden;
      }
      if conversation in activeByConversation {
        return TurnActive;
      }
      var t := |turns|;
      turns := turns + [NewTurn(conversation, mode)];
      activeByConversation := activeByConversation[conversation := t];
      conversationState := conversationState[conversation := Running];
      clarifications := clarifications - {conversation};
      if outcome.NoSession? {
        FinishTurn(t, Failed);
        return Unavailable;
      }
      EnterSession(t, outcome.runtimeID, outcome.storedID);
      if outcome.FailedWith? {
        FinishTurn(t, Failed);
        return Unavailable;
      }
      turns := turns[t := turns[t].(accepted := true)];
      PublishEvent(t, Activity);
      return Submitted(t);
    }

    method Stop(conversation: string, interrupted: bool) returns (r: StopResult)
      requires Valid()
      modifies this
      ensures Valid() && Abs() == Ops.Stop(old(Abs()), conversation, interrupted)
      ensures r.TurnNotActive? <==> conversation !in old(activeByConversation)
      ensures r.StoppedTurn? <==> conversation in old(activeByConversation) && interrupted
      ensures r.StoppedTurn? ==> r.turn == old(activeByConversation)[conversation]
    {
      StopKeepsInvariant(Abs(), conversation, interrupted);
      if conversation !in activeByConversation {
        return TurnNotActive;
      }
      var t := activeByConversation[conversation];
      if !interrupted {
        return InterruptFailed;
      }
      EndTurn(t, StoppedEvent, Stopped);
      return StoppedTurn(t);
    }

    method RespondClarification(conversation: string, requestID: string, delivered: bool) returns (r: RespondResult)
      requires Valid()
      modifies this
      ensures Valid() && Abs() == Ops.Respond(old(Abs()), conversation, requestID, delivered)
      ensures r.ClarificationMismatch? <==>
              !(conversation in old(clarifications) && old(clarifications)[conversation] == requestID)
      ensures r.Answered? <==> !r.ClarificationMismatch? && delivered
    {
      hide Invariant;
      RespondKeepsInvariant(Abs(), conversation, requestID, delivered);
      if conversation in clarifications {
        PendingMeansActive(Abs(), conversation);
      }
      if conversation !in activeByConversation || conversation !in clarifications || clarifications[conversation] != requestID {
        return ClarificationMismatch;
      }
      var t := activeByConversation[conversation];
      if !delivered {
        return DeliveryFailed;
      }
      clarifications := clarifications - {conversation};
      conversationState := conversationState[conversation := Running];
      PublishEvent(t, Activity);
      return Answered(t);
    }

    method RotateStoredSession(t: nat, storedID: string)
      requires t < |turns|
      modifies this`turns, this`activeByStored
      ensures Abs() == Rotate(old(Abs()), t, storedID)
      ensures turns[t].storedID == storedID
      ensures var gone, added, current := StoredKey(old(turns)[t]), (turns[t].mode, storedID),
                                          turns[t].conversation in activeByConversation && activeByConversation[turns[t].conversation] == t;
              && (current ==> added in activeByStored && activeByStored[added] == t)
              && (gone in activeByStored ==> current && gone == added)
              && forall k :: k != gone && k != added ==> (k in activeByStored <==> k in old(activeByStored))
    {
      var turn := turns[t];
      activeByStored := activeByStored - {(turn.mode, turn.storedID)};
      turns := turns[t := turn.(storedID := storedID)];
      if turn.conversation in activeByConversation && activeByConversation[turn.conversation] == t {
        activeByStored := activeByStored[(turn.mode, storedID) := t];
      }
    }

    method HandleText(t: nat, text: GoString)
      requires t < |turns|
      modifies this`turns, this`published
      ensures Abs() == FeedText(old(Abs()), t, text)
    {
      hide Drain;
      var d := Drain(turns[t].buffer + text, turns[t].inside);
      turns := turns[t := turns[t].(buffer := d.buffer, inside := d.inside, fed := turns[t].fed + [text])];
      if d.output != "" {
        turns := turns[t := turns[t].(hadDelta := true)];
        PublishEvent(t, MessageDelta(d.output));
      }
    }

    method FlushFilter(t: nat)
      requires t < |turns|
      modifies this`turns, this`published
      ensures Abs() == Ops.FlushFilter(old(Abs()), t)
    {
      var tail := if turns[t].inside then "" else turns[t].buffer;
      turns := turns[t := turns[t].(buffer := "")];
      if tail != "" {
        turns := turns[t := turns[t].(hadDelta := true)];
        PublishEvent(t, MessageDelta(tail));
      }
    }

    method HandleMessageComplete(t: nat, text: GoString, status: string)
      requires t < |turns|
      modifies this
      ensures Abs() == Ops.HandleComplete(old(Abs()), t, text, status)
    {
      hide Strip, TrimSpace, Ops.FlushFilter, Ops.End;
      var stripped := StripInternalMarkers(text);
      FlushFilter(t);
      turns := turns[t := turns[t].(finalText := Some(text))];
      if stripped != "" && !turns[t].hadDelta {
        PublishEvent(t, MessageDelta(stripped));
      }
      match status {
        case "interrupted" => EndTurn(t, StoppedEvent, Stopped);
        case "error" => EndTurn(t, ErrorEvent, Failed);
        case _ => EndTurn(t, CompletedEvent, Idle);
      }
    }

    method HandleToolEvent(t: nat, e: Ops.GatewayEvent)
      requires t < |turns| && e.ToolEvent?
      modifies this
      ensures Abs() == Ops.HandleTool(old(Abs()), t, e)
    {
      hide Finish;
      if !e.decoded {
        return;
      }
      if e.name == "" && e.kind.ToolProgress? {
        return;
      }
      if e.name == "clarify" {
        return;
      }
      if !Ops.ToolAllowed(turns[t].mode, e.name) {
        EndTurn(t, ErrorEvent, Failed);
        return;
      }
      PublishEvent(t, Activity);
      if !e.kind.ToolComplete? || !e.hasResult {
        return;
      }
      if e.name == "apply_viki_draft_changeset" {
        PublishDraftReceipts(t, e.drafts);
      } else {
        PublishCitationReceipts(t, e.citations);
      }
    }

    method PublishDraftReceipts(t: nat, revisions: seq<string>)
      requires t < |turns|
      modifies this`turns, this`published
      ensures Abs() == Ops.PublishDrafts(old(Abs()), t, revisions)
    {
      hide WorksOn, Publish;
      ghost var result := Ops.PublishDrafts(Abs(), t, revisions);
      for i := 0 to |revisions|
        invariant t < |turns|
        invariant Ops.PublishDrafts(Abs(), t, revisions[i..]) == result
      {
        var r := revisions[i];
        assert revisions[i..][1..] == revisions[i + 1..];
        if r !in turns[t].drafts {
          turns := turns[t := turns[t].(drafts := turns[t].drafts + {r})];
          PublishEvent(t, DraftCreated(r));
        }
      }
    }

    method PublishCitationReceipts(t: nat, revisions: seq<string>)
      requires t < |turns|
      modifies this`turns, this`published
      ensures Abs() == Ops.PublishCitations(old(Abs()), t, revisions)
    {
      hide WorksOn, Publish;
      ghost var result := Ops.PublishCitations(Abs(), t, revisions);
      for i := 0 to |revisions|
        invariant t < |turns|
        invariant Ops.PublishCitations(Abs(), t, revisions[i..]) == result
      {
        var r := revisions[i];
        assert revisions[i..][1..] == revisions[i + 1..];
        if r !in turns[t].citations {
          turns := turns[t := turns[t].(citations := turns[t].citations + {r})];
          PublishEvent(t, CitationFound(r));
        }
      }
    }

    method HandleClarify(t: nat, e: Ops.GatewayEvent)
      requires t < |turns| && e.ClarifyRequest?
      modifies this
      ensures Abs() == Ops.HandleClarify(old(Abs()), t, e)
    {
      hide Finish, TrimSpace;
      if !e.decoded || e.requestID == "" || TrimSpace(e.question) == "" {
        EndTurn(t, ErrorEvent, Failed);
        return;
      }
      clarifications := clarifications[turns[t].conversation := e.requestID];
      conversationState := conversationState[turns[t].conversation := AwaitingClarification];
      PublishEvent(t, ClarificationAsked(e.requestID));
    }

    method HandleGatewayEvent(mode: Mode, sessionID: string, e: Ops.GatewayEvent)
      requires Valid()
      modifies this
      ensures Valid() && Abs() == Ops.HandleGatewayEvent(old(Abs()), mode, sessionID, e)
    {
      hide OneTurnEach, Stated, Projected, Traced, Ops.HandleActive, Rotate;
      GatewayEventKeepsInvariant(Abs(), mode, sessionID, e);
      var key := (mode, sessionID);
      if key !in activeByRuntime {
        if key in recentByRuntime && e.SessionInfo? {
          HandleSessionInfo(recentByRuntime[key], e);
        }
        return;
      }
      HandleActive(activeByRuntime[key], e);
    }

    method HandleActive(t: nat, e: Ops.GatewayEvent)
      requires t < |turns|
      modifies this
      ensures Abs() == Ops.HandleActive(old(Abs()), t, e)
    {
      hide Ops.HandleTool, Ops.HandleComplete, Ops.HandleClarify, FeedText, Rotate, Ops.End;
      match e {
        case TextEvent(decoded, interim, alreadyStreamed, text) =>
          if !decoded || (interim && alreadyStreamed) {
            return;
          }
          HandleText(t, text);
        case MessageComplete(text, status) => HandleMessageComplete(t, text, status);
        case ToolEvent(_, _, _, _, _, _) => HandleToolEvent(t, e);
        case ClarifyRequest(_, _, _) => HandleClarify(t, e);
        case SessionInfo(_, _, _) => HandleSessionInfo(t, e);
        case GatewayFailure => EndTurn(t, ErrorEvent, Failed);
        case OtherRequest => EndTurn(t, ErrorEvent, Failed);
        case Unknown =>
      }
    }

    method HandleSessionInfo(t: nat, e: Ops.GatewayEvent)
      requires t < |turns| && e.SessionInfo?
      modifies this
      ensures Abs() == Ops.HandleSessionInfo(old(Abs()), t, e)
    {
      if e.decoded && e.storedID != "" && e.storedID != turns[t].storedID && e.saved {
        RotateStoredSession(t, e.storedID);
      }
    }

    /** The retention timer. */
    method ForgetRecent(key: SessionKey)
      requires Valid()
      modifies this`recentByRuntime
      ensures Valid() && Abs() == Forget(old(Abs()), key)
    {
      hide Invariant;
      ForgetKeepsInvariant(Abs(), key);
      recentByRuntime := recentByRuntime - {key};
    }

    /** The turn a tool call presenting a stored session may act for. */
    method ActiveGrant(mode: Mode, sessionID: string) returns (turn: Option<nat>)
      requires Valid()
      ensures turn.Some? <==> (mode, sessionID) in activeByStored
      ensures turn.Some? ==> turn.value < |turns| && !turns[turn.value].finalized
                             && turns[turn.value].mode == mode && turns[turn.value].storedID == sessionID
    {
      if (mode, sessionID) in activeByStored {
        return Some(activeByStored[(mode, sessionID)]);
      }
      return None;
    }

    method ReconcileTurn(t: nat, outcome: Ops.ResumeOutcome)
      requires t < |turns|
      modifies this
      ensures Abs() == Ops.ReconcileTurn(old(Abs()), t, outcome)
    {
      hide Finish, Ops.End;
      if outcome.ResumeFailed? {
        EndTurn(t, ErrorEvent, Failed);
        return;
      }
      var turn := turns[t];
      activeByRuntime := activeByRuntime - {(turn.mode, turn.runtimeID)};
      turns := turns[t := turn.(runtimeID := outcome.runtimeID)];
      activeByRuntime := activeByRuntime[(turn.mode, outcome.runtimeID) := t];
      if outcome.storedID != "" && outcome.storedID != turns[t].storedID && outcome.saved {
        RotateStoredSession(t, outcome.storedID);
      }
      if outcome.status.StatusUnknown? {
        EndTurn(t, ErrorEvent, Failed);
      } else if outcome.status.NotRunning? {
        EndTurn(t, CompletedEvent, Idle);
      }
    }

    /** After a reconnect every active turn of the mode is resumed, in the order in which iterating
        over the map happens to yield them. */
    method ReconcileProfile(mode: Mode, resume: nat -> Ops.ResumeOutcome) returns (rs: seq<Ops.Resumption>)
      requires Valid()
      modifies this
      ensures Valid() && Ops.ActiveOnce(old(Abs()), mode, rs) && Abs() == Ops.ReconcileTurns(old(Abs()), rs)
      ensures forall r :: r in rs ==> r.outcome == resume(r.turn)
      ensures forall t :: 0 <= t < |old(turns)| && !old(turns)[t].finalized && old(turns)[t].mode == mode ==>
                exists r :: r in rs && r.turn == t
    {
      rs := CollectActive(mode, resume);
      ReconcileKeepsInvariant(Abs(), mode, rs);
      ghost var result := Ops.ReconcileTurns(Abs(), rs);
      hide Invariant, Ops.ReconcileTurn, Ops.ActiveOnce;
      for i := 0 to |rs|
        invariant Ops.ReconcileTurns(Abs(), rs[i..]) == result
        invariant |turns| == |old(turns)|
      {
        assert rs[i..][1..] == rs[i + 1..];
        assert rs[i].turn < |turns| by {
          TurnOfActiveOnce(old(Abs()), mode, rs, i);
        }
        ReconcileTurn(rs[i].turn, rs[i].outcome);
      }
    }

    method CollectActive(mode: Mode, resume: nat -> Ops.ResumeOutcome) returns (rs: seq<Ops.Resumption>)
      requires Valid()
      ensures Ops.ActiveOnce(Abs(), mode, rs)
      ensures forall r :: r in rs ==> r.outcome == resume(r.turn)
      ensures forall t :: 0 <= t < |turns| && !turns[t].finalized && turns[t].mode == mode ==> exists r :: r in rs && r.turn == t
    {
      hide Projected, TurnInvariants.Traced, TurnInvariants.Stated, TurnInvariants.Indexed;
      rs := [];
      var conversations := activeByConversation.Keys;
      while conversations != {}
        invariant conversations <= activeByConversation.Keys
        invariant Ops.ActiveOnce(Abs(), mode, rs)
        invariant forall r :: r in rs ==> r.outcome == resume(r.turn) && turns[r.turn].conversation !in conversations
        invariant forall c :: c in activeByConversation && c !in conversations && turns[activeByConversation[c]].mode == mode ==>
                    exists r :: r in rs && r.turn == activeByConversation[c]
        decreases conversations
      {
        var c :| c in conversations;
        conversations := conversations - {c};
        var t := activeByConversation[c];
        if turns[t].mode == mode {
          rs := rs + [Ops.Resumption(t, resume(t))];
        }
      }
    }
  }

  lemma ForgetKeepsInvariant(s: State, key: SessionKey)
    requires Invariant(s)
    ensures Invariant(Forget(s, key))
  {
    hide Invariant;
    StepKeepsInvariant(s, Ops.ForgetOp(key));
  }

  lemma PendingMeansActive(s: State, conversation: string)
    requires Invariant(s) && conversation in s.clarifications
    ensures conversation in s.byConversation && s.byConversation[conversation] < |s.turns|
  {
  }

  lemma TurnOfActiveOnce(s: State, mode: Mode, rs: seq<Ops.Resumption>, i: nat)
    requires Ops.ActiveOnce(s, mode, rs) && i < |rs|
    ensures rs[i].turn < |s.turns|
  {
  }
}
