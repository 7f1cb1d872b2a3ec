/** The operations of the assistant runtime. Each is one step: the results of the gateway and of the
    repository are inputs of the step. */
module TurnOps {
  import opened GoStrings
  import opened Options
  import opened StreamFilter
  import opened StripMarkers
  import opened TurnState

  // ---------------------------------------------------------------- submit, stop, respond

  /** How a submission fares once its turn has begun. A failure after a session was obtained is one
      of building the handoff, submitting the prompt or storing the mode. */
  datatype SubmitOutcome =
    | NoSession
    | FailedWith(runtimeID: string, storedID: string)
    | AcceptedWith(runtimeID: string, storedID: string)

  predicate IsCommand(content: GoString) {
    var c := TrimSpace(content);
    c != "" && c[0] == '/'
  }

  function Accept(s: State, t: nat): (s': State)
    requires t < |s.turns|
  {
    s.(turns := s.turns[t := s.turns[t].(accepted := true)])
  }

  function Submit(s: State, conversation: string, mode: Mode, content: GoString, outcome: SubmitOutcome): State {
    if IsCommand(content) || conversation in s.byConversation then s
    else
      var t, begun := |s.turns|, Begin(s, conversation, mode);
      match outcome
      case NoSession => Finish(begun, t, Failed)
      case FailedWith(r, st) => Finish(IndexSession(begun, t, r, st), t, Failed)
      case AcceptedWith(r, st) => Publish(Accept(IndexSession(begun, t, r, st), t), t, Activity)
  }

  /** Publishing a turn's ending and finishing the turn. */
  function End(s: State, t: nat, e: Event, state: ConversationState): State
    requires t < |s.turns|
  {
    Finish(Publish(s, t, e), t, state)
  }

  function Stop(s: State, conversation: string, interrupted: bool): State {
    if conversation in s.byConversation && s.byConversation[conversation] < |s.turns| && interrupted
    then End(s, s.byConversation[conversation], StoppedEvent, Stopped)
    else s
  }

  function Respond(s: State, conversation: string, requestID: string, delivered: bool): State {
    if && conversation in s.byConversation && s.byConversation[conversation] < |s.turns|
       && conversation in s.clarifications && s.clarifications[conversation] == requestID && delivered
    then Publish(Answer(s, conversation), s.byConversation[conversation], Activity)
    else s
  }

  // ---------------------------------------------------------------- gateway events

  /** A gateway event with its payload decoded; `decoded` is false when the payload is not JSON of
      the expected shape. */
  datatype GatewayEvent =
    | TextEvent(decoded: bool, interim: bool, alreadyStreamed: bool, text: GoString)
    | MessageComplete(text: GoString, status: string)
    | ToolEvent(decoded: bool, kind: ToolEventKind, name: string, hasResult: bool,
                citations: seq<string>, drafts: seq<string>)
    | ClarifyRequest(decoded: bool, requestID: string, question: GoString)
    | SessionInfo(decoded: bool, storedID: string, saved: bool)
    | GatewayFailure
    | OtherRequest
    | Unknown

  datatype ToolEventKind = ToolStart | ToolProgress | ToolComplete

  predicate ToolAllowed(mode: Mode, name: string) {
    name == "search_viki" || name == "get_viki_page" || name == "get_viki_revision"
    || (name == "apply_viki_draft_changeset" && mode == Edit)
  }

  function PublishCitations(s: State, t: nat, revisions: seq<string>): (s': State)
    requires t < |s.turns|
    ensures WorksOn(s, s', t)
    decreases |revisions|
  {
    if revisions == [] then s
    else if revisions[0] in s.turns[t].citations then PublishCitations(s, t, revisions[1..])
    else
      var noted := s.(turns := s.turns[t := s.turns[t].(citations := s.turns[t].citations + {revisions[0]})]);
      PublishCitations(Publish(noted, t, CitationFound(revisions[0])), t, revisions[1..])
  }

  function PublishDrafts(s: State, t: nat, revisions: seq<string>): (s': State)
    requires t < |s.turns|
    ensures WorksOn(s, s', t)
    decreases |revisions|
  {
    if revisions == [] then s
    else if revisions[0] in s.turns[t].drafts then PublishDrafts(s, t, revisions[1..])
    else
      var noted := s.(turns := s.turns[t := s.turns[t].(drafts := s.turns[t].drafts + {revisions[0]})]);
      PublishDrafts(Publish(noted, t, DraftCreated(revisions[0])), t, revisions[1..])
  }

  function FailClosed(s: State, t: nat): State
    requires t < |s.turns|
  {
    End(s, t, ErrorEvent, Failed)
  }

  function HandleTool(s: State, t: nat, e: GatewayEvent): State
    requires t < |s.turns| && e.ToolEvent?
  {
    if !e.decoded || (e.name == "" && e.kind.ToolProgress?) || e.name == "clarify" then s
    else if !ToolAllowed(s.turns[t].mode, e.name) then FailClosed(s, t)
    else
      var active := Publish(s, t, Activity);
      if !e.kind.ToolComplete? || !e.hasResult then active
      else if e.name == "apply_viki_draft_changeset" then PublishDrafts(active, t, e.drafts)
      else PublishCitations(active, t, e.citations)
  }

  /** The filter's flush: what it still holds outside a block is shown. */
  function FlushFilter(s: State, t: nat): (s': State)
    requires t < |s.turns|
    ensures WorksOn(s, s', t)
  {
    var turn := s.turns[t];
    PublishText(s.(turns := s.turns[t := turn.(buffer := "")]), t, if turn.inside then "" else turn.buffer)
  }

  /** The stripped final text is shown only if nothing was shown before. */
  function ShowFinalText(s: State, t: nat, text: GoString, stripped: GoString): (s': State)
    requires t < |s.turns|
    ensures WorksOn(s, s', t)
  {
    var noted := s.(turns := s.turns[t := s.turns[t].(finalText := Some(text))]);
    if stripped != "" && !s.turns[t].hadDelta then Publish(noted, t, MessageDelta(stripped)) else noted
  }

  function HandleComplete(s: State, t: nat, text: GoString, status: string): State
    requires t < |s.turns|
  {
    var shown := ShowFinalText(FlushFilter(s, t), t, text, TrimSpace(Strip(text)));
    if status == "interrupted" then End(shown, t, StoppedEvent, Stopped)
    else if status == "error" then End(shown, t, ErrorEvent, Failed)
    else End(shown, t, CompletedEvent, Idle)
  }

  function HandleSessionInfo(s: State, t: nat, e: GatewayEvent): State
    requires t < |s.turns| && e.SessionInfo?
  {
    if e.decoded && e.storedID != "" && e.storedID != s.turns[t].storedID && e.saved
    then Rotate(s, t, e.storedID) else s
  }

  function HandleClarify(s: State, t: nat, e: GatewayEvent): State
    requires t < |s.turns| && e.ClarifyRequest?
  {
    if !e.decoded || e.requestID == "" || TrimSpace(e.question) == "" then FailClosed(s, t)
    else Publish(Ask(s, t, e.requestID), t, ClarificationAsked(e.requestID))
  }

  function HandleActive(s: State, t: nat, e: GatewayEvent): State
    requires t < |s.turns|
  {
    match e
    case TextEvent(decoded, interim, streamed, text) =>
      if !decoded || (interim && streamed) then s else FeedText(s, t, text)
    case MessageComplete(text, status) => HandleComplete(s, t, text, status)
    case ToolEvent(_, _, _, _, _, _) => HandleTool(s, t, e)
    case ClarifyRequest(_, _, _) => HandleClarify(s, t, e)
    case SessionInfo(_, _, _) => HandleSessionInfo(s, t, e)
    case GatewayFailure => End(s, t, ErrorEvent, Failed)
    case OtherRequest => FailClosed(s, t)
    case Unknown => s
  }

  /** A finished turn is still found for a while, but only to follow a session rotation. */
  function HandleGatewayEvent(s: State, mode: Mode, sessionID: string, e: GatewayEvent): State {
    var key := (mode, sessionID);
    if key in s.byRuntime then
      if s.byRuntime[key] < |s.turns| then HandleActive(s, s.byRuntime[key], e) else s
    else if key in s.recent && s.recent[key] < |s.turns| && e.SessionInfo? then
      HandleSessionInfo(s, s.recent[key], e)
    else s
  }

  // ---------------------------------------------------------------- reconnect

  datatype ResumeOutcome =
    | ResumeFailed
    | Resumed(runtimeID: string, storedID: string, saved: bool, status: SessionStatus)

  datatype SessionStatus = StatusUnknown | StillRunning | NotRunning

  function ReconcileTurn(s: State, t: nat, outcome: ResumeOutcome): (s': State)
    requires t < |s.turns|
    ensures |s'.turns| == |s.turns|
  {
    match outcome
    case ResumeFailed => End(s, t, ErrorEvent, Failed)
    case Resumed(runtimeID, storedID, saved, status) =>
      var bound := Rebind(s, t, runtimeID);
      var rotated := if storedID != "" && storedID != bound.turns[t].storedID && saved
                     then Rotate(bound, t, storedID) else bound;
      match status
      case StatusUnknown => End(rotated, t, ErrorEvent, Failed)
      case NotRunning => End(rotated, t, CompletedEvent, Idle)
      case StillRunning => rotated
  }

  /** A turn of the mode with the outcome of resuming its session. */
  datatype Resumption = Resumption(turn: nat, outcome: ResumeOutcome)

  function ReconcileTurns(s: State, rs: seq<Resumption>): State
    decreases |rs|
  {
    if rs == [] || rs[0].turn >= |s.turns| then s
    else ReconcileTurns(ReconcileTurn(s, rs[0].turn, rs[0].outcome), rs[1..])
  }

  /** `rs` lists active turns of the mode, each once, in the order a map iteration yields them. */
  predicate ActiveOnce(s: State, mode: Mode, rs: seq<Resumption>) {
    && (forall i :: 0 <= i < |rs| ==>
          rs[i].turn < |s.turns| && !s.turns[rs[i].turn].finalized && s.turns[rs[i].turn].mode == mode)
    && forall i, j :: 0 <= i < j < |rs| ==> rs[i].turn != rs[j].turn
  }

  // ---------------------------------------------------------------- runs

  datatype Operation =
    | SubmitOp(conversation: string, mode: Mode, content: GoString, outcome: SubmitOutcome)
    | StopOp(conversation: string, interrupted: bool)
    | RespondOp(conversation: string, requestID: string, delivered: bool)
    | GatewayOp(mode: Mode, sessionID: string, event: GatewayEvent)
    | ReconcileOp(mode: Mode, resumptions: seq<Resumption>)
    | ForgetOp(key: SessionKey)

  function Step(s: State, op: Operation): State {
    match op
    case SubmitOp(c, m, content, outcome) => Submit(s, c, m, content, outcome)
    case StopOp(c, ok) => Stop(s, c, ok)
    case RespondOp(c, q, ok) => Respond(s, c, q, ok)
    case GatewayOp(m, id, e) => HandleGatewayEvent(s, m, id, e)
    case ReconcileOp(m, rs) => if ActiveOnce(s, m, rs) then ReconcileTurns(s, rs) else s
    case ForgetOp(k) => Forget(s, k)
  }

  function Run(s: State, ops: seq<Operation>): State
    decreases |ops|
  {
    if ops == [] then s else Run(Step(s, ops[0]), ops[1..])
  }
}
