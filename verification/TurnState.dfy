/** The assistant runtime's shared state and its mutex critical sections.

    A turn is known by its position in `turns`; the runtime's maps point at turns. The fields
    `fed`, `events`, `accepted` and `finalText` of a turn and `published` of the state are history:
    the source does not store them, they record what was fed, published and returned. */
module TurnState {
  import opened GoStrings
  import opened Options
  import opened StreamFilter

  datatype Mode = QA | Edit

  datatype ConversationState = Idle | Running | AwaitingClarification | Stopped | Failed

  type SessionKey = (Mode, string)

  datatype Event =
    | Activity
    | MessageDelta(text: GoString)
    | ClarificationAsked(requestID: string)
    | CitationFound(revisionID: string)
    | DraftCreated(revisionID: string)
    | CompletedEvent
    | StoppedEvent
    | ErrorEvent

  predicate IsEnding(e: Event) {
    e.CompletedEvent? || e.StoppedEvent? || e.ErrorEvent?
  }

  datatype Turn = Turn(
    conversation: string, mode: Mode, runtimeID: string, storedID: string,
    buffer: GoString, inside: bool, hadDelta: bool,
    citations: set<string>, drafts: set<string>, finalized: bool,
    accepted: bool, fed: seq<GoString>, events: seq<Event>, finalText: Option<GoString>)

  datatype Published = Published(turn: nat, event: Event)

  datatype State = State(
    turns: seq<Turn>,
    byConversation: map<string, nat>,
    byRuntime: map<SessionKey, nat>,
    byStored: map<SessionKey, nat>,
    recent: map<SessionKey, nat>,
    conversation: map<string, ConversationState>,
    clarifications: map<string, string>,
    published: seq<Published>)

  const INITIAL := State([], map[], map[], map[], map[], map[], map[], [])

  function NewTurn(conversation: string, mode: Mode): Turn {
    Turn(conversation, mode, "", "", "", false, false, {}, {}, false, false, [], [], None)
  }

  /** Everything but beginning and finishing a turn leaves the conversations' turns alone. */
  predicate SameTurns(s: State, s': State) {
    && s'.byConversation == s.byConversation && |s'.turns| == |s.turns|
    && forall t :: 0 <= t < |s.turns| ==>
         s'.turns[t].conversation == s.turns[t].conversation && s'.turns[t].finalized == s.turns[t].finalized
  }

  /** Only turn `t`'s text, receipts and events and the published events change. */
  predicate WorksOn(s: State, s': State, t: nat)
    requires t < |s.turns|
  {
    && s' == s.(turns := s'.turns, published := s'.published) && |s'.turns| == |s.turns|
    && (forall u :: 0 <= u < |s.turns| && u != t ==> s'.turns[u] == s.turns[u])
    && var a, b := s.turns[t], s'.turns[t];
       a.conversation == b.conversation && a.mode == b.mode && a.runtimeID == b.runtimeID
       && a.storedID == b.storedID && a.finalized == b.finalized && a.accepted == b.accepted
  }

  // ---------------------------------------------------------------- critical sections

  /** `submit`, lines 168-176: refused while the conversation has an active turn. */
  function Begin(s: State, conversation: string, mode: Mode): State {
    if conversation in s.byConversation then s
    else
      s.(turns := s.turns + [NewTurn(conversation, mode)],
         byConversation := s.byConversation[conversation := |s.turns|],
         conversation := s.conversation[conversation := Running],
         clarifications := s.clarifications - {conversation})
  }

  /** `submit`, lines 190-195. */
  function IndexSession(s: State, t: nat, runtimeID: string, storedID: string): (s': State)
    requires t < |s.turns|
    ensures SameTurns(s, s')
  {
    var turn := s.turns[t];
    s.(turns := s.turns[t := turn.(runtimeID := runtimeID, storedID := storedID)],
       byRuntime := s.byRuntime[(turn.mode, runtimeID) := t],
       byStored := s.byStored[(turn.mode, storedID) := t])
  }

  /** `finishTurn`. */
  function Finish(s: State, t: nat, state: ConversationState): State
    requires t < |s.turns|
  {
    var turn := s.turns[t];
    if turn.finalized then s
    else
      var current := turn.conversation in s.byConversation && s.byConversation[turn.conversation] == t;
      s.(turns := s.turns[t := turn.(finalized := true)],
         byConversation := if current then s.byConversation - {turn.conversation} else s.byConversation,
         byRuntime := s.byRuntime - {(turn.mode, turn.runtimeID)},
         byStored := s.byStored - {(turn.mode, turn.storedID)},
         clarifications := s.clarifications - {turn.conversation},
         conversation := s.conversation[turn.conversation := state],
         recent := if turn.runtimeID != "" then s.recent[(turn.mode, turn.runtimeID) := t] else s.recent)
  }

  /** `rotateStoredSession`, lines 521-528, after the repository has stored the new session. */
  function Rotate(s: State, t: nat, storedID: string): (s': State)
    requires t < |s.turns|
    ensures SameTurns(s, s')
  {
    var turn := s.turns[t];
    var current := turn.conversation in s.byConversation && s.byConversation[turn.conversation] == t;
    var kept := s.byStored - {(turn.mode, turn.storedID)};
    s.(turns := s.turns[t := turn.(storedID := storedID)],
       byStored := if current then kept[(turn.mode, storedID) := t] else kept)
  }

  /** `reconcileProfile`, lines 556-561. */
  function Rebind(s: State, t: nat, runtimeID: string): (s': State)
    requires t < |s.turns|
    ensures SameTurns(s, s')
  {
    var turn := s.turns[t];
    s.(turns := s.turns[t := turn.(runtimeID := runtimeID)],
       byRuntime := (s.byRuntime - {(turn.mode, turn.runtimeID)})[(turn.mode, runtimeID) := t])
  }

  /** `handleGatewayEvent`, lines 400-403. */
  function Ask(s: State, t: nat, requestID: string): (s': State)
    requires t < |s.turns|
    ensures SameTurns(s, s')
  {
    var c := s.turns[t].conversation;
    s.(clarifications := s.clarifications[c := requestID],
       conversation := s.conversation[c := AwaitingClarification])
  }

  /** `respondClarification`, lines 288-291. */
  function Answer(s: State, conversation: string): State {
    s.(clarifications := s.clarifications - {conversation},
       conversation := s.conversation[conversation := Running])
  }

  /** The retention timer of a finished turn. */
  function Forget(s: State, key: SessionKey): State {
    s.(recent := s.recent - {key})
  }

  // ---------------------------------------------------------------- work on one turn

  function Emit(turn: Turn, e: Event): Turn {
    turn.(events := turn.events + [e])
  }

  /** The turn's filter after being fed `text`. */
  function Absorb(turn: Turn, d: Drained, text: GoString): Turn {
    turn.(buffer := d.buffer, inside := d.inside, fed := turn.fed + [text])
  }

  /** Publishing an event of turn `t` on its conversation's stream. */
  function Publish(s: State, t: nat, e: Event): (s': State)
    requires t < |s.turns|
    ensures WorksOn(s, s', t)
  {
    s.(turns := s.turns[t := Emit(s.turns[t], e)], published := s.published + [Published(t, e)])
  }

  /** `handleGatewayEvent`, lines 348-354: the filter's output is published unless it is empty. */
  function FeedText(s: State, t: nat, text: GoString): (s': State)
    requires t < |s.turns|
    ensures WorksOn(s, s', t)
  {
    var d := Drain(s.turns[t].buffer + text, s.turns[t].inside);
    PublishText(s.(turns := s.turns[t := Absorb(s.turns[t], d, text)]), t, d.output)
  }

  function ShowText(turn: Turn, text: GoString): Turn {
    if text == "" then turn else Emit(turn.(hadDelta := true), MessageDelta(text))
  }

  function PublishText(s: State, t: nat, text: GoString): (s': State)
    requires t < |s.turns|
    ensures WorksOn(s, s', t)
    ensures s'.turns[t] == ShowText(s.turns[t], text)
  {
    if text == "" then s
    else Publish(s.(turns := s.turns[t := s.turns[t].(hadDelta := true)]), t, MessageDelta(text))
  }

  // ---------------------------------------------------------------- one unfinalised turn, at section granularity

  /** Each conversation's entry is its one unfinalised turn. */
  ghost predicate OneTurnEach(s: State) {
    && (forall c :: c in s.byConversation ==> s.byConversation[c] < |s.turns| && s.turns[s.byConversation[c]].conversation == c)
    && (forall t :: 0 <= t < |s.turns| ==>
          (!s.turns[t].finalized <==>
             s.turns[t].conversation in s.byConversation && s.byConversation[s.turns[t].conversation] == t))
  }

  /** Any critical section, with whatever turn a racing operation may still hold. */
  datatype Section =
    | BeginSection(conversation: string, mode: Mode)
    | IndexSection(turn: nat, runtimeID: string, storedID: string)
    | FinishSection(turn: nat, state: ConversationState)
    | RotateSection(turn: nat, storedID: string)
    | RebindSection(turn: nat, runtimeID: string)
    | AskSection(turn: nat, requestID: string)
    | AnswerSection(conversation: string)
    | ForgetSection(key: SessionKey)
    | PublishSection(turn: nat, event: Event)
    | FeedSection(turn: nat, text: GoString)

  function RunSection(s: State, x: Section): State {
    match x
    case BeginSection(c, m) => Begin(s, c, m)
    case IndexSection(t, r, st) => if t < |s.turns| then IndexSession(s, t, r, st) else s
    case FinishSection(t, state) => if t < |s.turns| then Finish(s, t, state) else s
    case RotateSection(t, st) => if t < |s.turns| then Rotate(s, t, st) else s
    case RebindSection(t, r) => if t < |s.turns| then Rebind(s, t, r) else s
    case AskSection(t, q) => if t < |s.turns| then Ask(s, t, q) else s
    case AnswerSection(c) => Answer(s, c)
    case ForgetSection(k) => Forget(s, k)
    case PublishSection(t, e) => if t < |s.turns| then Publish(s, t, e) else s
    case FeedSection(t, text) => if t < |s.turns| then FeedText(s, t, text) else s
  }

  function RunSections(s: State, xs: seq<Section>): State
    decreases |xs|
  {
    if xs == [] then s else RunSections(RunSection(s, xs[0]), xs[1..])
  }

  lemma OtherSectionsKeepTurns(s: State, x: Section)
    requires !x.BeginSection? && !x.FinishSection?
    ensures SameTurns(s, RunSection(s, x))
  {
    hide FeedText, Publish;
  }

  lemma BeginKeepsOneTurnEach(s: State, conversation: string, mode: Mode)
    requires OneTurnEach(s)
    ensures OneTurnEach(Begin(s, conversation, mode))
  {
  }

  lemma FinishKeepsOneTurnEach(s: State, t: nat, state: ConversationState)
    requires OneTurnEach(s) && t < |s.turns|
    ensures OneTurnEach(Finish(s, t, state))
  {
  }

  lemma SectionKeepsOneTurnEach(s: State, x: Section)
    requires OneTurnEach(s)
    ensures OneTurnEach(RunSection(s, x))
  {
    match x
    case BeginSection(c, m) => BeginKeepsOneTurnEach(s, c, m);
    case FinishSection(t, state) => if t < |s.turns| { FinishKeepsOneTurnEach(s, t, state); }
    case _ =>
      hide RunSection;
      OtherSectionsKeepTurns(s, x);
  }

  function StoredKey(turn: Turn): SessionKey {
    (turn.mode, turn.storedID)
  }

  /** However operations interleave between their critical sections, no conversation ever has two
      unfinalised turns. */
  lemma {:induction false} NeverTwoUnfinalisedTurns(s: State, xs: seq<Section>)
    requires OneTurnEach(s)
    ensures OneTurnEach(RunSections(s, xs))
    ensures var turns := RunSections(s, xs).turns;
            forall t, u | 0 <= t < u < |turns| && !turns[t].finalized && !turns[u].finalized ::
              turns[t].conversation != turns[u].conversation
    decreases |xs|
  {
    if xs != [] {
      SectionKeepsOneTurnEach(s, xs[0]);
      NeverTwoUnfinalisedTurns(RunSection(s, xs[0]), xs[1..]);
    }
  }
}
