/** From the gateway's history to the messages shown: receipts of tools are gathered and land on the
    assistant message that follows them in the same turn. */
module HistoryReceipts {
  import opened GoStrings
  import opened Options
  import opened Collections
  import opened TurnState
  import opened TurnOps
  import opened StripMarkers

  /** A citation or a draft. */
  datatype Receipt = Receipt(revisionID: GoString, pageID: GoString, title: GoString)

  /** What a tool returned; `None` if it returned nothing readable. */
  datatype Found = Found(citations: seq<Receipt>, drafts: seq<Receipt>)

  datatype Kind = Citations | Drafts

  datatype Heard =
    | FromTool(name: GoString, found: Option<Found>)
    | FromUser(text: GoString)
    | FromAssistant(text: GoString)
    | FromOther

  datatype Prompt = Prompt(turnID: GoString, timestamp: int, mode: Mode, visible: GoString)

  datatype Role = User | Assistant

  /** Times are in nanoseconds. */
  datatype Message = Message(
    id: GoString, role: Role, mode: Mode, content: GoString, citations: seq<Receipt>, drafts: seq<Receipt>, createdAt: int)

  /** The profile read, the fallback time, and how signed prompts are opened. */
  datatype Context = Context(mode: Mode, fallback: int, open: GoString -> Option<Prompt>)

  type Table = map<GoString, Receipt>

  const MILLISECOND: int := 1_000_000
  const FOUND_SOURCES: GoString := "Na" + [0xC5 as char, 0xA1 as char] + "iel som podklady vo viki."
  const MADE_DRAFTS: GoString := "Vytvoril som drafty vo viki."

  function ModeName(mode: Mode): GoString {
    if mode == QA then "qa" else "edit"
  }

  // ---------------------------------------------------------------- receipt tables

  function RevisionID(r: Receipt): GoString { r.revisionID }

  predicate Complete(r: Receipt) {
    r.revisionID != "" && r.pageID != ""
  }

  /** The table after noting a list; a later receipt for a revision replaces an earlier one. */
  function Noted(table: Table, list: seq<Receipt>): Table {
    if list == [] then table
    else
      var before, last := Noted(table, list[..|list| - 1]), list[|list| - 1];
      if Complete(last) then before[last.revisionID := last] else before
  }

  ghost predicate Keyed(table: Table) {
    forall k :: k in table ==> table[k].revisionID == k && Complete(table[k])
  }

  /** The receipts of a table, each once, in the order of their revisions. */
  ghost predicate IsListing(table: Table, list: seq<Receipt>) {
    Elements(list) == table.Values && Increasing(list, RevisionID)
  }

  lemma {:induction false} NotedIsKeyed(table: Table, list: seq<Receipt>)
    requires Keyed(table)
    ensures Keyed(Noted(table, list)) && table.Keys <= Noted(table, list).Keys
  {
    if list != [] {
      NotedIsKeyed(table, list[..|list| - 1]);
    }
  }

  lemma ListingIsUnique(table: Table, a: seq<Receipt>, b: seq<Receipt>)
    requires IsListing(table, a) && IsListing(table, b)
    ensures a == b
  {
    IncreasingIsUnique(a, b, RevisionID);
  }

  /** `sortedCitations` and `sortedDraftReceipts`. */
  method ListTable(table: Table) returns (list: seq<Receipt>)
    requires Keyed(table)
    ensures IsListing(table, list)
  {
    var rest := table.Keys;
    list := [];
    while rest != {}
      invariant rest <= table.Keys
      invariant forall r :: r in list <==> exists k :: k in table && k !in rest && table[k] == r
      invariant DistinctBy(list, RevisionID)
      decreases rest
    {
      var k :| k in rest;
      AppendedIsDistinct(table, rest, list, k);
      list := list + [table[k]];
      rest := rest - {k};
    }
    assert Elements(list) == table.Values;
    SortIsIncreasing(list, RevisionID);
    list := Sort(list, RevisionID);
  }

  lemma AppendedIsDistinct(table: Table, rest: set<GoString>, list: seq<Receipt>, k: GoString)
    requires Keyed(table) && k in rest && rest <= table.Keys && DistinctBy(list, RevisionID)
    requires forall r :: r in list <==> exists k :: k in table && k !in rest && table[k] == r
    ensures DistinctBy(list + [table[k]], RevisionID)
  {
    forall i | 0 <= i < |list|
      ensures RevisionID(list[i]) != RevisionID(table[k])
    {
      assert list[i] in list;
    }
  }

  lemma {:induction false} SomeOrder(values: set<Receipt>) returns (list: seq<Receipt>)
    ensures Elements(list) == values && Distinct(list)
    decreases values
  {
    if values == {} {
      return [];
    }
    var r :| r in values;
    var rest := SomeOrder(values - {r});
    list := rest + [r];
    assert r !in Elements(rest) && Elements(list) == Elements(rest) + {r};
  }

  lemma ListingExists(table: Table) returns (list: seq<Receipt>)
    requires Keyed(table)
    ensures IsListing(table, list)
  {
    var some := SomeOrder(table.Values);
    forall i, j | 0 <= i < j < |some|
      ensures RevisionID(some[i]) != RevisionID(some[j])
    {
      assert some[i] in Elements(some) && some[j] in Elements(some);
    }
    SortIsIncreasing(some, RevisionID);
    list := Sort(some, RevisionID);
  }

  ghost function Listing(table: Table): (list: seq<Receipt>)
    requires Keyed(table)
    ensures IsListing(table, list)
  {
    ListingOf(table);
    var list :| IsListing(table, list);
    list
  }

  lemma ListingOf(table: Table)
    requires Keyed(table)
    ensures exists list :: IsListing(table, list)
  {
    var list := ListingExists(table);
  }

  // ---------------------------------------------------------------- reading a history

  datatype Reading = Reading(
    messages: seq<Message>, turn: GoString, timestamp: int, mode: Mode, index: nat, citations: Table, drafts: Table)

  ghost predicate Kept(r: Reading) {
    Keyed(r.citations) && Keyed(r.drafts)
  }

  predicate NothingPending(r: Reading) {
    r.citations == map[] && r.drafts == map[]
  }

  function ReceiptText(drafts: Table): GoString {
    if drafts != map[] then MADE_DRAFTS else FOUND_SOURCES
  }

  /** The message a reading would show now. */
  ghost function Spoken(r: Reading, id: GoString, role: Role, content: GoString): Message
    requires Kept(r)
  {
    Message(id, role, r.mode, content, Listing(r.citations), Listing(r.drafts), r.timestamp + r.index)
  }

  /** Receipts left over at the end of a turn get a message of their own. */
  ghost function FlushedMessages(r: Reading): seq<Message>
    requires Kept(r)
  {
    if r.turn == "" || NothingPending(r) then []
    else [Spoken(r.(index := r.index + 1), r.turn + "-assistant-receipt", Assistant, ReceiptText(r.drafts))]
  }

  /** `flushReceipts`. */
  ghost function Flushed(r: Reading): (f: Reading)
    requires Kept(r)
    ensures Kept(f)
  {
    if r.turn == "" || NothingPending(r) then r
    else r.(messages := r.messages + FlushedMessages(r), index := r.index + 1, citations := map[], drafts := map[])
  }

  /** The turn a user's text begins, and the text itself without its frame. */
  function Opened(x: Context, text: GoString, i: nat): Prompt {
    match x.open(text)
    case Some(p) => p
    case None => Prompt(ModeName(x.mode) + "-legacy-" + Decimal(i), x.fallback + i * MILLISECOND, x.mode, text)
  }

  function AssistantID(r: Reading): GoString {
    r.turn + "-assistant" + if r.index > 1 then "-" + Decimal(r.index) else ""
  }

  /** A text shown by a user or the assistant; a blank one is shown only to carry receipts. */
  ghost function ShownMessages(r: Reading, id: GoString, role: Role, text: GoString): seq<Message>
    requires Kept(r)
  {
    var content := TrimSpace(Strip(text));
    if content == "" && NothingPending(r) then []
    else [Spoken(r, id, role, if content == "" then ReceiptText(r.drafts) else content)]
  }

  /** The assistant's message takes what is pending. */
  ghost function Shown(r: Reading, id: GoString, role: Role, text: GoString): (s: Reading)
    requires Kept(r)
    ensures Kept(s)
  {
    var s := r.(messages := r.messages + ShownMessages(r, id, role, text));
    if role.Assistant? then s.(citations := map[], drafts := map[]) else s
  }

  function Begun(r: Reading, p: Prompt): Reading {
    r.(turn := p.turnID, timestamp := p.timestamp, mode := p.mode, index := 0)
  }

  function Next(r: Reading): Reading {
    r.(index := r.index + 1)
  }

  ghost function HearTool(r: Reading, name: GoString, found: Option<Found>): (s: Reading)
    requires Kept(r)
    ensures Kept(s)
  {
    if r.turn == "" || found.None? || !ToolAllowed(r.mode, name) then r
    else
      NotedIsKeyed(r.citations, found.value.citations);
      NotedIsKeyed(r.drafts, found.value.drafts);
      r.(citations := Noted(r.citations, found.value.citations), drafts := Noted(r.drafts, found.value.drafts))
  }

  ghost function HearUser(r: Reading, p: Prompt): (s: Reading)
    requires Kept(r)
    ensures Kept(s)
  {
    Shown(Begun(Flushed(r), p), p.turnID + "-user", User, p.visible)
  }

  ghost function HearAssistant(r: Reading, text: GoString): (s: Reading)
    requires Kept(r)
    ensures Kept(s)
  {
    Shown(Next(r), AssistantID(Next(r)), Assistant, text)
  }

  ghost function Hear(x: Context, r: Reading, i: nat, m: Heard): (s: Reading)
    requires Kept(r)
    ensures Kept(s)
  {
    match m
    case FromTool(name, found) => HearTool(r, name, found)
    case FromUser(text) => HearUser(r, Opened(x, text, i))
    case FromAssistant(text) => HearAssistant(r, text)
    case FromOther => r
  }

  ghost function ReadHistory(x: Context, history: seq<Heard>): (r: Reading)
    ensures Kept(r)
  {
    if history == [] then Reading([], "", x.fallback, x.mode, 0, map[], map[])
    else Hear(x, ReadHistory(x, history[..|history| - 1]), |history| - 1, history[|history| - 1])
  }

  /** `visibleHistory`. */
  ghost function VisibleHistory(x: Context, history: seq<Heard>): seq<Message> {
    Flushed(ReadHistory(x, history)).messages
  }

  // ---------------------------------------------------------------- turns and windows

  predicate Speaks(m: Heard) {
    m.FromUser? || m.FromAssistant?
  }

  /** The turn a history ends in: the one its last user text began. */
  function TurnAt(x: Context, history: seq<Heard>): Prompt {
    if history == [] then Prompt("", x.fallback, x.mode, "")
    else
      var last := history[|history| - 1];
      if last.FromUser? then Opened(x, last.text, |history| - 1) else TurnAt(x, history[..|history| - 1])
  }

  /** Does this message bring receipts: a tool the turn allows, with a readable result? */
  predicate Brings(x: Context, history: seq<Heard>, m: Heard) {
    m.FromTool? && m.found.Some? && TurnAt(x, history).turnID != "" && ToolAllowed(TurnAt(x, history).mode, m.name)
  }

  datatype Window = Window(citations: Table, drafts: Table)

  /** The receipts brought since somebody last spoke. */
  function WindowAt(x: Context, history: seq<Heard>): Window {
    if history == [] then Window(map[], map[])
    else
      var front, last := history[..|history| - 1], history[|history| - 1];
      if Speaks(last) then Window(map[], map[])
      else if Brings(x, front, last) then
        Window(Noted(WindowAt(x, front).citations, last.found.value.citations), Noted(WindowAt(x, front).drafts, last.found.value.drafts))
      else WindowAt(x, front)
  }

  lemma {:induction false} NoTurnNoWindow(x: Context, history: seq<Heard>)
    requires TurnAt(x, history).turnID == ""
    ensures WindowAt(x, history) == Window(map[], map[])
  {
    if history != [] && !Speaks(history[|history| - 1]) {
      NoTurnNoWindow(x, history[..|history| - 1]);
    }
  }

  /** A reading has this window pending, in this turn. */
  predicate Pends(r: Reading, t: Prompt, w: Window) {
    && r.citations == w.citations && r.drafts == w.drafts
    && r.turn == t.turnID && r.timestamp == t.timestamp && r.mode == t.mode
  }

  lemma UserTakesPending(r: Reading, t: Prompt, w: Window, p: Prompt)
    requires Kept(r) && Pends(r, t, w) && (t.turnID == "" ==> w == Window(map[], map[]))
    ensures Pends(HearUser(r, p), p, Window(map[], map[]))
  {
    hide ShownMessages, FlushedMessages, Keyed;
  }

  lemma AssistantTakesPending(r: Reading, t: Prompt, w: Window, text: GoString)
    requires Kept(r) && Pends(r, t, w)
    ensures Pends(HearAssistant(r, text), t, Window(map[], map[]))
  {
    hide ShownMessages, Keyed;
  }

  /** What a reading has pending is the window, and it is in the turn the history ends in. */
  lemma {:induction false} PendingIsWindow(x: Context, history: seq<Heard>)
    ensures Pends(ReadHistory(x, history), TurnAt(x, history), WindowAt(x, history))
    ensures TurnAt(x, history).turnID == "" ==> WindowAt(x, history) == Window(map[], map[])
  {
    hide Opened, ToolAllowed, HearUser, HearAssistant, Noted, Keyed;
    if TurnAt(x, history).turnID == "" {
      NoTurnNoWindow(x, history);
    }
    if history != [] {
      var front, last := history[..|history| - 1], history[|history| - 1];
      PendingIsWindow(x, front);
      var r, t, w := ReadHistory(x, front), TurnAt(x, front), WindowAt(x, front);
      match last
      case FromUser(text) => UserTakesPending(r, t, w, Opened(x, text, |history| - 1));
      case FromAssistant(text) => AssistantTakesPending(r, t, w, text);
      case _ =>
    }
  }

  /** The messages shown when a history's last element is heard. */
  ghost function Emitted(x: Context, history: seq<Heard>): seq<Message>
    requires history != []
  {
    var r := ReadHistory(x, history[..|history| - 1]);
    match history[|history| - 1]
    case FromUser(text) =>
      var p := Opened(x, text, |history| - 1);
      FlushedMessages(r) + ShownMessages(Begun(Flushed(r), p), p.turnID + "-user", User, p.visible)
    case FromAssistant(text) => ShownMessages(Next(r), AssistantID(Next(r)), Assistant, text)
    case _ => []
  }

  /** A message of the assistant in a turn: its id is built from the turn's. */
  predicate AnswersIn(m: Message, turn: GoString) {
    m.role.Assistant? && HasPrefix(m.id, turn + "-assistant")
  }

  /** A list of messages of which exactly one carries a window, an assistant's in the given turn; no other
      carries anything. */
  ghost predicate Carries(messages: seq<Message>, turn: GoString, w: Window) {
    && Keyed(w.citations) && Keyed(w.drafts)
    && (forall i :: 0 <= i < |messages| && messages[i].role.User? ==> messages[i].citations == [] && messages[i].drafts == [])
    && (forall i :: 0 <= i < |messages| && messages[i].role.Assistant? ==>
          AnswersIn(messages[i], turn) && messages[i].citations == Listing(w.citations) && messages[i].drafts == Listing(w.drafts))
    && (forall i, j :: 0 <= i < j < |messages| ==> messages[i].role.User? || messages[j].role.User?)
    && (w != Window(map[], map[]) ==> exists i :: 0 <= i < |messages| && messages[i].role.Assistant?)
  }

  lemma EmptyListing()
    ensures Keyed(map[]) && Listing(map[]) == []
  {
    var none: Table := map[];
    NoElements(Listing(none));
  }

  lemma FlushCarries(r: Reading, w: Window)
    requires Kept(r) && r.citations == w.citations && r.drafts == w.drafts && (r.turn == "" ==> NothingPending(r))
    ensures Carries(FlushedMessages(r), r.turn, w) && Flushed(r).messages == r.messages + FlushedMessages(r) && NothingPending(Flushed(r))
    ensures |FlushedMessages(r)| == if w == Window(map[], map[]) then 0 else 1
    ensures forall m :: m in FlushedMessages(r) ==> m.role.Assistant?
  {
    hide Listing, Keyed, Carries, HasPrefix;
    if NothingPending(r) {
      NothingCarries(r.turn, w);
    } else {
      PrefixOf(r.turn + "-assistant", "-receipt");
      assert r.turn + "-assistant-receipt" == r.turn + "-assistant" + "-receipt";
      OneCarries(FlushedMessages(r)[0], r.turn, w);
    }
  }

  lemma PrefixOf(s: GoString, u: GoString)
    ensures HasPrefix(s + u, s)
  {
  }

  lemma NothingCarries(turn: GoString, w: Window)
    requires w == Window(map[], map[])
    ensures Carries([], turn, w)
  {
  }

  lemma OneCarries(m: Message, turn: GoString, w: Window)
    requires Keyed(w.citations) && Keyed(w.drafts) && AnswersIn(m, turn)
    requires m.citations == Listing(w.citations) && m.drafts == Listing(w.drafts)
    ensures Carries([m], turn, w)
  {
    hide Listing, Keyed, HasPrefix;
    assert [m][0].role.Assistant?;
  }

  lemma AssistantCarries(r: Reading, w: Window, text: GoString)
    requires Kept(r) && r.citations == w.citations && r.drafts == w.drafts
    ensures Carries(ShownMessages(r, AssistantID(r), Assistant, text), r.turn, w)
  {
    hide Listing, Keyed, Carries, Strip, TrimSpace, HasPrefix;
    var shown := ShownMessages(r, AssistantID(r), Assistant, text);
    if shown == [] {
      NothingCarries(r.turn, w);
    } else {
      PrefixOf(r.turn + "-assistant", if r.index > 1 then "-" + Decimal(r.index) else "");
      OneCarries(shown[0], r.turn, w);
    }
  }

  lemma UserCarriesNothing(r: Reading, id: GoString, text: GoString)
    requires Kept(r) && NothingPending(r)
    ensures |ShownMessages(r, id, User, text)| <= 1
    ensures forall m :: m in ShownMessages(r, id, User, text) ==> m.role.User? && m.citations == [] && m.drafts == []
  {
    hide Strip, TrimSpace;
    EmptyListing();
  }

  lemma UserAddsNothing(a: seq<Message>, b: seq<Message>, turn: GoString, w: Window)
    requires Carries(a, turn, w) && forall m :: m in b ==> m.role.User? && m.citations == [] && m.drafts == []
    ensures Carries(a + b, turn, w)
  {
    hide Listing, Keyed, HasPrefix;
    forall i | 0 <= i < |a + b|
      ensures i >= |a| ==> (a + b)[i] in b
    {
    }
    if w != Window(map[], map[]) {
      var i :| 0 <= i < |a| && a[i].role.Assistant?;
      assert (a + b)[i].role.Assistant?;
    }
  }

  /** Hearing anything only appends: when somebody speaks, a message of the turn so far takes the whole
      window, and nobody else shows anything. */
  lemma ReceiptsLandOnTheNextSpeaker(x: Context, history: seq<Heard>)
    requires history != []
    ensures var front := history[..|history| - 1];
            && ReadHistory(x, history).messages == ReadHistory(x, front).messages + Emitted(x, history)
            && if Speaks(history[|history| - 1]) then Carries(Emitted(x, history), TurnAt(x, front).turnID, WindowAt(x, front))
               else Emitted(x, history) == []
  {
    hide Opened, ToolAllowed, Listing, WindowAt, TurnAt, Noted, ShownMessages, FlushedMessages, Carries, Flushed, Keyed;
    var front := history[..|history| - 1];
    PendingIsWindow(x, front);
    var r, w := ReadHistory(x, front), WindowAt(x, front);
    match history[|history| - 1]
    case FromUser(text) =>
      var p := Opened(x, text, |history| - 1);
      FlushCarries(r, w);
      UserCarriesNothing(Begun(Flushed(r), p), p.turnID + "-user", p.visible);
      UserAddsNothing(FlushedMessages(r), ShownMessages(Begun(Flushed(r), p), p.turnID + "-user", User, p.visible), r.turn, w);
    case FromAssistant(text) => AssistantCarries(Next(r), w, text);
    case _ =>
  }

  /** At the end the receipts still pending get one message of their own, if there are any. */
  lemma LastReceiptsAreShown(x: Context, history: seq<Heard>)
    ensures var r, w := ReadHistory(x, history), WindowAt(x, history);
            && VisibleHistory(x, history) == r.messages + FlushedMessages(r)
            && Carries(FlushedMessages(r), TurnAt(x, history).turnID, w)
            && |FlushedMessages(r)| == if w == Window(map[], map[]) then 0 else 1
  {
    hide Listing, WindowAt, TurnAt, ReadHistory, FlushedMessages, Carries, Flushed, Keyed;
    PendingIsWindow(x, history);
    FlushCarries(ReadHistory(x, history), WindowAt(x, history));
  }

  lemma WindowIsKeyed(x: Context, history: seq<Heard>)
    ensures Keyed(WindowAt(x, history).citations) && Keyed(WindowAt(x, history).drafts)
  {
    hide ReadHistory, WindowAt, TurnAt;
    PendingIsWindow(x, history);
    assert Kept(ReadHistory(x, history));
  }

  /** No complete receipt a window was given is missing from it: its revision is there, with the last
      receipt heard for it. */
  lemma {:induction false} NotedHolds(table: Table, list: seq<Receipt>, r: Receipt)
    requires r in list && Complete(r)
    ensures r.revisionID in Noted(table, list)
  {
    var n := |list| - 1;
    if list[n] != r {
      var i :| 0 <= i < |list| && list[i] == r;
      assert list[..n][i] == r;
      NotedHolds(table, list[..n], r);
    }
  }

  function TableOf(w: Window, kind: Kind): Table {
    if kind.Citations? then w.citations else w.drafts
  }

  function BroughtIn(found: Found, kind: Kind): seq<Receipt> {
    if kind.Citations? then found.citations else found.drafts
  }

  function ShownBy(m: Message, kind: Kind): seq<Receipt> {
    if kind.Citations? then m.citations else m.drafts
  }

  /** The receipt comes from a tool heard at `p`, and nobody has spoken since. */
  predicate BroughtAt(x: Context, history: seq<Heard>, p: nat, kind: Kind, r: Receipt) {
    && p < |history| && Brings(x, history[..p], history[p]) && r in BroughtIn(history[p].found.value, kind)
    && forall q :: p < q < |history| ==> !Speaks(history[q])
  }

  /** One of the messages is the assistant's in that turn and shows a receipt for the revision. */
  ghost predicate Shows(messages: seq<Message>, turn: GoString, kind: Kind, revisionID: GoString) {
    exists m, s :: m in messages && AnswersIn(m, turn) && s in ShownBy(m, kind) && s.revisionID == revisionID
  }

  lemma BroughtEarlier(x: Context, history: seq<Heard>, p: nat, kind: Kind, r: Receipt)
    requires BroughtAt(x, history, p, kind, r) && p < |history| - 1
    ensures BroughtAt(x, history[..|history| - 1], p, kind, r) && history[..|history| - 1][..p] == history[..p]
  {
    hide ToolAllowed, TurnAt;
    var front := history[..|history| - 1];
    assert front[..p] == history[..p] && front[p] == history[p];
  }

  /** The window holds it, and the turn is still the one it was brought in. */
  lemma {:induction false} WindowHolds(x: Context, history: seq<Heard>, p: nat, kind: Kind, r: Receipt)
    requires BroughtAt(x, history, p, kind, r) && Complete(r)
    ensures r.revisionID in TableOf(WindowAt(x, history), kind)
    ensures TurnAt(x, history).turnID == TurnAt(x, history[..p]).turnID
  {
    hide ToolAllowed;
    var n := |history| - 1;
    var front := history[..n];
    if p == n {
      NotedHolds(TableOf(WindowAt(x, front), kind), BroughtIn(history[p].found.value, kind), r);
    } else {
      BroughtEarlier(x, history, p, kind, r);
      WindowHolds(x, front, p, kind, r);
      WindowIsKeyed(x, front);
      if Brings(x, front, history[n]) {
        NotedIsKeyed(TableOf(WindowAt(x, front), kind), BroughtIn(history[n].found.value, kind));
      }
    }
  }

  /** Messages carrying a window show all that is in it. */
  lemma CarriedIsShown(messages: seq<Message>, turn: GoString, w: Window, kind: Kind, revisionID: GoString)
    requires Carries(messages, turn, w) && revisionID in TableOf(w, kind)
    ensures Shows(messages, turn, kind, revisionID)
  {
    hide Listing, HasPrefix;
    var i :| 0 <= i < |messages| && messages[i].role.Assistant?;
    var m, s := messages[i], TableOf(w, kind)[revisionID];
    assert m in messages && s in TableOf(w, kind).Values;
    assert s in Elements(Listing(TableOf(w, kind)));
    assert s in ShownBy(m, kind);
  }

  /** A complete receipt brought in a turn is shown, under its revision, by that turn's message of the
      assistant when somebody next speaks. */
  lemma ReceiptIsShownNext(x: Context, history: seq<Heard>, p: nat, kind: Kind, r: Receipt)
    requires history != [] && BroughtAt(x, history[..|history| - 1], p, kind, r) && Complete(r) && Speaks(history[|history| - 1])
    ensures Shows(Emitted(x, history), TurnAt(x, history[..p]).turnID, kind, r.revisionID)
  {
    hide ToolAllowed, TurnAt, Emitted, ReadHistory, WindowAt, Carries, Shows;
    var front := history[..|history| - 1];
    assert front[..p] == history[..p];
    WindowHolds(x, front, p, kind, r);
    ReceiptsLandOnTheNextSpeaker(x, history);
    CarriedIsShown(Emitted(x, history), TurnAt(x, front).turnID, WindowAt(x, front), kind, r.revisionID);
  }

  /** The same at the end of the history: what is still pending is shown by the closing message. */
  lemma ReceiptIsShownLast(x: Context, history: seq<Heard>, p: nat, kind: Kind, r: Receipt)
    requires BroughtAt(x, history, p, kind, r) && Complete(r)
    ensures Shows(VisibleHistory(x, history), TurnAt(x, history[..p]).turnID, kind, r.revisionID)
  {
    hide ToolAllowed, TurnAt, ReadHistory, WindowAt, VisibleHistory, FlushedMessages, Carries;
    WindowHolds(x, history, p, kind, r);
    LastReceiptsAreShown(x, history);
    CarriedIsShown(FlushedMessages(ReadHistory(x, history)), TurnAt(x, history).turnID, WindowAt(x, history), kind, r.revisionID);
  }

  lemma {:induction false} NotedComesFrom(table: Table, list: seq<Receipt>, k: GoString)
    requires k in Noted(table, list)
    ensures Noted(table, list)[k] in list || (k in table && Noted(table, list)[k] == table[k])
  {
    if list != [] {
      var n := |list| - 1;
      if !(Complete(list[n]) && k == list[n].revisionID) {
        NotedComesFrom(table, list[..n], k);
      }
    }
  }

  /** No window holds a receipt that was not brought, in its turn, since somebody last spoke. */
  lemma {:induction false} WindowInventsNothing(x: Context, history: seq<Heard>, kind: Kind, k: GoString) returns (p: nat)
    requires k in TableOf(WindowAt(x, history), kind)
    ensures BroughtAt(x, history, p, kind, TableOf(WindowAt(x, history), kind)[k]) && !Speaks(history[p])
  {
    hide ToolAllowed, TurnAt;
    var n := |history| - 1;
    var front := history[..n];
    var r := TableOf(WindowAt(x, history), kind)[k];
    if Brings(x, front, history[n]) {
      NotedComesFrom(TableOf(WindowAt(x, front), kind), BroughtIn(history[n].found.value, kind), k);
      if r in BroughtIn(history[n].found.value, kind) {
        return n;
      }
    }
    p := WindowInventsNothing(x, front, kind, k);
    assert front[..p] == history[..p] && front[p] == history[p];
  }

  // ---------------------------------------------------------------- times

  /** Where the messages of the turn a history ends in begin. */
  ghost function TurnStart(x: Context, history: seq<Heard>): nat {
    if history == [] then 0
    else
      var front := history[..|history| - 1];
      if history[|history| - 1].FromUser? then |Flushed(ReadHistory(x, front)).messages| else TurnStart(x, front)
  }

  /** Strictly increasing times from a position on, none later than the last one given. */
  ghost predicate Rising(messages: seq<Message>, start: nat, last: int) {
    && start <= |messages|
    && (forall i, j :: start <= i < j < |messages| ==> messages[i].createdAt < messages[j].createdAt)
    && (forall i :: start <= i < |messages| ==> messages[i].createdAt <= last)
  }

  lemma FlushRises(r: Reading, start: nat)
    requires Kept(r) && Rising(r.messages, start, r.timestamp + r.index)
    ensures Rising(Flushed(r).messages, start, Flushed(r).timestamp + Flushed(r).index)
  {
    hide Listing, Keyed;
  }

  lemma UserRises(r: Reading, p: Prompt)
    requires Kept(r)
    ensures var s := HearUser(r, p); Rising(s.messages, |Flushed(r).messages|, s.timestamp + s.index)
  {
    hide Listing, Keyed, Strip, TrimSpace, Flushed;
  }

  lemma AssistantRises(r: Reading, start: nat, text: GoString)
    requires Kept(r) && Rising(r.messages, start, r.timestamp + r.index)
    ensures var s := HearAssistant(r, text); Rising(s.messages, start, s.timestamp + s.index)
  {
    hide Listing, Keyed, Strip, TrimSpace;
  }

  /** Within a turn, times strictly increase in the order the messages are shown. */
  lemma {:induction false} TimesRiseWithinATurn(x: Context, history: seq<Heard>)
    ensures var r := ReadHistory(x, history); Rising(r.messages, TurnStart(x, history), r.timestamp + r.index)
    ensures var f := Flushed(ReadHistory(x, history)); Rising(f.messages, TurnStart(x, history), f.timestamp + f.index)
  {
    hide Opened, ToolAllowed, Noted, HearUser, HearAssistant, Flushed, Rising, Keyed;
    if history == [] {
      NothingRises(x.fallback);
    } else {
      var front := history[..|history| - 1];
      TimesRiseWithinATurn(x, front);
      match history[|history| - 1]
      case FromUser(text) => UserRises(ReadHistory(x, front), Opened(x, text, |history| - 1));
      case FromAssistant(text) => AssistantRises(ReadHistory(x, front), TurnStart(x, front), text);
      case _ =>
    }
    FlushRises(ReadHistory(x, history), TurnStart(x, history));
  }

  lemma NothingRises(last: int)
    ensures Rising([], 0, last)
  {
  }

  // ---------------------------------------------------------------- the loop

  method ReadMessages(x: Context, history: seq<Heard>) returns (messages: seq<Message>)
    ensures messages == VisibleHistory(x, history)
  {
    hide HearUser, HearAssistant, HearTool, ToolAllowed, Opened, Keyed;
    var r := Reading([], "", x.fallback, x.mode, 0, map[], map[]);
    assert history[..0] == [];
    for i := 0 to |history|
      invariant r == ReadHistory(x, history[..i])
    {
      assert history[..i + 1][..i] == history[..i];
      match history[i]
      case FromOther =>
      case FromTool(name, found) => r := NoteTool(r, name, found);
      case FromUser(text) => r := ShowUser(r, Opened(x, text, i));
      case FromAssistant(text) => r := ShowAssistant(r, text);
    }
    assert history[..|history|] == history;
    r := Flush(r);
    return r.messages;
  }

  method NoteAll(table: Table, list: seq<Receipt>) returns (noted: Table)
    ensures noted == Noted(table, list)
  {
    noted := table;
    for i := 0 to |list|
      invariant noted == Noted(table, list[..i])
    {
      assert list[..i + 1][..i] == list[..i];
      if Complete(list[i]) {
        noted := noted[list[i].revisionID := list[i]];
      }
    }
    assert list[..|list|] == list;
  }

  method NoteTool(r: Reading, name: GoString, found: Option<Found>) returns (s: Reading)
    requires Kept(r)
    ensures s == HearTool(r, name, found)
  {
    hide Keyed, ToolAllowed, Noted;
    s := r;
    if s.turn == "" || found.None? || !ToolAllowed(s.mode, name) {
      return;
    }
    var citations := NoteAll(s.citations, found.value.citations);
    var drafts := NoteAll(s.drafts, found.value.drafts);
    s := s.(citations := citations, drafts := drafts);
  }

  method ShowUser(r: Reading, p: Prompt) returns (s: Reading)
    requires Kept(r)
    ensures s == HearUser(r, p)
  {
    hide Keyed, Flushed, Shown;
    s := Flush(r);
    s := s.(turn := p.turnID, timestamp := p.timestamp, mode := p.mode, index := 0);
    KeptOfFlush(r, p);
    s := Show(s, s.turn + "-user", User, p.visible);
  }

  lemma KeptOfFlush(r: Reading, p: Prompt)
    requires Kept(r)
    ensures Kept(Begun(Flushed(r), p))
  {
  }

  method ShowAssistant(r: Reading, text: GoString) returns (s: Reading)
    requires Kept(r)
    ensures s == HearAssistant(r, text)
  {
    hide Keyed, Shown;
    s := r.(index := r.index + 1);
    s := Show(s, AssistantID(s), Assistant, text);
  }

  method Flush(r: Reading) returns (f: Reading)
    requires Kept(r)
    ensures f == Flushed(r)
  {
    hide Listing, Keyed;
    f := r;
    if f.turn == "" || (f.citations == map[] && f.drafts == map[]) {
      return;
    }
    f := f.(index := f.index + 1);
    var content := if f.drafts != map[] then MADE_DRAFTS else FOUND_SOURCES;
    var cited, drafted := ListBoth(f);
    var message := Message(f.turn + "-assistant-receipt", Assistant, f.mode, content, cited, drafted, f.timestamp + f.index);
    f := f.(messages := f.messages + [message], citations := map[], drafts := map[]);
  }

  method ListBoth(r: Reading) returns (cited: seq<Receipt>, drafted: seq<Receipt>)
    requires Kept(r)
    ensures cited == Listing(r.citations) && drafted == Listing(r.drafts)
  {
    hide Listing, Keyed, IsListing;
    cited := ListTable(r.citations);
    drafted := ListTable(r.drafts);
    ListingIsUnique(r.citations, cited, Listing(r.citations));
    ListingIsUnique(r.drafts, drafted, Listing(r.drafts));
  }

  method Show(r: Reading, id: GoString, role: Role, text: GoString) returns (s: Reading)
    requires Kept(r)
    ensures s == Shown(r, id, role, text)
  {
    hide Listing, Keyed, Strip, TrimSpace;
    s := r;
    var content := StripInternalMarkers(text);
    if content == "" && s.citations == map[] && s.drafts == map[] {
      return;
    }
    if content == "" {
      content := if s.drafts != map[] then MADE_DRAFTS else FOUND_SOURCES;
    }
    var cited, drafted := ListBoth(s);
    s := s.(messages := s.messages + [Message(id, role, s.mode, content, cited, drafted, s.timestamp + s.index)]);
    if role.Assistant? {
      s := s.(citations := map[], drafts := map[]);
    }
  }

  // ---------------------------------------------------------------- order in time

  /** Earlier, or at the same time with the smaller id. */
  predicate Before(a: Message, b: Message) {
    a.createdAt < b.createdAt || (a.createdAt == b.createdAt && Less(a.id, b.id))
  }

  ghost predicate Chronological(messages: seq<Message>) {
    forall i, j :: 0 <= i < j < |messages| ==> !Before(messages[j], messages[i])
  }

  function InsertByTime(m: Message, messages: seq<Message>): seq<Message> {
    if messages == [] || Before(m, messages[0]) then [m] + messages else [messages[0]] + InsertByTime(m, messages[1..])
  }

  /** `sort.SliceStable` by time and id. */
  function SortByTime(messages: seq<Message>): seq<Message> {
    if messages == [] then [] else InsertByTime(messages[|messages| - 1], SortByTime(messages[..|messages| - 1]))
  }

  lemma {:induction false} InsertByTimePermutes(m: Message, messages: seq<Message>)
    ensures multiset(InsertByTime(m, messages)) == multiset(messages) + multiset{m}
  {
    if messages != [] && !Before(m, messages[0]) {
      InsertByTimePermutes(m, messages[1..]);
      assert messages == [messages[0]] + messages[1..];
    }
  }

  lemma BeforeIsAnOrder(a: Message, b: Message, c: Message)
    ensures Before(a, b) && !Before(c, b) ==> !Before(c, a)
    ensures !Before(a, a)
  {
    LessIsTotal(a.id, a.id);
    if Less(c.id, a.id) && Less(a.id, b.id) {
      LessIsTransitive(c.id, a.id, b.id);
    }
  }

  lemma {:induction false} InsertByTimeOrders(m: Message, messages: seq<Message>)
    requires Chronological(messages)
    ensures Chronological(InsertByTime(m, messages))
  {
    hide Before;
    if messages == [] {
    } else if Before(m, messages[0]) {
      forall j | 0 <= j < |messages|
        ensures !Before(messages[j], m)
      {
        BeforeIsAnOrder(m, messages[0], messages[j]);
        BeforeIsAnOrder(messages[0], messages[0], messages[0]);
      }
    } else {
      InsertByTimeOrders(m, messages[1..]);
      InsertByTimePermutes(m, messages[1..]);
      var rest := InsertByTime(m, messages[1..]);
      forall j | 0 <= j < |rest|
        ensures !Before(rest[j], messages[0])
      {
        assert rest[j] in multiset(rest);
        assert rest[j] == m || rest[j] in messages[1..];
      }
    }
  }

  lemma {:induction false} SortByTimeSorts(messages: seq<Message>)
    ensures multiset(SortByTime(messages)) == multiset(messages) && Chronological(SortByTime(messages))
  {
    hide Before;
    if messages != [] {
      var n := |messages| - 1;
      SortByTimeSorts(messages[..n]);
      InsertByTimePermutes(messages[n], SortByTime(messages[..n]));
      InsertByTimeOrders(messages[n], SortByTime(messages[..n]));
      assert messages == messages[..n] + [messages[n]];
    }
  }

  /** `mergeAssistantHistory`: the messages of both profiles, in the order of their times. */
  method MergeHistories(qa: seq<Message>, edit: seq<Message>) returns (messages: seq<Message>)
    ensures multiset(messages) == multiset(qa) + multiset(edit) && Chronological(messages)
  {
    SortByTimeSorts(qa + edit);
    return SortByTime(qa + edit);
  }
}
