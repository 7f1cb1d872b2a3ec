/** The JSON-RPC client's pending table across calls, replies, cancellations, disconnects and
    reconnects. One step is one critical section, one channel operation or one connector result;
    steps of any calls and of the reading goroutine interleave freely. */
module RpcProtocol {
  import opened GoStrings
  import opened Options

  /** What is sent to a call's channel. */
  datatype Response = Reply(id: GoString, body: GoString) | Disconnected

  /** `connection` is the connection captured when the call registered; `sent` is everything its
      channel ever received; `open` is whether `Call` has not returned yet. */
  datatype Call = Call(id: GoString, connection: Option<nat>, open: bool, sent: seq<Response>)

  /** The goroutine that connects and reads. */
  datatype Runner = Connecting | Reading(connection: nat) | Lost(connection: nat) | Stopped

  /** A reply taken out of the table and not yet sent to its channel. */
  datatype Flight = Flight(call: nat, response: Response)

  /** `changes` counts the closings of the change channel, `made` the connections made. */
  datatype State = State(
    connection: Option<nat>, connected: bool, changes: nat, pending: map<GoString, nat>, calls: seq<Call>,
    flight: Option<Flight>, runner: Runner, made: nat, closed: bool)

  const START := State(None, false, 0, map[], [], None, Connecting, 0, false)

  datatype Step =
    | Register
    | Return(call: nat)
    | Abandon(call: nat)
    | Connect
    | GiveUp
    | TakeReply(id: GoString, body: GoString)
    | SendReply
    | ReadFails
    | HandleLoss(last: bool)
    | Close

  // ---------------------------------------------------------------- steps

  function SetConnected(s: State, connected: bool): State {
    if s.connected == connected then s else s.(connected := connected, changes := s.changes + 1)
  }

  function Sent(c: Call, response: Response): Call {
    c.(sent := c.sent + [response])
  }

  /** `failPendingLocked`: every pending call is told, and the table is emptied. */
  function FailPending(s: State): State {
    s.(calls := seq(|s.calls|, i requires 0 <= i < |s.calls| =>
                 if i in s.pending.Values then Sent(s.calls[i], Disconnected) else s.calls[i]),
       pending := map[])
  }

  function Drop(s: State): State {
    FailPending(SetConnected(s.(connection := None), false))
  }

  /** Whether a step can be taken. A channel is received from only when something was sent, and the
      reading goroutine sends a taken reply before it reads on. */
  predicate Enabled(s: State, step: Step) {
    match step
    case Register => true
    case Return(i) => i < |s.calls| && s.calls[i].open && s.calls[i].sent != []
    case Abandon(i) => i < |s.calls| && s.calls[i].open
    case Connect => s.runner.Connecting?
    case GiveUp => s.runner.Connecting?
    case TakeReply(_, _) => s.runner.Reading? && s.flight.None?
    case SendReply => s.flight.Some? && s.flight.value.call < |s.calls|
    case ReadFails => s.runner.Reading? && s.flight.None?
    case HandleLoss(_) => s.runner.Lost?
    case Close => !s.closed
  }

  function Next(s: State, step: Step): State
    requires Enabled(s, step)
  {
    match step
    case Register =>
      var id := Decimal(|s.calls| + 1);
      s.(pending := s.pending[id := |s.calls|], calls := s.calls + [Call(id, s.connection, true, [])])
    case Return(i) => s.(calls := s.calls[i := s.calls[i].(open := false)])
    case Abandon(i) => s.(pending := s.pending - {s.calls[i].id}, calls := s.calls[i := s.calls[i].(open := false)])
    case Connect =>
      SetConnected(s.(connection := Some(s.made), made := s.made + 1, runner := Reading(s.made)), true)
    case GiveUp => s.(runner := Stopped)
    case TakeReply(id, body) =>
      if id in s.pending then s.(pending := s.pending - {id}, flight := Some(Flight(s.pending[id], Reply(id, body)))) else s
    case SendReply =>
      var f := s.flight.value;
      s.(calls := s.calls[f.call := Sent(s.calls[f.call], f.response)], flight := None)
    case ReadFails => s.(runner := Lost(s.runner.connection))
    case HandleLoss(last) =>
      (if s.connection == Some(s.runner.connection) then Drop(s) else s).(runner := if last then Stopped else Connecting)
    case Close => Drop(s).(closed := true)
  }

  // ---------------------------------------------------------------- invariant

  predicate Waiting(s: State, i: nat) {
    i < |s.calls| && s.calls[i].id in s.pending
  }

  predicate Flying(s: State, i: nat) {
    s.flight.Some? && s.flight.value.call == i
  }

  /** Every id names the call that got it. */
  ghost predicate IDsAreCalls(s: State) {
    && (forall i :: 0 <= i < |s.calls| ==> s.calls[i].id == Decimal(i + 1))
    && (forall id :: id in s.pending ==> s.pending[id] < |s.calls| && s.calls[s.pending[id]].id == id)
  }

  /** A reply in flight belongs to a call that nothing was sent to and that is no longer pending. */
  ghost predicate FlightIsOwn(s: State) {
    s.flight.Some? ==>
      var f := s.flight.value;
      && s.runner.Reading? && f.call < |s.calls| && s.calls[f.call].sent == [] && s.calls[f.call].id !in s.pending
      && f.response.Reply? && f.response.id == s.calls[f.call].id
  }

  /** A channel has received nothing while its call is pending, and never more than one response:
      its own reply or the disconnection. */
  ghost predicate ChannelFits(s: State, i: nat)
    requires i < |s.calls|
  {
    var c := s.calls[i];
    && |c.sent| <= 1 && (c.id in s.pending ==> c.sent == [])
    && (c.sent != [] && c.sent[0].Reply? ==> c.sent[0].id == c.id)
  }

  ghost predicate ChannelsFit(s: State) {
    forall i :: 0 <= i < |s.calls| ==> ChannelFits(s, i)
  }

  /** No open call is forgotten: it is pending, its reply is in flight, or it has been answered. */
  ghost predicate NoneForgotten(s: State) {
    forall i :: 0 <= i < |s.calls| && s.calls[i].open ==> Waiting(s, i) || Flying(s, i) || s.calls[i].sent != []
  }

  /** A pending call registered on the connection that is current, or on none. */
  ghost predicate PendingIsCurrent(s: State) {
    forall i :: 0 <= i < |s.calls| && Waiting(s, i) && s.calls[i].connection.Some? ==> s.calls[i].connection == s.connection
  }

  ghost predicate RunnerFits(s: State) {
    && (s.connection.Some? ==> (s.runner.Reading? || s.runner.Lost?) && s.connection == Some(s.runner.connection))
    && s.connected == s.connection.Some?
    && s.connected == (s.changes % 2 == 1)
    && (s.connection.Some? ==> s.connection.value < s.made)
    && (forall i :: 0 <= i < |s.calls| && s.calls[i].connection.Some? ==> s.calls[i].connection.value < s.made)
  }

  ghost predicate Invariant(s: State) {
    && IDsAreCalls(s) && FlightIsOwn(s) && ChannelsFit(s) && NoneForgotten(s) && PendingIsCurrent(s) && RunnerFits(s)
  }

  lemma NewID(s: State)
    requires IDsAreCalls(s)
    ensures Decimal(|s.calls| + 1) !in s.pending
    ensures forall i :: 0 <= i < |s.calls| ==> s.calls[i].id != Decimal(|s.calls| + 1)
  {
    hide Decimal;
    forall i | 0 <= i < |s.calls|
      ensures s.calls[i].id != Decimal(|s.calls| + 1)
    {
      if s.calls[i].id == Decimal(|s.calls| + 1) {
        DecimalIsInjective(i + 1, |s.calls| + 1);
      }
    }
  }

  /** No two calls ever share an id. */
  lemma IDsAreUnique(s: State, i: nat, j: nat)
    requires IDsAreCalls(s) && i < |s.calls| && j < |s.calls| && s.calls[i].id == s.calls[j].id
    ensures i == j
  {
    hide Decimal;
    DecimalIsInjective(i + 1, j + 1);
  }

  lemma PendingNames(s: State, i: nat)
    requires IDsAreCalls(s) && i < |s.calls|
    ensures s.calls[i].id in s.pending ==> s.pending[s.calls[i].id] == i
    ensures i in s.pending.Values <==> Waiting(s, i)
  {
    hide Decimal;
    if s.calls[i].id in s.pending {
      IDsAreUnique(s, s.pending[s.calls[i].id], i);
    }
  }

  lemma RegisterKeeps(s: State)
    requires Invariant(s)
    ensures Invariant(Next(s, Register))
  {
    hide Decimal;
    NewID(s);
    var t := Next(s, Register);
    forall i | 0 <= i < |s.calls|
      ensures ChannelFits(t, i) && t.calls[i] == s.calls[i] && (Waiting(t, i) <==> Waiting(s, i))
    {
      assert ChannelFits(s, i);
    }
  }

  lemma ReturnKeeps(s: State, i: nat)
    requires Invariant(s) && Enabled(s, Return(i))
    ensures Invariant(Next(s, Return(i)))
  {
    hide Decimal;
    var t := Next(s, Return(i));
    assert forall k :: 0 <= k < |s.calls| ==> t.calls[k].id == s.calls[k].id && t.calls[k].sent == s.calls[k].sent;
    assert forall k :: 0 <= k < |s.calls| ==> (Waiting(t, k) <==> Waiting(s, k)) && (Flying(t, k) <==> Flying(s, k));
    forall k | 0 <= k < |t.calls|
      ensures ChannelFits(t, k)
    {
      assert ChannelFits(s, k);
    }
  }

  lemma AbandonKeeps(s: State, i: nat)
    requires Invariant(s) && Enabled(s, Abandon(i))
    ensures Invariant(Next(s, Abandon(i)))
  {
    hide IDsAreCalls, FlightIsOwn, ChannelsFit, NoneForgotten, PendingIsCurrent, RunnerFits;
    var t := Next(s, Abandon(i));
    AbandonLeavesOthers(s, i);
    AbandonKeepsTable(s, i, t);
    AbandonKeepsRest(s, i, t);
  }

  /** Only the abandoned call leaves the table and closes. */
  ghost predicate OnlyLeaves(s: State, i: nat, t: State) {
    && i < |s.calls| && t == s.(pending := t.pending, calls := s.calls[i := s.calls[i].(open := false)])
    && t.pending == s.pending - {s.calls[i].id}
    && forall k :: 0 <= k < |s.calls| && k != i ==> (Waiting(t, k) <==> Waiting(s, k))
  }

  lemma AbandonLeavesOthers(s: State, i: nat)
    requires IDsAreCalls(s) && Enabled(s, Abandon(i))
    ensures OnlyLeaves(s, i, Next(s, Abandon(i)))
  {
    hide IDsAreCalls;
    var t := Next(s, Abandon(i));
    forall k | 0 <= k < |s.calls| && k != i
      ensures Waiting(t, k) <==> Waiting(s, k)
    {
      if s.calls[k].id == s.calls[i].id {
        IDsAreUnique(s, k, i);
      }
    }
  }

  lemma AbandonKeepsTable(s: State, i: nat, t: State)
    requires IDsAreCalls(s) && FlightIsOwn(s) && OnlyLeaves(s, i, t)
    ensures IDsAreCalls(t) && FlightIsOwn(t)
  {
    hide Decimal;
    assert forall k :: 0 <= k < |s.calls| ==> t.calls[k].id == s.calls[k].id && t.calls[k].sent == s.calls[k].sent;
  }

  lemma AbandonKeepsRest(s: State, i: nat, t: State)
    requires ChannelsFit(s) && NoneForgotten(s) && PendingIsCurrent(s) && RunnerFits(s) && OnlyLeaves(s, i, t)
    ensures ChannelsFit(t) && NoneForgotten(t) && PendingIsCurrent(t) && RunnerFits(t)
  {
    forall k | 0 <= k < |t.calls|
      ensures ChannelFits(t, k)
    {
      assert ChannelFits(s, k);
    }
  }

  lemma ConnectKeeps(s: State)
    requires Invariant(s) && Enabled(s, Connect)
    ensures Invariant(Next(s, Connect))
  {
    hide Decimal;
    var t := Next(s, Connect);
    assert t.calls == s.calls && t.pending == s.pending && t.flight == s.flight;
    forall k | 0 <= k < |t.calls|
      ensures ChannelFits(t, k)
    {
      assert ChannelFits(s, k);
    }
  }

  lemma TakeReplyKeeps(s: State, id: GoString, body: GoString)
    requires Invariant(s) && Enabled(s, TakeReply(id, body))
    ensures Invariant(Next(s, TakeReply(id, body)))
  {
    hide Decimal;
    if id in s.pending {
      var t, i := Next(s, TakeReply(id, body)), s.pending[id];
      assert t.calls == s.calls;
      assert ChannelFits(s, i);
      forall k | 0 <= k < |t.calls|
        ensures ChannelFits(t, k) && (k != i ==> (Waiting(t, k) <==> Waiting(s, k)))
      {
        assert ChannelFits(s, k);
        if s.calls[k].id == id {
          IDsAreUnique(s, k, i);
        }
      }
    }
  }

  lemma SendReplyKeeps(s: State)
    requires Invariant(s) && Enabled(s, SendReply)
    ensures Invariant(Next(s, SendReply))
  {
    hide Decimal;
    var t, i := Next(s, SendReply), s.flight.value.call;
    assert ChannelFits(s, i);
    forall k | 0 <= k < |t.calls|
      ensures ChannelFits(t, k) && (Waiting(t, k) <==> Waiting(s, k))
    {
      assert ChannelFits(s, k);
    }
  }

  lemma FailPendingTells(s: State, i: nat)
    requires IDsAreCalls(s) && i < |s.calls|
    ensures FailPending(s).calls[i] == if Waiting(s, i) then Sent(s.calls[i], Disconnected) else s.calls[i]
  {
    PendingNames(s, i);
  }

  /** Dropping the connection answers every pending call and keeps everything else. */
  lemma DropKeeps(s: State, t: State)
    requires Invariant(s) && t.(runner := s.runner, closed := s.closed) == Drop(s)
    requires t.flight.Some? ==> t.runner == s.runner
    ensures Invariant(t) && t.pending == map[] && t.connection == None
    ensures forall i :: 0 <= i < |s.calls| ==> t.calls[i] == if Waiting(s, i) then Sent(s.calls[i], Disconnected) else s.calls[i]
  {
    hide IDsAreCalls, FlightIsOwn, ChannelsFit, NoneForgotten, PendingIsCurrent, RunnerFits;
    DropTells(s, t);
    hide Drop;
    DropKeepsCalls(s, t);
    DropKeepsRunner(s, t);
  }

  ghost predicate Told(s: State, t: State) {
    && t.pending == map[] && t.connection == None && t.flight == s.flight && t.made == s.made && |t.calls| == |s.calls|
    && t.connected == false && t.changes == s.changes + (if s.connected then 1 else 0)
    && forall i :: 0 <= i < |s.calls| ==> t.calls[i] == if Waiting(s, i) then Sent(s.calls[i], Disconnected) else s.calls[i]
  }

  lemma DropTells(s: State, t: State)
    requires IDsAreCalls(s) && t.(runner := s.runner, closed := s.closed) == Drop(s)
    ensures Told(s, t)
  {
    hide Decimal;
    forall i | 0 <= i < |s.calls|
      ensures t.calls[i] == if Waiting(s, i) then Sent(s.calls[i], Disconnected) else s.calls[i]
    {
      FailPendingTells(SetConnected(s.(connection := None), false), i);
    }
  }

  lemma DropKeepsCalls(s: State, t: State)
    requires Told(s, t) && IDsAreCalls(s) && ChannelsFit(s) && NoneForgotten(s) && FlightIsOwn(s)
    requires t.flight.Some? ==> t.runner == s.runner
    ensures IDsAreCalls(t) && ChannelsFit(t) && NoneForgotten(t) && FlightIsOwn(t) && PendingIsCurrent(t)
  {
    hide Decimal;
    forall i | 0 <= i < |t.calls|
      ensures ChannelFits(t, i)
    {
      assert ChannelFits(s, i);
    }
  }

  lemma DropKeepsRunner(s: State, t: State)
    requires Told(s, t) && RunnerFits(s)
    ensures RunnerFits(t)
  {
  }

  lemma HandleLossKeeps(s: State, last: bool)
    requires Invariant(s) && Enabled(s, HandleLoss(last))
    ensures Invariant(Next(s, HandleLoss(last)))
  {
    hide Decimal, Drop;
    var t := Next(s, HandleLoss(last));
    DropKeepsFlight(s);
    if s.connection == Some(s.runner.connection) {
      DropKeeps(s, t);
    } else {
      assert t.calls == s.calls && t.pending == s.pending && t.flight == s.flight;
      forall k | 0 <= k < |t.calls|
        ensures ChannelFits(t, k)
      {
        assert ChannelFits(s, k);
      }
    }
  }

  lemma DropKeepsFlight(s: State)
    ensures Drop(s).flight == s.flight && Drop(s).runner == s.runner && Drop(s).closed == s.closed
  {
  }

  lemma QuietStepKeeps(s: State, step: Step)
    requires Invariant(s) && Enabled(s, step) && (step.GiveUp? || step.ReadFails?)
    ensures Invariant(Next(s, step))
  {
    hide Decimal;
    var t := Next(s, step);
    assert t.calls == s.calls && t.pending == s.pending && t.flight == s.flight;
    forall k | 0 <= k < |t.calls|
      ensures ChannelFits(t, k)
    {
      assert ChannelFits(s, k);
    }
  }

  lemma StepKeepsInvariant(s: State, step: Step)
    requires Invariant(s) && Enabled(s, step)
    ensures Invariant(Next(s, step))
  {
    hide Invariant, Next, Drop;
    match step
    case Register => RegisterKeeps(s);
    case Return(i) => ReturnKeeps(s, i);
    case Abandon(i) => AbandonKeeps(s, i);
    case Connect => ConnectKeeps(s);
    case TakeReply(id, body) => TakeReplyKeeps(s, id, body);
    case SendReply => SendReplyKeeps(s);
    case HandleLoss(last) => HandleLossKeeps(s, last);
    case Close => CloseKeeps(s);
    case GiveUp => QuietStepKeeps(s, step);
    case ReadFails => QuietStepKeeps(s, step);
  }

  lemma CloseKeeps(s: State)
    requires Invariant(s) && Enabled(s, Close)
    ensures Invariant(Next(s, Close))
  {
    hide Invariant, Drop;
    DropKeepsFlight(s);
    DropKeeps(s, Next(s, Close));
  }

  // ---------------------------------------------------------------- runs

  ghost predicate IsRun(s: State, steps: seq<Step>, t: State)
    decreases |steps|
  {
    if steps == [] then t == s else Enabled(s, steps[0]) && IsRun(Next(s, steps[0]), steps[1..], t)
  }

  lemma {:induction false} RunKeepsInvariant(s: State, steps: seq<Step>, t: State)
    requires Invariant(s) && IsRun(s, steps, t)
    ensures Invariant(t)
    decreases |steps|
  {
    hide Invariant, Next, Enabled;
    if steps != [] {
      StepKeepsInvariant(s, steps[0]);
      RunKeepsInvariant(Next(s, steps[0]), steps[1..], t);
    }
  }

  /** Under every interleaving: ids are unique; a channel receives at most one response, so a send to
      its single slot never blocks; a reply reaches only the call with its id; an open call is
      pending, has its reply in flight or has been answered; and no call registered on a connection
      is still pending once that connection is no longer the current one. */
  lemma EveryRunIsSafe(steps: seq<Step>, s: State)
    requires IsRun(START, steps, s)
    ensures forall i, j :: 0 <= i < j < |s.calls| ==> s.calls[i].id != s.calls[j].id
    ensures forall i :: 0 <= i < |s.calls| ==> |s.calls[i].sent| <= 1
    ensures forall i :: 0 <= i < |s.calls| && s.calls[i].sent != [] && s.calls[i].sent[0].Reply? ==> s.calls[i].sent[0].id == s.calls[i].id
    ensures s.flight.Some? ==> s.flight.value.call < |s.calls| && s.calls[s.flight.value.call].sent == []
    ensures forall i :: 0 <= i < |s.calls| && Waiting(s, i) ==> s.calls[i].sent == []
    ensures forall i :: 0 <= i < |s.calls| && s.calls[i].open ==> Waiting(s, i) || Flying(s, i) || s.calls[i].sent != []
    ensures forall i :: 0 <= i < |s.calls| && s.calls[i].connection.Some? && s.calls[i].connection != s.connection ==> !Waiting(s, i)
  {
    hide Decimal, Next, Enabled;
    StartIsSafe();
    RunKeepsInvariant(START, steps, s);
    forall i, j | 0 <= i < j < |s.calls|
      ensures s.calls[i].id != s.calls[j].id
    {
      if s.calls[i].id == s.calls[j].id {
        IDsAreUnique(s, i, j);
      }
    }
    forall i | 0 <= i < |s.calls|
      ensures |s.calls[i].sent| <= 1 && (Waiting(s, i) ==> s.calls[i].sent == [])
      ensures s.calls[i].sent != [] && s.calls[i].sent[0].Reply? ==> s.calls[i].sent[0].id == s.calls[i].id
    {
      assert ChannelFits(s, i);
    }
  }

  lemma StartIsSafe()
    ensures Invariant(START)
  {
  }

  /** Handling the loss of the current connection answers every call that was registered on it and
      has not been answered otherwise: no such call waits on. */
  lemma LossAnswersItsCalls(s: State, last: bool, i: nat)
    requires Invariant(s) && Enabled(s, HandleLoss(last)) && s.connection == Some(s.runner.connection)
    requires i < |s.calls| && s.calls[i].open && s.calls[i].connection == s.connection
    ensures var t := Next(s, HandleLoss(last)); |t.calls| == |s.calls| && |t.calls[i].sent| == 1 && t.pending == map[]
  {
    hide Decimal, Drop;
    DropKeepsFlight(s);
    CallsStay(s);
    var t := Next(s, HandleLoss(last));
    DropKeeps(s, t);
    assert ChannelFits(s, i);
  }

  lemma CallsStay(s: State)
    ensures |Drop(s).calls| == |s.calls|
  {
  }

  /** A caller that saw the client disconnected and waits for the next change is woken once it
      connects: the change channel it holds has been closed. */
  lemma WaitersAreWoken(s: State, steps: seq<Step>, t: State)
    requires Invariant(s) && !s.connected && IsRun(s, steps, t) && t.connected
    ensures t.changes > s.changes
  {
    hide Next, Enabled;
    RunKeepsInvariant(s, steps, t);
    ChangesGrow(s, steps, t);
  }

  lemma {:induction false} ChangesGrow(s: State, steps: seq<Step>, t: State)
    requires IsRun(s, steps, t)
    ensures s.changes <= t.changes
    decreases |steps|
  {
    hide Decimal;
    if steps != [] {
      ChangesGrow(Next(s, steps[0]), steps[1..], t);
    }
  }
}
