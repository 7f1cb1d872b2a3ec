/** The client object: its critical sections, each equal to a step of the protocol. */
module RpcClient {
  import opened GoStrings
  import opened Options
  import opened RpcProtocol

  class Client {
    var connection: Option<nat>
    var connected: bool
    var changes: nat
    var pending: map<GoString, nat>
    var nextID: nat
    /** The calls and their channels, by the order of their ids. */
    var calls: seq<Call>
    var flight: Option<Flight>
    var runner: Runner
    var made: nat
    var closed: bool

    constructor ()
      ensures Valid() && Abs() == START
    {
      connection, connected, changes, pending, nextID := None, false, 0, map[], 0;
      calls, flight, runner, made, closed := [], None, Connecting, 0, false;
    }

    ghost function Abs(): State
      reads this
    {
      State(connection, connected, changes, pending, calls, flight, runner, made, closed)
    }

    ghost predicate Valid()
      reads this
    {
      nextID == |calls| && Invariant(Abs())
    }

    /** The first critical section of `Call`. */
    method Register() returns (id: GoString, captured: Option<nat>)
      requires Valid()
      modifies this
      ensures Valid() && Abs() == Next(old(Abs()), Step.Register)
      ensures id == calls[|calls| - 1].id && captured == connection && id !in old(pending)
    {
      hide Invariant, Decimal;
      NewIDIn(Abs());
      StepKeepsInvariant(Abs(), Step.Register);
      nextID := nextID + 1;
      id := Decimal(nextID);
      pending := pending[id := |calls|];
      captured := connection;
      calls := calls + [Call(id, captured, true, [])];
    }

    static lemma NewIDIn(s: State)
      requires Invariant(s)
      ensures Decimal(|s.calls| + 1) !in s.pending
    {
      hide Decimal;
      NewID(s);
    }

    /** A call that gives up: `removePending`, then it returns an error. */
    method GiveUpCall(i: nat)
      requires Valid() && Enabled(Abs(), Step.Abandon(i))
      modifies this
      ensures Valid() && Abs() == Next(old(Abs()), Step.Abandon(i))
    {
      hide Invariant;
      StepKeepsInvariant(Abs(), Step.Abandon(i));
      pending := pending - {calls[i].id};
      calls := calls[i := calls[i].(open := false)];
    }

    /** A call that takes the response out of its channel. */
    method Receive(i: nat) returns (response: Response)
      requires Valid() && Enabled(Abs(), Step.Return(i))
      modifies this
      ensures Valid() && Abs() == Next(old(Abs()), Step.Return(i))
      ensures old(calls[i].sent) == [response] && (response.Reply? ==> response.id == old(calls[i].id))
    {
      OneResponse(Abs(), i);
      hide Invariant;
      StepKeepsInvariant(Abs(), Step.Return(i));
      response := calls[i].sent[0];
      calls := calls[i := calls[i].(open := false)];
    }

    static lemma OneResponse(s: State, i: nat)
      requires Invariant(s) && i < |s.calls| && s.calls[i].sent != []
      ensures |s.calls[i].sent| == 1 && (s.calls[i].sent[0].Reply? ==> s.calls[i].sent[0].id == s.calls[i].id)
    {
      hide Decimal;
      assert ChannelFits(s, i);
    }

    method SetConnectedLocked(value: bool)
      modifies this`connected, this`changes
      ensures Abs() == SetConnected(old(Abs()), value)
    {
      if connected == value {
        return;
      }
      connected := value;
      changes := changes + 1;
    }

    /** Every send finds its channel empty. */
    method FailPendingLocked()
      requires IDsAreCalls(Abs()) && ChannelsFit(Abs())
      modifies this`pending, this`calls
      ensures Abs() == FailPending(old(Abs()))
    {
      hide Decimal;
      ghost var before := Abs();
      while pending != map[]
        invariant pending.Keys <= before.pending.Keys && forall id :: id in pending ==> pending[id] == before.pending[id]
        invariant |calls| == |before.calls|
        invariant forall j :: 0 <= j < |calls| ==>
                    calls[j] == if Waiting(before, j) && before.calls[j].id !in pending then Sent(before.calls[j], Disconnected) else before.calls[j]
        decreases pending.Keys
      {
        var id :| id in pending;
        var i := pending[id];
        PendingNames(before, i);
        assert before.calls[i].id == id;
        assert ChannelFits(before, i);
        assert calls[i].sent == [];
        forall j | 0 <= j < |calls| && before.calls[j].id == id
          ensures j == i
        {
          IDsAreUnique(before, j, i);
        }
        pending := pending - {id};
        calls := calls[i := Sent(calls[i], Disconnected)];
      }
      forall j | 0 <= j < |calls|
        ensures calls[j] == FailPending(before).calls[j]
      {
        FailPendingTells(before, j);
      }
      assert calls == FailPending(before).calls;
    }

    /** A made connection becomes the current one. */
    method Connected()
      requires Valid() && Enabled(Abs(), Step.Connect)
      modifies this
      ensures Valid() && Abs() == Next(old(Abs()), Step.Connect)
    {
      hide Invariant;
      StepKeepsInvariant(Abs(), Step.Connect);
      connection := Some(made);
      runner := Reading(made);
      made := made + 1;
      SetConnectedLocked(true);
    }

    /** The critical section of `readLoop` for a response. */
    method TakePending(id: GoString, body: GoString)
      requires Valid() && Enabled(Abs(), Step.TakeReply(id, body))
      modifies this
      ensures Valid() && Abs() == Next(old(Abs()), Step.TakeReply(id, body))
    {
      hide Invariant;
      StepKeepsInvariant(Abs(), Step.TakeReply(id, body));
      if id in pending {
        flight := Some(Flight(pending[id], Reply(id, body)));
      }
      assert id !in pending ==> pending - {id} == pending;
      pending := pending - {id};
    }

    /** Sending the taken response; the channel is empty. */
    method SendTaken()
      requires Valid() && Enabled(Abs(), Step.SendReply)
      modifies this
      ensures Valid() && Abs() == Next(old(Abs()), Step.SendReply)
      ensures old(calls[flight.value.call].sent) == []
    {
      FlightFindsEmptyChannel(Abs());
      hide Invariant;
      StepKeepsInvariant(Abs(), Step.SendReply);
      var f := flight.value;
      calls := calls[f.call := Sent(calls[f.call], f.response)];
      flight := None;
    }

    static lemma FlightFindsEmptyChannel(s: State)
      requires Invariant(s) && s.flight.Some?
      ensures s.flight.value.call < |s.calls| && s.calls[s.flight.value.call].sent == []
    {
      hide Decimal;
    }

    static lemma PartsOf(s: State)
      requires Invariant(s)
      ensures IDsAreCalls(s) && ChannelsFit(s)
    {
    }

    /** What `run` does after its read loop ended. */
    method HandleLost(last: bool)
      requires Valid() && Enabled(Abs(), Step.HandleLoss(last))
      modifies this
      ensures Valid() && Abs() == Next(old(Abs()), Step.HandleLoss(last))
    {
      PartsOf(Abs());
      hide Invariant, IDsAreCalls, ChannelsFit, FailPending;
      StepKeepsInvariant(Abs(), Step.HandleLoss(last));
      if connection == Some(runner.connection) {
        DropFields();
      }
      runner := if last then Stopped else Connecting;
    }

    method Close()
      requires Valid() && Enabled(Abs(), Step.Close)
      modifies this
      ensures Valid() && Abs() == Next(old(Abs()), Step.Close)
    {
      PartsOf(Abs());
      hide Invariant, IDsAreCalls, ChannelsFit, FailPending;
      StepKeepsInvariant(Abs(), Step.Close);
      DropFields();
      closed := true;
    }

    method DropFields()
      requires IDsAreCalls(Abs()) && ChannelsFit(Abs())
      modifies this
      ensures Abs() == Drop(old(Abs())) && nextID == old(nextID)
    {
      hide FailPending, Decimal;
      connection := None;
      SetConnectedLocked(false);
      PartsStay(old(Abs()), Abs());
      FailPendingLocked();
    }

    static lemma PartsStay(s: State, t: State)
      requires IDsAreCalls(s) && ChannelsFit(s) && t.calls == s.calls && t.pending == s.pending
      ensures IDsAreCalls(t) && ChannelsFit(t)
    {
      hide Decimal;
      forall i | 0 <= i < |t.calls|
        ensures ChannelFits(t, i)
      {
        assert ChannelFits(s, i);
      }
    }
  }
}
