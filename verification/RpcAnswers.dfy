/** What each call is answered with, and why, over whole runs of the client. */
module RpcAnswers {
  import opened GoStrings
  import opened Options
  import opened RpcProtocol

  /** Which response a reply in flight will bring to a call. */
  predicate Brings(s: State, i: nat, response: Response) {
    s.flight == Some(Flight(i, response))
  }

  /** A reply was read, or the connection was given up. */
  predicate Causes(step: Step, response: Response) {
    match response
    case Reply(id, body) => step == TakeReply(id, body)
    case Disconnected => step.HandleLoss? || step.Close?
  }

  ghost predicate Caused(steps: seq<Step>, response: Response) {
    exists k :: 0 <= k < |steps| && Causes(steps[k], response)
  }

  /** What one step does to the channel of a call. */
  lemma StepAnswers(s: State, step: Step, i: nat)
    requires Invariant(s) && Enabled(s, step) && i < |s.calls|
    ensures var t := Next(s, step);
            && i < |t.calls| && t.calls[i].id == s.calls[i].id && t.calls[i].connection == s.calls[i].connection
            && t.calls[i].sent == s.calls[i].sent +
               (if step == SendReply && s.flight.value.call == i then [s.flight.value.response]
                else if Waiting(s, i) && (step == Close || (step.HandleLoss? && s.connection == Some(s.runner.connection)))
                then [Disconnected] else [])
  {
    hide ChannelsFit, NoneForgotten, PendingIsCurrent, Decimal;
    PendingNames(s, i);
    hide IDsAreCalls;
  }

  /** What one step does to the reply in flight. */
  lemma StepFlies(s: State, step: Step)
    requires Enabled(s, step)
    ensures Next(s, step).flight ==
              match step
              case TakeReply(id, body) => if id in s.pending then Some(Flight(s.pending[id], Reply(id, body))) else s.flight
              case SendReply => None
              case _ => s.flight
  {
    hide Decimal;
  }

  lemma StepStarts(s: State, step: Step)
    requires Enabled(s, step)
    ensures var t := Next(s, step); |s.calls| <= |t.calls| && forall i :: |s.calls| <= i < |t.calls| ==> t.calls[i].sent == []
  {
    hide Decimal;
  }

  lemma {:induction false} CausedBefore(s: State, steps: seq<Step>, t: State, i: nat, response: Response)
    requires Invariant(s) && IsRun(s, steps, t) && i < |t.calls| && t.calls[i].sent == [response]
    ensures (i < |s.calls| && s.calls[i].sent == [response]) || Brings(s, i, response) || Caused(steps, response)
    decreases |steps|
  {
    hide Invariant, Next, Enabled, Causes;
    if steps != [] {
      var u := Next(s, steps[0]);
      StepKeepsInvariant(s, steps[0]);
      CausedBefore(u, steps[1..], t, i, response);
      if Caused(steps[1..], response) {
        var k :| 0 <= k < |steps[1..]| && Causes(steps[1..][k], response);
        assert Causes(steps[k + 1], response);
      } else {
        FirstCauses(s, steps[0], i, response);
        assert Causes(steps[0], response) ==> Caused(steps, response);
      }
    }
  }

  lemma SentIs(before: seq<Response>, after: seq<Response>, response: Response)
    requires before <= after
    ensures after == [response] ==> before == [response] || (before == [] && forall x :: after == before + [x] ==> x == response)
  {
    if after == [response] {
      forall x | after == before + [x]
        ensures x == response
      {
        assert x == after[|after| - 1];
      }
    }
  }

  lemma FirstCauses(s: State, step: Step, i: nat, response: Response)
    requires Invariant(s) && Enabled(s, step)
    requires (i < |Next(s, step).calls| && Next(s, step).calls[i].sent == [response]) || Brings(Next(s, step), i, response)
    ensures (i < |s.calls| && s.calls[i].sent == [response]) || Brings(s, i, response) || Causes(step, response)
  {
    StepFlies(s, step);
    StepStarts(s, step);
    if i < |s.calls| {
      StepAnswers(s, step, i);
      SentIs(s.calls[i].sent, Next(s, step).calls[i].sent, response);
    }
    hide Decimal, Next, Invariant;
  }

  /** Every response has its cause: a reply was read from a connection under the call's own id, with
      that body, or a connection was lost or closed. */
  lemma EveryAnswerHasItsCause(steps: seq<Step>, s: State, i: nat)
    requires IsRun(START, steps, s) && i < |s.calls| && s.calls[i].sent != []
    ensures |s.calls[i].sent| == 1
    ensures match s.calls[i].sent[0]
            case Reply(id, body) => id == s.calls[i].id && TakeReply(id, body) in steps
            case Disconnected => exists step :: step in steps && (step.HandleLoss? || step == Close)
  {
    hide Next, Enabled, Decimal;
    StartIsSafe();
    RunKeepsInvariant(START, steps, s);
    assert ChannelFits(s, i);
    CausedBefore(START, steps, s, i, s.calls[i].sent[0]);
    var k :| 0 <= k < |steps| && Causes(steps[k], s.calls[i].sent[0]);
    assert steps[k] in steps;
  }

  /** A call that is neither waiting nor about to be sent a reply is sent nothing more. */
  lemma {:induction false} SettledStays(s: State, steps: seq<Step>, t: State, i: nat)
    requires Invariant(s) && IsRun(s, steps, t) && i < |s.calls| && !Waiting(s, i) && !Flying(s, i)
    ensures i < |t.calls| && t.calls[i].sent == s.calls[i].sent && !Waiting(t, i)
    decreases |steps|
  {
    hide Invariant, Next, Enabled;
    if steps != [] {
      StepKeepsInvariant(s, steps[0]);
      StepSettled(s, steps[0], i);
      SettledStays(Next(s, steps[0]), steps[1..], t, i);
    }
  }

  lemma StepSettled(s: State, step: Step, i: nat)
    requires Invariant(s) && Enabled(s, step) && i < |s.calls| && !Waiting(s, i) && !Flying(s, i)
    ensures var t := Next(s, step); i < |t.calls| && t.calls[i].sent == s.calls[i].sent && !Waiting(t, i) && !Flying(t, i)
  {
    StepAnswers(s, step, i);
    StepFlies(s, step);
    NewID(s);
    hide ChannelsFit, NoneForgotten, PendingIsCurrent, Decimal;
  }

  /** A reply that is read under the id of a waiting call reaches that call, with its body, whatever
      happens before it is sent; until then it is in flight. */
  lemma ReplyArrives(s: State, i: nat, body: GoString, steps: seq<Step>, t: State)
    requires Invariant(s) && i < |s.calls| && Waiting(s, i) && Enabled(s, TakeReply(s.calls[i].id, body))
    requires IsRun(Next(s, TakeReply(s.calls[i].id, body)), steps, t)
    ensures i < |t.calls| && (Brings(t, i, Reply(s.calls[i].id, body)) || t.calls[i].sent == [Reply(s.calls[i].id, body)])
  {
    hide Next, Enabled, Decimal;
    var u := Next(s, TakeReply(s.calls[i].id, body));
    StepKeepsInvariant(s, TakeReply(s.calls[i].id, body));
    StepAnswers(s, TakeReply(s.calls[i].id, body), i);
    StepFlies(s, TakeReply(s.calls[i].id, body));
    PendingNames(s, i);
    FlightArrives(u, i, Reply(s.calls[i].id, body), steps, t);
  }

  lemma {:induction false} FlightArrives(s: State, i: nat, response: Response, steps: seq<Step>, t: State)
    requires Invariant(s) && i < |s.calls| && Brings(s, i, response) && IsRun(s, steps, t)
    ensures i < |t.calls| && (Brings(t, i, response) || t.calls[i].sent == [response])
    decreases |steps|
  {
    hide Invariant, Next, Enabled;
    if steps != [] {
      var u := Next(s, steps[0]);
      StepKeepsInvariant(s, steps[0]);
      FlightStep(s, i, response, steps[0]);
      if Brings(u, i, response) {
        FlightArrives(u, i, response, steps[1..], t);
      } else {
        SettledStays(u, steps[1..], t, i);
      }
    }
  }

  lemma FlightStep(s: State, i: nat, response: Response, step: Step)
    requires Invariant(s) && i < |s.calls| && Brings(s, i, response) && Enabled(s, step)
    ensures var t := Next(s, step);
            && i < |t.calls|
            && (Brings(t, i, response) || (t.calls[i].sent == [response] && !Waiting(t, i) && !Flying(t, i)))
  {
    StepAnswers(s, step, i);
    StepFlies(s, step);
    hide ChannelsFit, NoneForgotten, PendingIsCurrent, Decimal;
  }

  /** A reply under an id that no call waits under changes nothing. */
  lemma StrayReplyIsDropped(s: State, id: GoString, body: GoString)
    requires Invariant(s) && Enabled(s, TakeReply(id, body)) && forall i :: 0 <= i < |s.calls| && s.calls[i].id == id ==> !Waiting(s, i)
    ensures Next(s, TakeReply(id, body)) == s
  {
    hide ChannelsFit, NoneForgotten, PendingIsCurrent, Decimal;
  }

  /** A call begins waiting on the connection of the moment, is given up without touching the others,
      and an abandoned one is sent nothing, unless its reply was already in flight. */
  lemma AbandonedGetsNothing(s: State, i: nat, steps: seq<Step>, t: State)
    requires Invariant(s) && Enabled(s, Abandon(i)) && !Flying(s, i) && IsRun(Next(s, Abandon(i)), steps, t)
    ensures i < |t.calls| && t.calls[i].sent == s.calls[i].sent
    ensures forall k: nat :: k < |s.calls| && k != i ==> (Waiting(Next(s, Abandon(i)), k) <==> Waiting(s, k))
  {
    AbandonLeavesOthers(s, i);
    hide ChannelsFit, NoneForgotten, PendingIsCurrent, Decimal, IDsAreCalls;
    StepKeepsInvariant(s, Abandon(i));
    SettledStays(Next(s, Abandon(i)), steps, t, i);
  }

  lemma NewCallWaits(s: State)
    requires Invariant(s)
    ensures var t, n := Next(s, Register), |s.calls|;
            && |t.calls| == n + 1 && t.calls[n].connection == s.connection && t.calls[n].open && t.calls[n].sent == [] && Waiting(t, n)
            && t.calls[..n] == s.calls && forall k :: 0 <= k < n ==> s.calls[k].id != t.calls[n].id
  {
    NewID(s);
    hide Decimal;
  }
}
