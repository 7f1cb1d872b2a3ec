/** The event stream of one conversation: a bounded replay log and subscribers with bounded queues
    that are dropped when they cannot keep up. */
module EventStream {
  const MAX_REPLAY: nat := 256
  const QUEUE_SIZE: nat := 64

  datatype PublicEvent = PublicEvent(id: nat, kind: string, data: string)

  /** Everything published so far is numbered 1, 2, 3, ... */
  predicate Numbered(log: seq<PublicEvent>) {
    forall i :: 0 <= i < |log| ==> log[i].id == i + 1
  }

  function Last<T>(s: seq<T>, n: nat): seq<T> {
    if |s| <= n then s else s[|s| - n..]
  }

  /** The events of `s` whose ID is above `lastID`, in order. */
  function After(s: seq<PublicEvent>, lastID: nat): seq<PublicEvent> {
    if s == [] then [] else (if s[0].id > lastID then [s[0]] else []) + After(s[1..], lastID)
  }

  lemma {:induction false} AfterKeepsPrefixOrder(s: seq<PublicEvent>, e: PublicEvent, lastID: nat)
    ensures After(s + [e], lastID) == After(s, lastID) + if e.id > lastID then [e] else []
  {
    if s == [] {
      assert s + [e] == [e] && [e][1..] == [];
    } else {
      assert (s + [e])[1..] == s[1..] + [e];
      AfterKeepsPrefixOrder(s[1..], e, lastID);
    }
  }

  /** Replay of a numbered log: nothing after `lastID` is missing as long as the log has moved on by
      at most 256 events since. Otherwise exactly the 256 newest events are replayed. */
  lemma {:induction false} ReplayOfNumberedLog(log: seq<PublicEvent>, lastID: nat)
    requires Numbered(log)
    ensures After(Last(log, MAX_REPLAY), lastID) ==
            if lastID >= |log| then [] else if |log| - lastID <= MAX_REPLAY then log[lastID..] else Last(log, MAX_REPLAY)
  {
    hide After;
    var from := if |log| <= MAX_REPLAY then 0 else |log| - MAX_REPLAY;
    assert Last(log, MAX_REPLAY) == log[from..];
    AfterOfSuffix(log, from, lastID);
  }

  lemma {:induction false} AfterOfSuffix(log: seq<PublicEvent>, from: nat, lastID: nat)
    requires Numbered(log) && from <= |log|
    ensures After(log[from..], lastID) ==
            if lastID >= |log| then [] else if lastID <= from then log[from..] else log[lastID..]
    decreases |log| - from
  {
    if from < |log| {
      AfterOfSuffix(log, from + 1, lastID);
      assert log[from..][1..] == log[from + 1..];
      assert log[from..] == [log[from]] + log[from + 1..];
    }
  }

  /** A Go channel of capacity 64 and its history: `sent` is what was put into it, and the stream's log
      had `from` events when it was made. */
  class Subscriber {
    var queue: seq<PublicEvent>
    var closed: bool
    ghost var sent: seq<PublicEvent>
    ghost const from: nat

    constructor (ghost from: nat)
      ensures queue == [] && !closed && sent == [] && this.from == from
    {
      queue, closed, sent := [], false, [];
      this.from := from;
    }

    /** What a channel issued by a stream has been through: while it is subscribed it is open and has
        been given everything published since; once it has left it is closed and was given a prefix
        of that. What it still queues is the end of what it was given. */
    ghost predicate Fed(log: seq<PublicEvent>, subscribed: bool)
      reads this
    {
      && closed == !subscribed
      && from + |sent| <= |log| && sent == log[from..from + |sent|]
      && (subscribed ==> from + |sent| == |log|)
      && |queue| <= QUEUE_SIZE && |queue| <= |sent| && queue == sent[|sent| - |queue|..]
    }

    /** `select { case c <- event: default: }`; sending on a closed channel would panic. */
    method TrySend(event: PublicEvent) returns (ok: bool)
      requires !closed && |queue| <= QUEUE_SIZE
      modifies this
      ensures ok == (|old(queue)| < QUEUE_SIZE)
      ensures closed == old(closed)
      ensures queue == old(queue) + if ok then [event] else []
      ensures sent == old(sent) + if ok then [event] else []
    {
      ok := |queue| < QUEUE_SIZE;
      if ok {
        queue, sent := queue + [event], sent + [event];
      }
    }

    /** One round of the publishing loop: a channel that cannot take the event is closed. */
    method Offer(event: PublicEvent, ghost log: seq<PublicEvent>) returns (ok: bool)
      requires Fed(log, true)
      modifies this
      ensures Fed(log + [event], ok) && ok == (|old(queue)| < QUEUE_SIZE)
    {
      ok := TrySend(event);
      if !ok {
        Close();
      }
    }

    lemma ClosedStaysFed(log: seq<PublicEvent>, event: PublicEvent)
      requires Fed(log, false)
      ensures Fed(log + [event], false)
    {
    }

    /** Closing a closed channel would panic. */
    method Close()
      requires !closed
      modifies this`closed
      ensures closed
    {
      closed := true;
    }

    /** The reader takes the oldest queued event; a closed channel still delivers its queue. */
    method Receive() returns (event: PublicEvent)
      requires queue != []
      modifies this`queue
      ensures old(queue) == [event] + queue
    {
      event := queue[0];
      queue := queue[1..];
    }
  }

  class AssistantEventStream {
    var nextID: nat
    var replay: seq<PublicEvent>
    var subscribers: set<Subscriber>
    ghost var log: seq<PublicEvent>
    ghost var issued: set<Subscriber>

    ghost predicate Valid()
      reads this, issued
    {
      && nextID == |log| && Numbered(log)
      && replay == Last(log, MAX_REPLAY)
      && subscribers <= issued
      && forall c :: c in issued ==> c.Fed(log, c in subscribers)
    }

    constructor ()
      ensures Valid() && log == [] && issued == {}
    {
      nextID, replay, subscribers := 0, [], {};
      log, issued := [], {};
    }

    method Publish(kind: string, data: string)
      requires Valid()
      modifies this, subscribers
      ensures Valid() && issued == old(issued)
      ensures log == old(log) + [PublicEvent(|old(log)| + 1, kind, data)]
      ensures subscribers == set c | c in old(subscribers) && |old(c.queue)| < QUEUE_SIZE
    {
      ghost var before := log;
      var event := Append(kind, data);
      forall c | c in issued - subscribers
        ensures c.Fed(log, false)
      {
        c.ClosedStaysFed(before, event);
      }
      Deliver(before, event);
    }

    /** Numbers the event and puts it into the replay log, which keeps the newest 256. */
    method Append(kind: string, data: string) returns (event: PublicEvent)
      requires nextID == |log| && Numbered(log) && replay == Last(log, MAX_REPLAY)
      modifies this`nextID, this`replay, this`log
      ensures nextID == |log| && Numbered(log) && replay == Last(log, MAX_REPLAY)
      ensures log == old(log) + [event] && event == PublicEvent(|log|, kind, data)
    {
      nextID := nextID + 1;
      event := PublicEvent(nextID, kind, data);
      replay := replay + [event];
      if |replay| > MAX_REPLAY {
        replay := replay[|replay| - MAX_REPLAY..];
      }
      log := log + [event];
    }

    /** Offers the event to every subscriber, in no particular order. */
    method Deliver(ghost before: seq<PublicEvent>, event: PublicEvent)
      requires subscribers <= issued && log == before + [event]
      requires forall c :: c in issued ==> c.Fed(if c in subscribers then before else log, c in subscribers)
      modifies this`subscribers, subscribers
      ensures subscribers == set c | c in old(subscribers) && |old(c.queue)| < QUEUE_SIZE
      ensures forall c :: c in issued ==> c.Fed(log, c in subscribers)
    {
      hide Subscriber.Fed;
      var rest := subscribers;
      while rest != {}
        invariant rest <= subscribers <= old(subscribers)
        invariant forall c :: c in rest ==> c.Fed(before, true) && unchanged(c)
        invariant forall c :: c in issued && c !in rest ==> c.Fed(log, c in subscribers)
        invariant forall c :: c in old(subscribers) && c !in rest ==> (c in subscribers <==> |old(c.queue)| < QUEUE_SIZE)
        decreases rest
      {
        var c :| c in rest;
        rest := rest - {c};
        var ok := c.Offer(event, before);
        if !ok {
          subscribers := subscribers - {c};
        }
      }
    }

    /** The events of the replay log above `last`. */
    method Missed(last: nat) returns (missed: seq<PublicEvent>)
      ensures missed == After(replay, last)
    {
      missed := [];
      for i := 0 to |replay|
        invariant missed == After(replay[..i], last)
      {
        AfterKeepsPrefixOrder(replay[..i], replay[i], last);
        assert replay[..i] + [replay[i]] == replay[..i + 1];
        if replay[i].id > last {
          missed := missed + [replay[i]];
        }
      }
      assert replay[..|replay|] == replay;
    }

    /** `lastID` counts only when the request carried a parsable Last-Event-ID. */
    method Subscribe(lastID: nat, replayRequested: bool) returns (missed: seq<PublicEvent>, channel: Subscriber)
      requires Valid()
      modifies this
      ensures Valid() && log == old(log) && fresh(channel)
      ensures issued == old(issued) + {channel} && subscribers == old(subscribers) + {channel}
      ensures channel.from == |log| && channel.sent == []
      ensures missed == Offered(log, if replayRequested then lastID else |log|, channel.from, channel.from)
    {
      var last := if replayRequested then lastID else nextID;
      missed := Missed(last);
      assert log[..|log|] == log;
      channel := new Subscriber(|log|);
      subscribers := subscribers + {channel};
      issued := issued + {channel};
    }

    /** The unsubscribe function handed out with a channel; calling it again changes nothing. */
    method Unsubscribe(channel: Subscriber)
      requires Valid() && channel in issued
      modifies this, channel
      ensures Valid() && log == old(log) && issued == old(issued)
      ensures subscribers == old(subscribers) - {channel} && channel.closed
      ensures channel.sent == old(channel.sent) && channel.queue == old(channel.queue)
    {
      if channel in subscribers {
        subscribers := subscribers - {channel};
        channel.Close();
      }
    }
  }

  // ---------------------------------------------------------------- resuming after drops

  /** What a connection resuming after `lastID` is offered: the replay at the moment it subscribed,
      then every event published while it was subscribed. */
  function Offered(log: seq<PublicEvent>, lastID: nat, connectedAt: nat, upto: nat): seq<PublicEvent>
    requires connectedAt <= upto <= |log|
  {
    After(Last(log[..connectedAt], MAX_REPLAY), lastID) + log[connectedAt..upto]
  }

  /** An issued channel carries exactly the live part of what its connection is offered. */
  lemma ChannelCarriesTheLivePart(stream: AssistantEventStream, c: Subscriber, lastID: nat)
    requires stream.Valid() && c in stream.issued
    ensures c.from + |c.sent| <= |stream.log|
    ensures Offered(stream.log, lastID, c.from, c.from + |c.sent|) ==
            After(Last(stream.log[..c.from], MAX_REPLAY), lastID) + c.sent
  {
  }

  /** A resumed connection misses nothing exactly when at most 256 events were published meanwhile. */
  lemma ResumeIsGapFree(log: seq<PublicEvent>, lastID: nat, connectedAt: nat, upto: nat)
    requires Numbered(log) && lastID <= connectedAt <= upto <= |log|
    ensures Offered(log, lastID, connectedAt, upto) == log[lastID..upto] <==> connectedAt - lastID <= MAX_REPLAY
  {
    ReplayOfNumberedLog(log[..connectedAt], lastID);
    assert log[..connectedAt][lastID..] == log[lastID..connectedAt];
    assert log[lastID..connectedAt] + log[connectedAt..upto] == log[lastID..upto];
  }

  /** One connection of a client: subscribed when `connectedAt` events had been published, given
      everything up to `upto`, and cut off after the client had read `taken` events. */
  datatype Connection = Connection(connectedAt: nat, upto: nat, taken: nat)

  function Read(log: seq<PublicEvent>, lastID: nat, c: Connection): seq<PublicEvent>
    requires c.connectedAt <= c.upto <= |log| && c.taken <= |Offered(log, lastID, c.connectedAt, c.upto)|
  {
    Offered(log, lastID, c.connectedAt, c.upto)[..c.taken]
  }

  /** The ID a client sends when it reconnects: the last one it read. */
  function LastSeen(lastID: nat, events: seq<PublicEvent>): nat {
    if events == [] then lastID else events[|events| - 1].id
  }

  /** A client reconnects any number of times, each time before more than 256 further events. */
  predicate InTime(log: seq<PublicEvent>, lastID: nat, cs: seq<Connection>)
    decreases |cs|
  {
    cs == [] ||
    (&& lastID <= cs[0].connectedAt <= cs[0].upto <= |log|
     && cs[0].connectedAt - lastID <= MAX_REPLAY
     && cs[0].taken <= |Offered(log, lastID, cs[0].connectedAt, cs[0].upto)|
     && InTime(log, LastSeen(lastID, Read(log, lastID, cs[0])), cs[1..]))
  }

  function AllRead(log: seq<PublicEvent>, lastID: nat, cs: seq<Connection>): seq<PublicEvent>
    requires InTime(log, lastID, cs)
    decreases |cs|
  {
    if cs == [] then []
    else
      var events := Read(log, lastID, cs[0]);
      events + AllRead(log, LastSeen(lastID, events), cs[1..])
  }

  lemma OneConnection(log: seq<PublicEvent>, lastID: nat, c: Connection)
    requires Numbered(log) && lastID <= c.connectedAt <= c.upto <= |log|
    requires c.connectedAt - lastID <= MAX_REPLAY && c.taken <= |Offered(log, lastID, c.connectedAt, c.upto)|
    ensures lastID + c.taken <= |log| && Read(log, lastID, c) == log[lastID..lastID + c.taken]
    ensures LastSeen(lastID, Read(log, lastID, c)) == lastID + c.taken
  {
    hide After;
    ResumeIsGapFree(log, lastID, c.connectedAt, c.upto);
    assert log[lastID..c.upto][..c.taken] == log[lastID..lastID + c.taken];
  }

  lemma FirstInTime(log: seq<PublicEvent>, lastID: nat, cs: seq<Connection>)
    requires cs != [] && InTime(log, lastID, cs)
    ensures lastID <= cs[0].connectedAt <= cs[0].upto <= |log| && cs[0].connectedAt - lastID <= MAX_REPLAY
    ensures cs[0].taken <= |Offered(log, lastID, cs[0].connectedAt, cs[0].upto)|
    ensures InTime(log, LastSeen(lastID, Read(log, lastID, cs[0])), cs[1..])
  {
    hide Read, LastSeen, Offered;
  }

  /** One connection moves the client on by what it read, and the others start from there. */
  lemma ReadOn(log: seq<PublicEvent>, lastID: nat, cs: seq<Connection>) returns (next: nat)
    requires Numbered(log) && cs != [] && InTime(log, lastID, cs)
    ensures lastID <= next <= |log| && InTime(log, next, cs[1..])
    ensures AllRead(log, lastID, cs) == log[lastID..next] + AllRead(log, next, cs[1..])
  {
    hide Read, LastSeen, Offered, After, Numbered;
    FirstInTime(log, lastID, cs);
    OneConnection(log, lastID, cs[0]);
    next := lastID + cs[0].taken;
  }

  lemma SlicesJoin<T>(s: seq<T>, a: nat, b: nat, c: nat)
    requires a <= b <= c <= |s|
    ensures s[a..b] + s[b..c] == s[a..c]
  {
  }

  /** Exactly-once resume: over any number of drops the client reads the events after its first ID
      one by one, in order, none twice and none left out. */
  lemma {:induction false} EveryEventOnce(log: seq<PublicEvent>, lastID: nat, cs: seq<Connection>)
    requires Numbered(log) && lastID <= |log| && InTime(log, lastID, cs)
    ensures var n := lastID + |AllRead(log, lastID, cs)|; n <= |log| && AllRead(log, lastID, cs) == log[lastID..n]
    decreases |cs|
  {
    if cs != [] {
      hide Numbered, InTime, AllRead;
      var next := ReadOn(log, lastID, cs);
      EveryEventOnce(log, next, cs[1..]);
      var n := next + |AllRead(log, next, cs[1..])|;
      SlicesJoin(log, lastID, next, n);
      assert AllRead(log, lastID, cs) == log[lastID..n];
    }
  }
}
