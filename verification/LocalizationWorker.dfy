/** The tables of the localization queue and the worker that drains it. */
module LocalizationWorker {
  import opened GoStrings
  import opened Options
  import RepositoryStore
  import opened LocalizationQueue

  /** A candidate whose row no other transaction holds locked. */
  predicate Free(q: Queue, locked: set<nat>, i: nat, now: int) {
    Claimable(q, i, now) && i !in locked
  }

  /** No job can be claimed at this time, save those that are locked. */
  ghost predicate Idle(q: Queue, locked: set<nat>, now: int) {
    forall i: nat :: !Free(q, locked, i, now)
  }

  /** One candidate has been claimed. */
  ghost predicate ClaimedAs(texts: Texts, q: Queue, i: nat, now: int, t: Queue) {
    i < |q.revisions| && Claimable(q, i, now) && t == Claimed(texts, q, i, now)
  }

  /** What the claiming query orders by: the pages' current revisions, and each revision's time and id. */
  datatype Order = Order(current: nat -> bool, created: nat -> int, id: nat -> int)

  predicate Precedes(o: Order, i: nat, j: nat) {
    if o.current(i) != o.current(j) then o.current(i)
    else if o.created(i) != o.created(j) then o.created(i) < o.created(j)
    else o.id(i) < o.id(j)
  }

  /** Among the free candidates this is one, and none comes before it. */
  ghost predicate Preferred(q: Queue, o: Order, locked: set<nat>, i: nat, now: int) {
    Free(q, locked, i, now) && forall j: nat :: Free(q, locked, j, now) ==> !Precedes(o, j, i)
  }

  /** Which statement of a claim fails: the first inserts nothing, the second leases nothing, or it leases
      and the worker cannot read the answer. */
  datatype Fault = NoFault | EnlistFails | LeaseFails | AnswerUnread

  class LocalizationStore {
    const texts: Texts
    var revisions: seq<RepositoryStore.Revision>
    var jobs: seq<Job>
    var tickets: seq<Ticket>
    var rows: seq<Row>

    constructor (t: Texts)
      ensures texts == t && Valid() && Abs() == EMPTY
    {
      texts, revisions, jobs, tickets, rows := t, [], [], [], [];
      new;
      EmptyIsKept(texts);
    }

    function Abs(): Queue
      reads this
    {
      Queue(revisions, jobs, tickets, rows)
    }

    ghost predicate Valid()
      reads this
    {
      Invariant(texts, Abs())
    }

    /** Enlists new revisions and leases the free candidate that comes first, if there is any. */
    method ClaimLocalization(order: Order, locked: set<nat>, fault: Fault, now: int) returns (ok: bool, ticket: Option<nat>)
      requires Valid()
      modifies this
      ensures Valid() && revisions == old(revisions)
      ensures fault.EnlistFails? ==> !ok && ticket.None? && Abs() == old(Abs())
      ensures fault.LeaseFails? ==> !ok && ticket.None? && Abs() == Enlisted(old(Abs()))
      ensures fault.NoFault? ==> ok
      ensures fault.AnswerUnread? ==> ticket.None?
      ensures fault.NoFault? || fault.AnswerUnread? ==>
                if Idle(Enlisted(old(Abs())), locked, now) then ok && ticket.None? && Abs() == Enlisted(old(Abs()))
                else
                  && ok == ticket.Some? == fault.NoFault? && (ticket.Some? ==> ticket.value == |old(tickets)|)
                  && exists i: nat :: ClaimedAs(texts, Enlisted(old(Abs())), i, now, Abs())
                                      && Preferred(Enlisted(old(Abs())), order, locked, i, now)
    {
      hide Invariant, Claimed, SourceOf;
      if fault.EnlistFails? {
        return false, None;
      }
      JobsAreRevisions(texts, Abs());
      EnlistKeeps(texts, Abs());
      EnlistKeepsRevisions(Abs());
      ghost var enlisted := Enlisted(Abs());
      if |jobs| < |revisions| {
        jobs := jobs + seq(|revisions| - |jobs|, _ => Job(0, None, 0, false));
      }
      assert Abs() == enlisted;
      if fault.LeaseFails? {
        return false, None;
      }
      var first := FirstCandidate(order, locked, now);
      if first.None? {
        return true, None;
      }
      var i := first.value;
      ClaimKeeps(texts, enlisted, i, now);
      LeaseOne(i, now);
      assert ClaimedAs(texts, enlisted, i, now, Abs());
      if fault.AnswerUnread? {
        return false, None;
      }
      return true, Some(|tickets| - 1);
    }

    method FirstCandidate(order: Order, locked: set<nat>, now: int) returns (first: Option<nat>)
      ensures first.None? <==> Idle(Abs(), locked, now)
      ensures first.Some? ==> Preferred(Abs(), order, locked, first.value, now)
    {
      first := None;
      for i := 0 to |jobs|
        invariant first.None? ==> forall j: nat :: j < i ==> !Free(Abs(), locked, j, now)
        invariant first.Some? ==> Free(Abs(), locked, first.value, now)
        invariant first.Some? ==> forall j: nat :: j < i && Free(Abs(), locked, j, now) ==> !Precedes(order, j, first.value)
      {
        if Free(Abs(), locked, i, now) && (first.None? || Precedes(order, i, first.value)) {
          first := Some(i);
        }
      }
    }

    /** The guarded update of one claimed job. */
    method LeaseOne(i: nat, now: int)
      requires i < |jobs| && i < |revisions|
      modifies this`jobs, this`tickets
      ensures Abs() == Claimed(texts, old(Abs()), i, now) && |tickets| == |old(tickets)| + 1
    {
      var job := jobs[i];
      jobs := jobs[i := job.(lease := Some(|tickets|), attempts := job.attempts + 1, availableAt := now + LEASE_SECONDS)];
      tickets := tickets + [Ticket(i, revisions[i].hash, SourceOf(texts, revisions[i]))];
    }

    method CompleteLocalization(k: nat, content: Content, now: int) returns (ok: bool)
      requires Valid() && k < |tickets|
      modifies this
      ensures Valid() && revisions == old(revisions) && tickets == old(tickets)
      ensures ok <==> Translates(texts, tickets[k].source, content) && Completable(old(Abs()), k, now)
      ensures Abs() == Complete(texts, old(Abs()), k, content, now)
    {
      hide Invariant, Translates, Completable;
      JobsAreRevisions(texts, Abs());
      StepKeepsInvariant(texts, Abs(), Finish(k, content, now));
      ok := Validate(texts, tickets[k].source, content);
      if !ok || !Completable(Abs(), k, now) {
        return false;
      }
      CompletableHasJob(Abs(), k, now);
      var i := tickets[k].revision;
      jobs := jobs[i := jobs[i].(completed := true, lease := None)];
      rows := rows + [Row(i, MaxVersion(rows, i) + 1, tickets[k].sourceHash, content)];
    }

    static lemma CompletableHasJob(q: Queue, k: nat, now: int)
      requires Completable(q, k, now)
      ensures k < |q.tickets| && q.tickets[k].revision < |q.jobs|
    {
    }

    method FailLocalization(k: nat, now: int)
      requires Valid() && k < |tickets|
      modifies this
      ensures Valid() && revisions == old(revisions) && tickets == old(tickets)
      ensures Abs() == Fail(old(Abs()), k, now)
    {
      hide Invariant;
      JobsAreRevisions(texts, Abs());
      StepKeepsInvariant(texts, Abs(), GiveUp(k, now));
      var i := tickets[k].revision;
      if i < |jobs| && jobs[i].lease == Some(k) && !jobs[i].completed {
        jobs := jobs[i := jobs[i].(lease := None, availableAt := now + RETRY_SECONDS)];
      }
    }

    /** `Step`: claims a job and completes or fails it; `translated` is the translator's answer, which
        arrives at time `later`. */
    method Step(order: Order, locked: set<nat>, fault: Fault, now: int, translated: Option<Content>, later: int)
      returns (processed: bool, ok: bool)
      requires Valid()
      modifies this
      ensures Valid() && revisions == old(revisions)
      ensures processed ==> AttemptsLeft(Enlisted(Abs()).jobs) + 1 == AttemptsLeft(Enlisted(old(Abs())).jobs)
      ensures !processed && ok ==> Abs() == Enlisted(old(Abs())) && Idle(Abs(), locked, now)
      ensures !processed && !ok ==> !fault.NoFault? && AttemptsLeft(Enlisted(Abs()).jobs) <= AttemptsLeft(Enlisted(old(Abs())).jobs)
    {
      hide Invariant, Claimed, Complete, Fail, AttemptsLeft, Preferred;
      EnlistKeeps(texts, Abs());
      EnlistKeepsRevisions(Abs());
      ghost var enlisted := Enlisted(Abs());
      assert Enlisted(enlisted) == enlisted;
      var claimed, ticket := ClaimLocalization(order, locked, fault, now);
      ghost var i: nat;
      if (fault.NoFault? || fault.AnswerUnread?) && !Idle(enlisted, locked, now) {
        i :| ClaimedAs(texts, enlisted, i, now, Abs());
        ClaimsUseUpAttempts(texts, enlisted, LocalizationQueue.Step.Claim(Some(i), now));
        ClaimAddsTicket(enlisted, i, now);
        assert Enlisted(Abs()) == Abs();
      }
      if ticket.None? {
        return false, claimed;
      }
      var k := ticket.value;
      ghost var after := Abs();
      if translated.Some? {
        var valid := Validate(texts, tickets[k].source, translated.value);
        if valid {
          ClaimsUseUpAttempts(texts, after, LocalizationQueue.Step.Finish(k, translated.value, later));
          ok := CompleteLocalization(k, translated.value, later);
          assert Enlisted(Abs()) == Abs();
          return true, ok;
        }
      }
      ClaimsUseUpAttempts(texts, after, LocalizationQueue.Step.GiveUp(k, later));
      FailLocalization(k, later);
      assert Enlisted(Abs()) == Abs();
      return true, false;
    }

    lemma ClaimAddsTicket(q: Queue, i: nat, now: int)
      requires i < |q.jobs| && i < |q.revisions|
      ensures |Claimed(texts, q, i, now).tickets| == |q.tickets| + 1 && |Claimed(texts, q, i, now).jobs| == |q.jobs|
    {
    }

    /** The rounds of `Run` between two waits: it ends, after at most as many claims as there were
        attempts left over the jobs. It stops idle, or because a round failed. */
    method Drain(order: nat -> Order, locked: nat -> set<nat>, fault: nat -> Fault, clock: nat -> int, translate: nat -> Option<Content>)
      returns (claims: nat, idle: bool)
      requires Valid()
      modifies this
      ensures Valid() && revisions == old(revisions)
      ensures claims + AttemptsLeft(Enlisted(Abs()).jobs) <= AttemptsLeft(Enlisted(old(Abs())).jobs)
      ensures (forall n: nat :: fault(n).NoFault?) ==> claims + AttemptsLeft(Enlisted(Abs()).jobs) == AttemptsLeft(Enlisted(old(Abs())).jobs)
      ensures idle ==> exists n: nat :: Idle(Abs(), locked(n), clock(2 * n))
    {
      hide Invariant, AttemptsLeft;
      ghost var bound := AttemptsLeft(Enlisted(Abs()).jobs);
      claims, idle := 0, false;
      var round := 0;
      var again := true;
      while again
        invariant Valid() && revisions == old(revisions)
        invariant claims + AttemptsLeft(Enlisted(Abs()).jobs) <= bound
        invariant (forall n: nat :: fault(n).NoFault?) ==> claims + AttemptsLeft(Enlisted(Abs()).jobs) == bound
        invariant idle ==> !again && exists n: nat :: Idle(Abs(), locked(n), clock(2 * n))
        decreases AttemptsLeft(Enlisted(Abs()).jobs), again
      {
        ghost var before := Abs();
        var processed, ok := Step(order(round), locked(round), fault(round), clock(2 * round), translate(round), clock(2 * round + 1));
        assert Enlisted(Enlisted(before)) == Enlisted(before);
        if processed {
          claims := claims + 1;
        } else {
          idle := ok;
        }
        again := processed && ok;
        round := round + 1;
      }
    }
  }
}
