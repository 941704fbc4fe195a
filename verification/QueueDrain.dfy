/**
  How long a backlog can last (queue.js:116-148, 204-215, 227-246).

  A live job owes MAX_ATTEMPTS - attempts more answers. While no answer is a
  lease, every answer that does not park the queue pays at least one of them, so
  a backlog of n jobs is acked or dead after at most 5n answers. A lease pays
  nothing that counts: nothing ever checks how often a job was leased.
*/
module QueueDrain {
  import opened Prelude
  import opened Queue
  import opened QueueRuns
  import opened QueueConservation

  function Share(jobs: map<Id, Job>, id: Id): int {
    if id in jobs then MAX_ATTEMPTS - jobs[id].attempts else 0
  }

  /** What the jobs with ids below `n` still owe. */
  function Debt(jobs: map<Id, Job>, n: nat): int {
    if n == 0 then 0 else Debt(jobs, n - 1) + Share(jobs, n - 1)
  }

  function Owed(w: World): int {
    Debt(w.store.jobs, w.store.nextId)
  }

  lemma {:induction false} DebtMoves(before: map<Id, Job>, after: map<Id, Job>, id: Id, n: nat)
    requires forall other: nat :: other < n && other != id ==> Share(before, other) == Share(after, other)
    ensures Debt(after, n) - Debt(before, n) == if id < n then Share(after, id) - Share(before, id) else 0
  {
    if n > 0 {
      DebtMoves(before, after, id, n - 1);
    }
  }

  lemma {:induction false} DebtCoversJobs(jobs: map<Id, Job>, n: nat, id: Id)
    requires forall other :: other in jobs ==> jobs[other].attempts < MAX_ATTEMPTS
    ensures 0 <= Debt(jobs, n)
    ensures id in jobs && id < n ==> 1 <= Debt(jobs, n)
  {
    if n > 0 {
      DebtCoversJobs(jobs, n - 1, id);
    }
  }

  predicate NoLeases(es: seq<Event>) {
    forall e :: e in es ==> !(e.Answers? && e.outcome.Leased?)
  }

  /** Answers that did not park the queue. */
  function Calls(es: seq<Event>): nat {
    if es == [] then 0 else Calls(es[1..]) + if es[0].Answers? && !es[0].outcome.Parked? then 1 else 0
  }

  function Enqueued(es: seq<Event>): nat {
    if es == [] then 0 else Enqueued(es[1..]) + if es[0].Enqueues? then 1 else 0
  }

  ghost predicate Modest(w: World) {
    forall id :: id in w.store.jobs ==> w.store.jobs[id].attempts <= MAX_ATTEMPTS - 1
  }

  /** However alarms, acks and enqueues interleave: without leases no waiting job has five attempts. */
  lemma {:induction false} AttemptsAreBounded(w: World, es: seq<Event>)
    requires Modest(w) && Legal(w, es) && NoLeases(es)
    ensures Modest(Run(w, es))
    decreases |es|
  {
    if es != [] {
      assert es[0] in es;
      StepIsModest(w, es[0]);
      AttemptsAreBounded(Step(w, es[0]), es[1..]);
    }
  }

  lemma StepIsModest(w: World, e: Event)
    requires Modest(w) && Enabled(w, e) && !(e.Answers? && e.outcome.Leased?)
    ensures Modest(Step(w, e))
  {
    if e.Answers? && !e.outcome.Parked? {
      SettleTouchesOneRow(w.store, w.flight.rest[0], e.outcome, w.clock);
    }
  }

  ghost predicate Solvent(w: World) {
    Partitioned(w) && Modest(w)
  }

  lemma AnswerPays(w: World, outcome: Outcome)
    requires Solvent(w) && Enabled(w, Answers(outcome)) && !outcome.Leased? && !outcome.Parked?
    ensures var w2 := Step(w, Answers(outcome));
            && Owed(w2) < Owed(w)
            && forall id :: id in w2.store.jobs ==> w2.store.jobs[id].attempts <= MAX_ATTEMPTS - 1
  {
    var row := w.flight.rest[0];
    assert row in Pending(w) && row.id in w.store.jobs;
    var s2 := Settle(w.store, row, outcome, w.clock);
    SettleTouchesOneRow(w.store, row, outcome, w.clock);
    DebtMoves(w.store.jobs, s2.jobs, row.id, w.store.nextId);
  }

  lemma EnqueuePays(w: World, e: Event)
    requires Solvent(w) && e.Enqueues?
    ensures Owed(Step(w, e)) == Owed(w) + MAX_ATTEMPTS
    ensures forall id :: id in Step(w, e).store.jobs ==> Step(w, e).store.jobs[id].attempts <= MAX_ATTEMPTS - 1
  {
    DebtMoves(w.store.jobs, Step(w, e).store.jobs, w.store.nextId, w.store.nextId);
  }

  lemma AckPays(w: World, e: Event)
    requires Solvent(w) && e.Acks?
    ensures Owed(Step(w, e)) <= Owed(w)
    ensures forall id :: id in Step(w, e).store.jobs ==> Step(w, e).store.jobs[id].attempts <= MAX_ATTEMPTS - 1
  {
    DebtMoves(w.store.jobs, Step(w, e).store.jobs, e.id, w.store.nextId);
  }

  lemma StepPays(w: World, e: Event)
    requires Solvent(w) && Enabled(w, e) && !(e.Answers? && e.outcome.Leased?)
    requires w.flight.Draining? ==> e.Tick? || e.Answers?
    ensures Solvent(Step(w, e))
    ensures Owed(Step(w, e)) + Calls([e]) <= Owed(w) + MAX_ATTEMPTS * Enqueued([e])
  {
    StepConserves(w, e);
    StepPartitions(w, e);
    match e
    case Answers(outcome) => if !outcome.Parked? { AnswerPays(w, outcome); }
    case Enqueues(_) => EnqueuePays(w, e);
    case Acks(_, _, _) => AckPays(w, e);
    case Fires =>
    case Tick(_) =>
  }

  /**
    Atomic alarms, no leases: every live job stays below five attempts, and every
    answer that does not park the queue is paid for out of what the jobs owe.
  */
  lemma {:induction false} AnswersAreBounded(w: World, es: seq<Event>)
    requires Solvent(w) && Uninterrupted(w, es) && NoLeases(es)
    ensures Legal(w, es) && Solvent(Run(w, es))
    ensures Calls(es) + Owed(Run(w, es)) <= Owed(w) + MAX_ATTEMPTS * Enqueued(es)
    decreases |es|
  {
    UninterruptedIsLegal(w, es);
    if es != [] {
      StepPays(w, es[0]);
      assert es[0] in es;
      AnswersAreBounded(Step(w, es[0]), es[1..]);
      assert Calls(es) == Calls(es[1..]) + Calls([es[0]]);
      assert Enqueued(es) == Enqueued(es[1..]) + Enqueued([es[0]]);
    }
  }

  /** n jobs enqueued on a fresh queue are all acked or dead after at most 5n such answers. */
  lemma BacklogDrains(clock: int, es: seq<Event>)
    requires Uninterrupted(Start(clock), es) && NoLeases(es)
    ensures Legal(Start(clock), es)
    ensures Calls(es) <= 5 * Enqueued(es)
    ensures Calls(es) == 5 * Enqueued(es) ==> Run(Start(clock), es).store.jobs == map[]
  {
    AnswersAreBounded(Start(clock), es);
    var w := Run(Start(clock), es);
    DebtCoversJobs(w.store.jobs, w.store.nextId, 0);
    forall id | id in w.store.jobs ensures 1 <= Owed(w) {
      DebtCoversJobs(w.store.jobs, w.store.nextId, id);
    }
  }

  // ---- delays ----

  lemma {:induction false} PowersUpTo(n: nat, m: nat)
    requires n <= m
    ensures 1 <= Pow2(n) <= Pow2(m)
  {
    if n < m {
      PowersUpTo(n, m - 1);
    } else if n > 0 {
      PowersUpTo(n - 1, m - 1);
    }
  }

  lemma BackoffsBounded(n: nat)
    requires n < MAX_ATTEMPTS
    ensures 30_000 <= AckBackoff(n) <= 240_000
    ensures n > 0 ==> 30_000 <= RetryBackoff(n) <= 240_000
  {
    assert Pow2(3) == 8;
    PowersUpTo(if n == 0 then 0 else n - 1, 3);
  }

  /** With or without leases, a retry waits between half a minute and four minutes. */
  lemma RetryDelayBounded(w: World, e: Event, id: Id)
    requires Conserved(w) && Enabled(w, e) && id in w.store.jobs && id in Step(w, e).store.jobs
    ensures var before, after := w.store.jobs[id].notBefore, Step(w, e).store.jobs[id].notBefore;
            after == before || w.clock + 30_000 <= after <= w.clock + 240_000
  {
    match e
    case Acks(acked, failed, _) =>
      if w.store.jobs[id].attempts < MAX_ATTEMPTS { BackoffsBounded(w.store.jobs[id].attempts); }
    case Answers(outcome) =>
      var row := w.flight.rest[0];
      if outcome.Failed? && row.attempts + 1 < MAX_ATTEMPTS { BackoffsBounded(row.attempts + 1); }
    case Tick(_) =>
    case Enqueues(_) => assert id in w.ledger.issued;
    case Fires =>
  }

  // ---- leases do not run out ----

  /** Start, one enqueue, then n leases that nobody ever acks. */
  function LeasedForever(n: nat): seq<Event> {
    if n == 0 then [Enqueues("job")] else LeasedForever(n - 1) + LeaseRound(n)
  }

  function LeaseRound(n: nat): seq<Event> {
    [Fires, Answers(Leased(None)), Tick(n * LEASE_MS)]
  }

  function AfterLeases(n: nat): World {
    World(Store(map[1 := Job("job", n, 0, n * LEASE_MS, 0)], map[], 2, 0, Some(n * LEASE_MS)),
          Idle, n * LEASE_MS, Ledger(map[1 := "job"], {}, map[1 := n]))
  }

  lemma OnlyJobIsDue(w: World)
    requires w.store.jobs.Keys == {1} && w.store.nextId == 2 && w.store.parkedUntil <= w.clock
    requires Ready(w.store.jobs[1], w.clock)
    ensures Batch(w.store, w.clock) == [RowOf(1, w.store.jobs[1])]
  {
    DueRowsSelects(w.store.jobs, 0, 2, w.clock, BATCH);
    var rows := Batch(w.store, w.clock);
    assert RowOf(1, w.store.jobs[1]) in rows;
    assert forall r :: r in rows ==> r.id == 1;
    assert |rows| == 1;
  }

  lemma WakeOfOnlyJob(jobs: map<Id, Job>)
    requires jobs.Keys == {1}
    ensures NextWake(jobs) == Some(WakeAt(jobs[1]))
  {
    assert 1 in jobs;
  }

  /**
    A job that is leased again and again is never dead-lettered: for every n there
    is a run after which it is still waiting with n attempts. Five is no bound.
  */
  lemma {:induction false} LeasesAreUnbounded(n: nat)
    ensures Uninterrupted(Start(0), LeasedForever(n)) && Legal(Start(0), LeasedForever(n))
    ensures Run(Start(0), LeasedForever(n)) == AfterLeases(n)
  {
    if n == 0 {
      var w := Step(Start(0), Enqueues("job"));
      WakeOfOnlyJob(w.store.jobs);
    } else {
      LeasesAreUnbounded(n - 1);
      OneMoreLease(n);
      Append(Start(0), LeasedForever(n - 1), LeaseRound(n));
      AppendUninterrupted(Start(0), LeasedForever(n - 1), LeaseRound(n));
    }
  }

  lemma OneMoreLease(n: nat)
    requires n > 0
    ensures var w, es := AfterLeases(n - 1), LeaseRound(n);
            Uninterrupted(w, es) && Legal(w, es) && Run(w, es) == AfterLeases(n)
  {
    var w := AfterLeases(n - 1);
    OnlyJobIsDue(w);
    var w1 := Step(w, Fires);
    assert w1.flight == Draining(w.clock, [Row(1, "job", n - 1)]);
    LeaseEnds(w1, n);
    var rest := [Answers(Leased(None)), Tick(n * LEASE_MS)];
    assert LeaseRound(n) == [Fires] + rest && LeaseRound(n)[1..] == rest;
    Prepend(w, Fires, rest);
  }

  lemma LeaseEnds(w: World, n: nat)
    requires n > 0 && w == AfterLeases(n - 1).(flight := Draining((n - 1) * LEASE_MS, [Row(1, "job", n - 1)]),
                                               store := AfterLeases(n - 1).store.(alarm := None))
    ensures var es := [Answers(Leased(None)), Tick(n * LEASE_MS)];
            Uninterrupted(w, es) && Legal(w, es) && Run(w, es) == AfterLeases(n)
  {
    var answer, tick := Answers(Leased(None)), Tick(n * LEASE_MS);
    var w2 := Step(w, answer);
    assert w2.store.jobs == map[1 := Job("job", n, 0, n * LEASE_MS, 0)];
    WakeOfOnlyJob(w2.store.jobs);
    assert Step(w2, tick) == AfterLeases(n);
    assert [answer, tick][1..] == [tick] && [tick][1..] == [];
    Prepend(w2, tick, []);
    Prepend(w, answer, [tick]);
    assert [answer] + [tick] == [answer, tick] && [tick] + [] == [tick];
    assert Uninterrupted(w2, [tick]);
  }

  lemma {:induction false} AppendUninterrupted(w: World, es: seq<Event>, more: seq<Event>)
    requires Uninterrupted(w, es) && Legal(w, es) && Uninterrupted(Run(w, es), more)
    ensures Uninterrupted(w, es + more)
    decreases |es|
  {
    if es == [] {
      assert es + more == more;
    } else {
      AppendUninterrupted(Step(w, es[0]), es[1..], more);
      assert (es + more)[1..] == es[1..] + more;
    }
  }

  /**
    Exactly the answers that let a job live on at five attempts or more: leases
    given to a row already at four. Every other answer stops it there.
  */
  lemma OnlyLeasesPassTheBound(w: World, outcome: Outcome)
    requires Partitioned(w) && Enabled(w, Answers(outcome)) && !outcome.Parked?
    ensures var id, after := w.flight.rest[0].id, Step(w, Answers(outcome)).store.jobs;
            (id in after && after[id].attempts >= MAX_ATTEMPTS) <==>
            (outcome.Leased? && w.store.jobs[id].attempts + 1 >= MAX_ATTEMPTS)
  {
    var row := w.flight.rest[0];
    assert row in Pending(w);
    SettleTouchesOneRow(w.store, row, outcome, w.clock);
  }
}
