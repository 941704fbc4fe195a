/**
  Nothing is lost, nothing is duplicated, nothing comes back (queue.js:98-149, 191-247).
*/
module QueueConservation {
  import opened Prelude
  import opened Queue
  import opened QueueRuns

  /** The rows an alarm still has to settle: distinct, in id order, with the envelope that was enqueued. */
  ghost predicate RowsOf(rest: seq<Row>, issued: map<Id, string>) {
    && (forall i :: 0 <= i < |rest| ==> rest[i].id in issued && rest[i].envelope == issued[rest[i].id])
    && (forall i, j :: 0 <= i < j < |rest| ==> rest[i].id < rest[j].id)
  }

  function Pending(w: World): seq<Row> {
    if w.flight.Draining? then w.flight.rest else []
  }

  /** Attempts are exactly the charged answers; so is the snapshot an alarm took of them. */
  ghost predicate Charged(w: World) {
    && (forall id :: id in w.store.jobs ==>
          id in w.ledger.charged && w.store.jobs[id].attempts == w.ledger.charged[id])
    && (forall r :: r in Pending(w) ==> r.id in w.ledger.charged && r.attempts == w.ledger.charged[r.id])
  }

  ghost predicate Accounted(w: World) {
    var s, l := w.store, w.ledger;
    && 1 <= s.nextId
    && (forall id: Id :: id in l.issued <==> 1 <= id < s.nextId)
    && (forall id :: id in l.issued <==> id in s.jobs || id in s.dead || id in l.acked)
    && (forall id :: id in s.jobs ==> id !in s.dead && id !in l.acked)
  }

  ghost predicate Faithful(w: World) {
    var s, issued := w.store, w.ledger.issued;
    && (forall id :: id in s.jobs ==> id in issued && s.jobs[id].envelope == issued[id])
    && (forall id :: id in s.dead ==> id in issued && s.dead[id].envelope == issued[id])
  }

  ghost predicate Conserved(w: World) {
    Accounted(w) && Faithful(w) && RowsOf(Pending(w), w.ledger.issued) && Charged(w)
  }

  lemma BatchRows(s: Store, now: int, issued: map<Id, string>)
    requires s.jobs.Keys <= issued.Keys
    requires forall id :: id in s.jobs ==> s.jobs[id].envelope == issued[id]
    ensures RowsOf(Batch(s, now), issued)
    ensures forall r :: r in Batch(s, now) ==> r.id in s.jobs && r == RowOf(r.id, s.jobs[r.id])
  {
    DueRowsSelects(s.jobs, 0, s.nextId, now, BATCH);
  }

  /** Settling a row touches that row alone, and either keeps it, deletes it or buries it. */
  lemma SettleTouchesOneRow(s: Store, row: Row, outcome: Outcome, now: int)
    requires !outcome.Parked?
    ensures var s2 := Settle(s, row, outcome, now);
            && s2.nextId == s.nextId && s2.parkedUntil == s.parkedUntil
            && s2.jobs.Keys <= s.jobs.Keys
            && (forall id :: id in s.jobs && id != row.id ==> id in s2.jobs && s2.jobs[id] == s.jobs[id])
            && (row.id in s2.jobs ==>
                  && s2.jobs[row.id].envelope == s.jobs[row.id].envelope
                  && s2.jobs[row.id].attempts == row.attempts + 1)
            && (s2.dead == s.dead ||
                (row.id !in s2.jobs && exists reason ::
                   s2.dead == s.dead[row.id := DeadLetter(row.envelope, reason, now)]))
  {
    if outcome.Failed? && (outcome.terminal || row.attempts + 1 >= MAX_ATTEMPTS) {
      assert Settle(s, row, outcome, now).dead == s.dead[row.id := DeadLetter(row.envelope, outcome.reason, now)];
    }
  }

  lemma AnswerKeepsRows(w: World, outcome: Outcome)
    requires Conserved(w) && Enabled(w, Answers(outcome)) && !outcome.Parked?
    ensures var w2 := Step(w, Answers(outcome));
            && RowsOf(Pending(w2), w2.ledger.issued)
            && forall r :: r in Pending(w2) ==> r in Pending(w) && r.id != w.flight.rest[0].id
  {
    var rest := w.flight.rest;
    forall r | r in rest[1..] ensures r in rest && r.id != rest[0].id {
      var i :| 0 <= i < |rest[1..]| && rest[1..][i] == r;
      assert rest[i + 1] == r;
    }
  }

  lemma AnswerKeepsCharges(w: World, outcome: Outcome)
    requires Conserved(w) && Enabled(w, Answers(outcome)) && !outcome.Parked?
    ensures Charged(Step(w, Answers(outcome)))
  {
    var row, v := w.flight.rest[0], Step(w, Answers(outcome));
    assert row in Pending(w);
    SettleTouchesOneRow(w.store, row, outcome, w.clock);
    AnswerKeepsRows(w, outcome);
    AnswerCharges(w, outcome);
    forall id | id in v.store.jobs ensures id in v.ledger.charged && v.store.jobs[id].attempts == v.ledger.charged[id] {
      assert id in w.store.jobs;
    }
  }

  /** Only the row answered for is charged, and exactly if it may come back. */
  lemma AnswerCharges(w: World, outcome: Outcome)
    requires Conserved(w) && Enabled(w, Answers(outcome)) && !outcome.Parked?
    ensures var row, l, v := w.flight.rest[0], w.ledger, Step(w, Answers(outcome));
            && row.id in l.charged && row.attempts == l.charged[row.id]
            && v.ledger.charged == (if outcome.Leased? || (outcome.Failed? && !outcome.terminal)
                                    then l.charged[row.id := row.attempts + 1] else l.charged)
  {
    assert w.flight.rest[0] in Pending(w);
  }

  /** What an answer that does not park does to the tables and the ledger, id by id. */
  lemma AnswerOutcome(w: World, outcome: Outcome)
    requires Conserved(w) && Enabled(w, Answers(outcome)) && !outcome.Parked?
    ensures var row, s, l, w2 := w.flight.rest[0], w.store, w.ledger, Step(w, Answers(outcome));
            && row.id in l.issued && row.envelope == l.issued[row.id]
            && w2.store.nextId == s.nextId && w2.ledger.issued == l.issued
            && w2.ledger.acked == (if outcome.Acked? then l.acked + {row.id} else l.acked)
            && w2.store.dead.Keys == (if Buries(row, outcome) then s.dead.Keys + {row.id} else s.dead.Keys)
            && w2.store.jobs.Keys == (if outcome.Acked? ||
                  Buries(row, outcome) then s.jobs.Keys - {row.id} else s.jobs.Keys)
  {
    assert w.flight.rest[0] in Pending(w);
  }

  /** An answer that writes its row to `dead`. */
  predicate Buries(row: Row, outcome: Outcome) {
    outcome.Failed? && (outcome.terminal || row.attempts + 1 >= MAX_ATTEMPTS)
  }

  lemma AnswerKeepsAccounts(w: World, outcome: Outcome)
    requires Conserved(w) && Enabled(w, Answers(outcome)) && !outcome.Parked?
    ensures Accounted(Step(w, Answers(outcome)))
  {
    AnswerOutcome(w, outcome);
  }

  lemma AnswerKeepsEnvelopes(w: World, outcome: Outcome)
    requires Conserved(w) && Enabled(w, Answers(outcome)) && !outcome.Parked?
    ensures Faithful(Step(w, Answers(outcome)))
  {
    AnswerOutcome(w, outcome);
    SettleTouchesOneRow(w.store, w.flight.rest[0], outcome, w.clock);
  }

  lemma AnswerConserves(w: World, outcome: Outcome)
    requires Conserved(w) && Enabled(w, Answers(outcome))
    ensures Conserved(Step(w, Answers(outcome)))
  {
    if !outcome.Parked? {
      AnswerKeepsRows(w, outcome);
      AnswerKeepsCharges(w, outcome);
      AnswerKeepsAccounts(w, outcome);
      AnswerKeepsEnvelopes(w, outcome);
    }
  }

  lemma EnqueueKeepsAccounts(w: World, envelope: string)
    requires Conserved(w)
    ensures Accounted(Step(w, Enqueues(envelope)))
  {}

  lemma EnqueueKeepsRows(w: World, envelope: string)
    requires Conserved(w)
    ensures var v := Step(w, Enqueues(envelope)); Faithful(v) && RowsOf(Pending(v), v.ledger.issued)
  {}

  lemma EnqueueKeepsCharges(w: World, envelope: string)
    requires Conserved(w)
    ensures Charged(Step(w, Enqueues(envelope)))
  {
    forall r | r in Pending(w) ensures r.id != w.store.nextId {
      var i :| 0 <= i < |Pending(w)| && Pending(w)[i] == r;
    }
  }

  lemma EnqueueConserves(w: World, envelope: string)
    requires Conserved(w)
    ensures Conserved(Step(w, Enqueues(envelope)))
  {
    EnqueueKeepsAccounts(w, envelope);
    EnqueueKeepsRows(w, envelope);
    EnqueueKeepsCharges(w, envelope);
  }

  lemma AckKeepsAccounts(w: World, id: Id, failed: bool, reason: string)
    requires Conserved(w)
    ensures Accounted(Step(w, Acks(id, failed, reason)))
  {}

  lemma AckKeepsRows(w: World, id: Id, failed: bool, reason: string)
    requires Conserved(w)
    ensures var v := Step(w, Acks(id, failed, reason)); Faithful(v) && RowsOf(Pending(v), v.ledger.issued)
  {}

  lemma AckKeepsCharges(w: World, id: Id, failed: bool, reason: string)
    requires Conserved(w)
    ensures Charged(Step(w, Acks(id, failed, reason)))
  {}

  lemma AckConserves(w: World, id: Id, failed: bool, reason: string)
    requires Conserved(w)
    ensures Conserved(Step(w, Acks(id, failed, reason)))
  {
    AckKeepsAccounts(w, id, failed, reason);
    AckKeepsRows(w, id, failed, reason);
    AckKeepsCharges(w, id, failed, reason);
  }

  lemma StepConserves(w: World, e: Event)
    requires Conserved(w) && Enabled(w, e)
    ensures Conserved(Step(w, e))
  {
    match e
    case Tick(_) =>
    case Enqueues(envelope) => EnqueueConserves(w, envelope);
    case Acks(id, failed, reason) => AckConserves(w, id, failed, reason);
    case Fires =>
      BatchRows(w.store, w.clock, w.ledger.issued);
    case Answers(outcome) => AnswerConserves(w, outcome);
  }

  /**
    Conservation, with acks and enqueues landing while a handler works: every id
    ever issued is waiting, dead or acked; a waiting id is neither dead nor acked;
    every stored envelope is the enqueued one; and a waiting job's attempts are
    exactly its leased plus transient-failed answers.
  */
  lemma {:induction false} NothingIsLost(w: World, es: seq<Event>)
    requires Conserved(w) && Legal(w, es)
    ensures Conserved(Run(w, es))
    decreases |es|
  {
    if es != [] {
      StepConserves(w, es[0]);
      NothingIsLost(Step(w, es[0]), es[1..]);
    }
  }

  /** From a fresh queue, in one sentence per id. */
  lemma EveryIssuedId(clock: int, es: seq<Event>, id: Id)
    requires Legal(Start(clock), es)
    ensures var w := Run(Start(clock), es);
            && (id in w.ledger.issued <==> 1 <= id < w.store.nextId)
            && (id in w.ledger.issued <==> id in w.store.jobs || id in w.store.dead || id in w.ledger.acked)
            && !(id in w.store.jobs && (id in w.store.dead || id in w.ledger.acked))
            && (id in w.store.jobs ==> w.store.jobs[id].envelope == w.ledger.issued[id])
            && (id in w.store.dead ==> w.store.dead[id].envelope == w.ledger.issued[id])
            && (id in w.store.jobs ==> id in w.ledger.charged && w.store.jobs[id].attempts == w.ledger.charged[id])
  {
    NothingIsLost(Start(clock), es);
  }

  /** An id that has left the table never returns to it. */
  lemma {:induction false} GoneStaysGone(w: World, es: seq<Event>, id: Id)
    requires Legal(w, es) && id < w.store.nextId && id !in w.store.jobs
    ensures id !in Run(w, es).store.jobs
    decreases |es|
  {
    if es != [] {
      GoneStaysGone(Step(w, es[0]), es[1..], id);
    }
  }

  // ---- atomic alarms ----

  /** Runs in which only the clock and the handler move while an alarm is in flight. */
  predicate Uninterrupted(w: World, es: seq<Event>)
    decreases |es|
  {
    es == [] ||
    (&& Enabled(w, es[0])
     && (w.flight.Draining? ==> es[0].Tick? || es[0].Answers?)
     && Uninterrupted(Step(w, es[0]), es[1..]))
  }

  lemma {:induction false} UninterruptedIsLegal(w: World, es: seq<Event>)
    requires Uninterrupted(w, es)
    ensures Legal(w, es)
    decreases |es|
  {
    if es != [] {
      UninterruptedIsLegal(Step(w, es[0]), es[1..]);
    }
  }

  /** Every row still to settle is a live job, as the alarm saw it. */
  ghost predicate Fresh(w: World) {
    forall r :: r in Pending(w) ==> r.id in w.store.jobs && r == RowOf(r.id, w.store.jobs[r.id])
  }

  /** No id is both dead and acked. */
  ghost predicate Apart(w: World) {
    forall id :: id in w.store.dead ==> id !in w.ledger.acked
  }

  ghost predicate Partitioned(w: World) {
    Conserved(w) && Fresh(w) && Apart(w)
  }

  lemma StepPartitions(w: World, e: Event)
    requires Partitioned(w) && Enabled(w, e)
    requires w.flight.Draining? ==> e.Tick? || e.Answers?
    ensures Fresh(Step(w, e)) && Apart(Step(w, e))
  {
    match e
    case Fires =>
      BatchRows(w.store, w.clock, w.ledger.issued);
    case Answers(outcome) =>
      var row := w.flight.rest[0];
      assert row in Pending(w) && row.id in w.store.jobs;
      if !outcome.Parked? {
        SettleTouchesOneRow(w.store, row, outcome, w.clock);
        AnswerKeepsRows(w, outcome);
      }
    case Tick(_) =>
    case Enqueues(_) =>
    case Acks(_, _, _) =>
  }

  /** With alarms atomic the waiting, the dead and the acked partition the issued ids. */
  lemma {:induction false} AtomicPartition(w: World, es: seq<Event>)
    requires Partitioned(w) && Uninterrupted(w, es)
    ensures Legal(w, es) && Partitioned(Run(w, es))
    decreases |es|
  {
    UninterruptedIsLegal(w, es);
    if es != [] {
      StepConserves(w, es[0]);
      StepPartitions(w, es[0]);
      AtomicPartition(Step(w, es[0]), es[1..]);
    }
  }

  // ---- interleaved alarms ----

  /**
    The two answers that come too late: burying a row that was acked while the handler
    worked on it, and reporting done a row that was buried meanwhile.
  */
  predicate TooLate(w: World, e: Event)
    requires Enabled(w, e)
  {
    e.Answers? &&
    var row := w.flight.rest[0];
    (Buries(row, e.outcome) && row.id in w.ledger.acked) || (e.outcome.Acked? && row.id in w.store.dead)
  }

  lemma StepApartExactly(w: World, e: Event)
    requires Conserved(w) && Enabled(w, e) && Apart(w)
    ensures Apart(Step(w, e)) <==> !TooLate(w, e)
  {
    match e
    case Answers(outcome) =>
      if !outcome.Parked? {
        AnswerOutcome(w, outcome);
        var id, v := w.flight.rest[0].id, Step(w, e);
        assert TooLate(w, e) ==> id in v.store.dead && id in v.ledger.acked;
      }
    case Fires =>
    case Tick(_) =>
    case Enqueues(_) =>
    case Acks(_, _, _) =>
  }

  /** A dead id stays dead and an acked id stays acked. */
  lemma StepOnlyAdds(w: World, e: Event)
    requires Conserved(w) && Enabled(w, e)
    ensures w.store.dead.Keys <= Step(w, e).store.dead.Keys && w.ledger.acked <= Step(w, e).ledger.acked
  {
    match e
    case Answers(outcome) => if !outcome.Parked? { AnswerOutcome(w, outcome); }
    case Fires =>
    case Tick(_) =>
    case Enqueues(_) =>
    case Acks(_, _, _) =>
  }

  predicate NoneTooLate(w: World, es: seq<Event>)
    requires Legal(w, es)
    decreases |es|
  {
    es == [] || (!TooLate(w, es[0]) && NoneTooLate(Step(w, es[0]), es[1..]))
  }

  lemma {:induction false} StaysJoined(w: World, es: seq<Event>)
    requires Conserved(w) && Legal(w, es) && !Apart(w)
    ensures !Apart(Run(w, es))
    decreases |es|
  {
    if es != [] {
      StepConserves(w, es[0]);
      StepOnlyAdds(w, es[0]);
      var id :| id in w.store.dead && id in w.ledger.acked;
      assert id in Step(w, es[0]).store.dead && id in Step(w, es[0]).ledger.acked;
      StaysJoined(Step(w, es[0]), es[1..]);
    }
  }

  /**
    With acks interleaved, waiting, dead and acked partition the issued ids after a run
    exactly if no answer of the run came too late.
  */
  lemma {:induction false} PartitionExactly(w: World, es: seq<Event>)
    requires Conserved(w) && Apart(w) && Legal(w, es)
    ensures Conserved(Run(w, es)) && (Apart(Run(w, es)) <==> NoneTooLate(w, es))
    decreases |es|
  {
    if es != [] {
      StepConserves(w, es[0]);
      StepApartExactly(w, es[0]);
      if TooLate(w, es[0]) {
        NothingIsLost(Step(w, es[0]), es[1..]);
        StaysJoined(Step(w, es[0]), es[1..]);
      } else {
        PartitionExactly(Step(w, es[0]), es[1..]);
      }
    }
  }

  /**
    Atomicity is needed for the partition: an ack that lands while the handler
    still works on the same row leaves the id both acked and, if the handler
    then refuses it, dead.
  */
  lemma AckedAndDead(envelope: string, reason: string)
    ensures var es := [Enqueues(envelope), Fires, Acks(1, false, ""), Answers(Failed(true, reason))];
            && Legal(Start(0), es)
            && var w := Run(Start(0), es);
            && 1 in w.ledger.acked && 1 in w.store.dead && w.store.jobs == map[]
  {
    var es := [Enqueues(envelope), Fires, Acks(1, false, ""), Answers(Failed(true, reason))];
    var w1 := Step(Start(0), es[0]);
    assert w1.store.jobs == map[1 := Job(envelope, 0, 0, 0, 0)];
    var t := NextWake(w1.store.jobs);
    assert t.Some? && t.value == 0;
    assert w1.store.alarm == Some(0);
    DueRowsSelects(w1.store.jobs, 0, 2, 0, BATCH);
    var rows := Batch(w1.store, 0);
    assert RowOf(1, w1.store.jobs[1]) in rows;
    assert forall r :: r in rows ==> r.id == 1;
    assert |rows| == 1;
    var w2 := Step(w1, Fires);
    var w3 := Step(w2, Acks(1, false, ""));
    assert w3.store.jobs == map[];
    var w4 := Step(w3, Answers(Failed(true, reason)));
    assert w4.store.jobs == map[];
    Prepend(w3, Answers(Failed(true, reason)), []);
    Prepend(w2, Acks(1, false, ""), [Answers(Failed(true, reason))]);
    Prepend(w1, Fires, [Acks(1, false, ""), Answers(Failed(true, reason))]);
    Prepend(Start(0), Enqueues(envelope), [Fires, Acks(1, false, ""), Answers(Failed(true, reason))]);
  }
}
