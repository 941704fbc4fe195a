/**
  A quota outage charges nobody, and a job out for delivery is left alone
  (queue.js:141-147, 171-225).
*/
module QueueOutage {
  import opened Prelude
  import opened Queue
  import opened QueueRuns
  import opened QueueConservation

  // ---- the gate ----

  /** An alarm in flight started at a moment when the queue was not parked. */
  ghost predicate Gated(w: World) {
    w.flight.Draining? ==> w.store.parkedUntil <= w.flight.start <= w.clock
  }

  lemma StepGated(w: World, e: Event)
    requires Gated(w) && Enabled(w, e)
    ensures Gated(Step(w, e))
    ensures !(e.Answers? && e.outcome.Parked?) ==> Step(w, e).store.parkedUntil == w.store.parkedUntil
  {}

  predicate NoParks(es: seq<Event>) {
    forall e :: e in es ==> !(e.Answers? && e.outcome.Parked?)
  }

  /** The handler is not called before `parked_until`: whenever it works on a row, that moment has passed. */
  lemma {:induction false} NoCallWhileParked(w: World, es: seq<Event>)
    requires Gated(w) && Legal(w, es)
    ensures Gated(Run(w, es))
    ensures NoParks(es) ==> Run(w, es).store.parkedUntil == w.store.parkedUntil
    decreases |es|
  {
    if es != [] {
      StepGated(w, es[0]);
      NoCallWhileParked(Step(w, es[0]), es[1..]);
    }
  }

  /**
    After an answer that parks, no handler call is made before the moment it asked for,
    or fifteen minutes on if it asked for none, unless another answer parks again.
  */
  lemma RetryAfterHolds(w: World, asked: Option<int>, es: seq<Event>)
    requires Enabled(w, Answers(Parked(asked)))
    requires Legal(Step(w, Answers(Parked(asked))), es) && NoParks(es)
    ensures var until := w.clock + if asked == None || asked == Some(0) then 900_000 else asked.value;
            var v := Step(w, Answers(Parked(asked)));
            && v.store.alarm == Some(until)
            && (Run(v, es).flight.Draining? ==> Run(v, es).flight.start >= until)
  {
    NoCallWhileParked(Step(w, Answers(Parked(asked))), es);
  }

  /**
    What an alarm hands out: nothing before the parking time; then the ten smallest ids
    among the jobs whose backoff and lease are both over, as they are stored.
  */
  lemma FiringSelects(w: World)
    requires Conserved(w) && Enabled(w, Fires)
    ensures var s, v, rows := w.store, Step(w, Fires), Pending(Step(w, Fires));
            && v.store.jobs == s.jobs && |rows| <= 10
            && (s.parkedUntil > w.clock ==> rows == [] && v.store.alarm == Some(s.parkedUntil))
            && (forall i, j :: 0 <= i < j < |rows| ==> rows[i].id < rows[j].id)
            && (forall r :: r in rows ==>
                  && r.id in s.jobs && r == Row(r.id, s.jobs[r.id].envelope, s.jobs[r.id].attempts)
                  && s.jobs[r.id].notBefore <= w.clock && s.jobs[r.id].leasedUntil <= w.clock)
            && (forall id :: id in s.jobs && s.jobs[id].notBefore <= w.clock && s.jobs[id].leasedUntil <= w.clock ==>
                  || s.parkedUntil > w.clock || (exists r :: r in rows && r.id == id)
                  || (|rows| == 10 && forall r :: r in rows ==> r.id < id))
  {
    var s, rows := w.store, Batch(w.store, w.clock);
    DueRowsSelects(s.jobs, 0, s.nextId, w.clock, BATCH);
    assert rows == Pending(Step(w, Fires));
    forall id | id in s.jobs && s.jobs[id].notBefore <= w.clock && s.jobs[id].leasedUntil <= w.clock
      ensures s.parkedUntil > w.clock || (exists r :: r in rows && r.id == id)
        || (|rows| == 10 && forall r :: r in rows ==> r.id < id)
    {
      assert id in w.ledger.issued;
      assert Ready(s.jobs[id], w.clock) && RowOf(id, s.jobs[id]).id == id;
    }
  }

  // ---- an outage charges nobody ----

  /** Runs in which every answer parks the queue and no client reports a failure. */
  predicate OnlyParks(es: seq<Event>) {
    forall e :: e in es ==> (e.Answers? ==> e.outcome.Parked?) && (e.Acks? ==> !e.failed)
  }

  /** A waiting job's row is untouched, unless the job was acked. */
  ghost predicate Spared(w: World, v: World) {
    && v.store.dead == w.store.dead
    && forall id :: id in w.store.jobs ==>
         if id in v.store.jobs then v.store.jobs[id] == w.store.jobs[id] else id in v.ledger.acked
  }

  lemma StepSpares(w: World, e: Event)
    requires Enabled(w, e) && (e.Answers? ==> e.outcome.Parked?) && (e.Acks? ==> !e.failed)
    requires forall id :: id in w.store.jobs ==> id < w.store.nextId
    ensures Spared(w, Step(w, e))
    ensures forall id :: id in Step(w, e).store.jobs ==> id < Step(w, e).store.nextId
  {}

  /** However long it lasts: no row of a waiting job changes, and nothing is dead-lettered. */
  lemma {:induction false} OutageChargesNobody(w: World, es: seq<Event>)
    requires Legal(w, es) && OnlyParks(es)
    requires forall id :: id in w.store.jobs ==> id < w.store.nextId
    ensures Spared(w, Run(w, es))
    decreases |es|
  {
    if es != [] {
      assert es[0] in es;
      var v := Step(w, es[0]);
      StepSpares(w, es[0]);
      OutageChargesNobody(v, es[1..]);
      forall id | id in w.store.jobs && id !in v.store.jobs
        ensures id in Run(v, es[1..]).ledger.acked && id !in Run(v, es[1..]).store.jobs
      {
        AckedStaysAcked(v, es[1..], id);
        GoneStaysGone(v, es[1..], id);
      }
    }
  }

  lemma {:induction false} AckedStaysAcked(w: World, es: seq<Event>, id: Id)
    requires Legal(w, es) && id in w.ledger.acked
    ensures id in Run(w, es).ledger.acked
    decreases |es|
  {
    if es != [] {
      AckedStaysAcked(Step(w, es[0]), es[1..], id);
    }
  }

  /** In one alarm: the row whose answer parks the queue, and every row after it, are left as they were. */
  lemma {:induction false} ParkLeavesTheRest(s: Store, rest: seq<Row>, answers: nat -> Answer, k: nat, p: nat)
    requires p < |rest| && answers(k + p).outcome.Parked?
    requires forall i :: k <= i < k + p ==> !answers(i).outcome.Parked?
    requires forall i, j :: 0 <= i < j < |rest| ==> rest[i].id < rest[j].id
    requires forall i :: 0 <= i < |rest| ==> rest[i].id in s.jobs && rest[i].id !in s.dead
    ensures var s2 := Drain(s, rest, answers, k);
            var asked := answers(k + p).outcome.retryAfterMs;
            var until := answers(k + p).at + if asked == None || asked == Some(0) then 900_000 else asked.value;
            && s2.parkedUntil == until && s2.alarm == Some(until)
            && (forall i :: p <= i < |rest| ==>
                  rest[i].id in s2.jobs && s2.jobs[rest[i].id] == s.jobs[rest[i].id] && rest[i].id !in s2.dead)
    decreases p
  {
    if p > 0 {
      var Answer(outcome, at) := answers(k);
      assert !outcome.Parked?;
      var s2 := Settle(s, rest[0], outcome, at);
      SettleTouchesOneRow(s, rest[0], outcome, at);
      forall i | 1 <= i < |rest| ensures s2.jobs[rest[i].id] == s.jobs[rest[i].id] && rest[i].id !in s2.dead {
        assert rest[0].id < rest[i].id;
      }
      ParkLeavesTheRest(s2, rest[1..], answers, k + 1, p - 1);
      forall i | p <= i < |rest|
        ensures var s3 := Drain(s, rest, answers, k);
                rest[i].id in s3.jobs && s3.jobs[rest[i].id] == s.jobs[rest[i].id] && rest[i].id !in s3.dead
      {
        assert rest[1..][i - 1] == rest[i];
      }
    }
  }

  // ---- out for delivery ----

  predicate InFlight(w: World, id: Id) {
    exists r :: r in Pending(w) && r.id == id
  }

  /** Job `id` is not to be handed out before `until`. */
  ghost predicate Held(w: World, id: Id, until: int) {
    && id < w.store.nextId
    && (InFlight(w, id) ==> w.flight.start >= until)
    && (w.clock < until ==> id in w.store.jobs ==> WakeAt(w.store.jobs[id]) >= until)
    && (w.flight.Draining? ==> w.flight.start <= w.clock)
  }

  predicate NoFailedAck(es: seq<Event>, id: Id) {
    forall e :: e in es ==> !(e.Acks? && e.failed && e.id == id)
  }

  lemma StepHeld(w: World, e: Event, id: Id, until: int)
    requires Held(w, id, until) && Enabled(w, e) && !(e.Acks? && e.failed && e.id == id)
    ensures Held(Step(w, e), id, until)
  {
    match e
    case Fires =>
      DueRowsSelects(w.store.jobs, 0, w.store.nextId, w.clock, BATCH);
      assert forall r :: r in Batch(w.store, w.clock) ==> r.id in w.store.jobs && Ready(w.store.jobs[r.id], w.clock);
    case Answers(outcome) =>
      var row := w.flight.rest[0];
      assert row in Pending(w);
      assert forall r :: r in Pending(Step(w, e)) ==> r in w.flight.rest;
      if !outcome.Parked? {
        SettleTouchesOneRow(w.store, row, outcome, w.clock);
        if row.id == id {
          assert InFlight(w, id);
        }
      }
    case Tick(_) =>
    case Enqueues(_) =>
    case Acks(_, _, _) =>
  }

  /** A held job is not handed out early, whatever else happens, unless someone reports it failed. */
  lemma {:induction false} HeldUntil(w: World, es: seq<Event>, id: Id, until: int)
    requires Held(w, id, until) && Legal(w, es) && NoFailedAck(es, id)
    ensures Held(Run(w, es), id, until)
    ensures InFlight(Run(w, es), id) ==> Run(w, es).flight.start >= until
    decreases |es|
  {
    if es != [] {
      assert es[0] in es;
      StepHeld(w, es[0], id, until);
      HeldUntil(Step(w, es[0]), es[1..], id, until);
    }
  }

  /**
    A leased job is handed out again only by an alarm that starts after its lease ends:
    the length the handler asked for, or twenty minutes if it asked for none.
  */
  lemma LeaseHolds(w: World, asked: Option<int>, es: seq<Event>)
    requires Conserved(w) && Gated(w) && Enabled(w, Answers(Leased(asked)))
    requires Legal(Step(w, Answers(Leased(asked))), es)
    requires NoFailedAck(es, w.flight.rest[0].id)
    ensures var v, id := Step(w, Answers(Leased(asked))), w.flight.rest[0].id;
            var until := w.clock + if asked == None || asked == Some(0) then 1_200_000 else asked.value;
            && (id in w.store.jobs ==> id in v.store.jobs && v.store.jobs[id].leasedUntil == until)
            && (InFlight(Run(v, es), id) ==> Run(v, es).flight.start >= until)
  {
    var id := w.flight.rest[0].id;
    assert w.flight.rest[0] in Pending(w);
    AnswerKeepsRows(w, Leased(asked));
    HeldUntil(Step(w, Answers(Leased(asked))), es, id, w.clock + OrElse(asked, LEASE_MS));
  }

  // ---- backing off after a failed ack ----

  /** The alarm in flight has selected the row and not come to it yet. */
  predicate BehindHead(w: World, id: Id) {
    exists i :: 1 <= i < |Pending(w)| && Pending(w)[i].id == id
  }

  /** An event after which the handler starts on job `id`. */
  predicate HandsOut(w: World, e: Event, id: Id)
    requires Enabled(w, e)
  {
    (e.Fires? || e.Answers?) && Pending(Step(w, e)) != [] && Pending(Step(w, e))[0].id == id
  }

  /** Somewhere in the run an alarm that started before `until` hands the job out. */
  predicate HandedOutEarly(w: World, es: seq<Event>, id: Id, until: int)
    requires Legal(w, es)
    decreases |es|
  {
    es != [] &&
    ((HandsOut(w, es[0], id) && Step(w, es[0]).flight.start < until) ||
     HandedOutEarly(Step(w, es[0]), es[1..], id, until))
  }

  /** Nothing hands job `id` out before `until`; if the handler has it now, a retry comes no earlier either. */
  ghost predicate BackingOff(w: World, id: Id, until: int) {
    && id < w.store.nextId
    && (BehindHead(w, id) ==> w.flight.start >= until)
    && (w.flight.Draining? ==> w.flight.start <= w.clock)
    && (w.clock < until && id in w.store.jobs ==> w.store.jobs[id].notBefore >= until)
    && (Pending(w) != [] && Pending(w)[0].id == id ==> w.clock + RetryBackoff(Pending(w)[0].attempts + 1) >= until)
  }

  lemma AnswerBacksOff(w: World, outcome: Outcome, id: Id, until: int)
    requires Conserved(w) && BackingOff(w, id, until) && Enabled(w, Answers(outcome))
    ensures BackingOff(Step(w, Answers(outcome)), id, until)
    ensures HandsOut(w, Answers(outcome), id) ==> w.flight.start >= until
  {
    var rest, v := w.flight.rest, Step(w, Answers(outcome));
    if !outcome.Parked? {
      SettleTouchesOneRow(w.store, rest[0], outcome, w.clock);
      if v.flight.Draining? {
        forall i | 0 <= i < |rest[1..]| && rest[1..][i].id == id ensures BehindHead(w, id) {
          assert rest[i + 1].id == id;
        }
      }
    }
  }

  lemma FiringBacksOff(w: World, id: Id, until: int)
    requires Conserved(w) && BackingOff(w, id, until) && Enabled(w, Fires)
    ensures BackingOff(Step(w, Fires), id, until)
    ensures HandsOut(w, Fires, id) ==> w.clock >= until
  {
    var rows := Batch(w.store, w.clock);
    DueRowsSelects(w.store.jobs, 0, w.store.nextId, w.clock, BATCH);
    forall i | 0 <= i < |rows| && rows[i].id == id ensures w.clock >= until {
      assert Ready(w.store.jobs[id], w.clock);
    }
  }

  lemma StepBacksOff(w: World, e: Event, id: Id, until: int)
    requires Conserved(w) && BackingOff(w, id, until) && Enabled(w, e) && !(e.Acks? && e.failed && e.id == id)
    ensures BackingOff(Step(w, e), id, until)
    ensures HandsOut(w, e, id) ==> Step(w, e).flight.start >= until
  {
    match e
    case Fires => FiringBacksOff(w, id, until);
    case Answers(outcome) => AnswerBacksOff(w, outcome, id, until);
    case Tick(_) => assert Pending(Step(w, e)) == Pending(w);
    case Enqueues(_) => assert Pending(Step(w, e)) == Pending(w);
    case Acks(_, _, _) => assert Pending(Step(w, e)) == Pending(w);
  }

  lemma {:induction false} NeverEarly(w: World, es: seq<Event>, id: Id, until: int)
    requires Conserved(w) && BackingOff(w, id, until) && Legal(w, es) && NoFailedAck(es, id)
    ensures !HandedOutEarly(w, es, id, until)
    decreases |es|
  {
    if es != [] {
      assert es[0] in es;
      StepConserves(w, es[0]);
      StepBacksOff(w, es[0], id, until);
      NeverEarly(Step(w, es[0]), es[1..], id, until);
    }
  }

  /** The handler gets through the rows in front of the k-th at once. */
  lemma {:induction false} ReachedAtOnce(w: World, k: nat, until: int) returns (es: seq<Event>)
    requires w.flight.Draining? && 1 <= k < |w.flight.rest| && w.flight.start < until
    ensures |es| == k && forall i :: 0 <= i < k ==> es[i] == Answers(Acked)
    ensures Legal(w, es) && HandedOutEarly(w, es, w.flight.rest[k].id, until)
    decreases k
  {
    var v := Step(w, Answers(Acked));
    assert v.flight.rest == w.flight.rest[1..];
    if k == 1 {
      es := [Answers(Acked)];
      assert es[1..] == [];
    } else {
      var more := ReachedAtOnce(v, k - 1, until);
      es := [Answers(Acked)] + more;
      assert es[1..] == more;
    }
  }

  function BackoffEnd(w: World, id: Id): int
    requires id in w.store.jobs
  {
    w.clock + AckBackoff(w.store.jobs[id].attempts)
  }

  /** A continuation without a further failure report that hands the job out by an alarm from before `until`. */
  ghost predicate GoesEarly(v: World, es: seq<Event>, id: Id, until: int) {
    Legal(v, es) && NoFailedAck(es, id) && HandedOutEarly(v, es, id, until)
  }

  predicate OnlyAnswers(es: seq<Event>) {
    forall e: Event :: e in es ==> e.Answers?
  }

  /**
    When the backoff of a failed ack holds: some continuation in which no further
    failure is reported hands the job out by an alarm that started before the backoff
    ended if and only if the alarm in flight already has the row behind the one its
    handler is working on; and then answers alone, with no time passing, do it.
  */
  lemma BackoffHolds(w: World, id: Id, reason: string)
    requires Conserved(w) && Gated(w) && id in w.store.jobs && w.store.jobs[id].attempts < MAX_ATTEMPTS
    ensures var v, until := Step(w, Acks(id, true, reason)), BackoffEnd(w, id);
            && until == w.clock + [30_000, 30_000, 60_000, 120_000, 240_000][w.store.jobs[id].attempts]
            && ((exists es :: GoesEarly(v, es, id, until)) <==> BehindHead(w, id))
            && (BehindHead(w, id) ==> exists es :: GoesEarly(v, es, id, until) && OnlyAnswers(es))
  {
    PowersOfTwo();
    if BehindHead(w, id) {
      var es := BackoffIgnored(w, id, reason);
      assert OnlyAnswers(es);
    } else {
      BackoffKept(w, id, reason);
    }
  }

  lemma BackoffIgnored(w: World, id: Id, reason: string) returns (es: seq<Event>)
    requires Gated(w) && id in w.store.jobs && w.store.jobs[id].attempts < MAX_ATTEMPTS && BehindHead(w, id)
    ensures GoesEarly(Step(w, Acks(id, true, reason)), es, id, BackoffEnd(w, id))
    ensures OnlyAnswers(es)
  {
    var v := Step(w, Acks(id, true, reason));
    assert v.flight == w.flight;
    var k :| 1 <= k < |Pending(w)| && Pending(w)[k].id == id;
    PowersGrow(w.store.jobs[id].attempts);
    es := ReachedAtOnce(v, k, BackoffEnd(w, id));
  }

  lemma BackoffKept(w: World, id: Id, reason: string)
    requires Conserved(w) && Gated(w) && id in w.store.jobs && w.store.jobs[id].attempts < MAX_ATTEMPTS
    requires !BehindHead(w, id)
    ensures forall es :: !GoesEarly(Step(w, Acks(id, true, reason)), es, id, BackoffEnd(w, id))
  {
    var v := Step(w, Acks(id, true, reason));
    BackoffStarts(w, id, reason);
    StepConserves(w, Acks(id, true, reason));
    forall es | Legal(v, es) && NoFailedAck(es, id) ensures !HandedOutEarly(v, es, id, BackoffEnd(w, id)) {
      NeverEarly(v, es, id, BackoffEnd(w, id));
    }
  }

  lemma BackoffStarts(w: World, id: Id, reason: string)
    requires Conserved(w) && Gated(w) && id in w.store.jobs && w.store.jobs[id].attempts < MAX_ATTEMPTS
    requires !BehindHead(w, id)
    ensures BackingOff(Step(w, Acks(id, true, reason)), id, BackoffEnd(w, id))
  {
    var v := Step(w, Acks(id, true, reason));
    assert Pending(v) == Pending(w);
    assert id in w.ledger.issued;
    assert v.store.jobs[id].notBefore == w.clock + AckBackoff(w.store.jobs[id].attempts);
    if Pending(w) != [] && Pending(w)[0].id == id {
      assert Pending(w)[0] in Pending(w);
      assert Pending(w)[0].attempts == w.store.jobs[id].attempts;
      PowersGrow(w.store.jobs[id].attempts);
    }
  }

  lemma {:induction false} PowersGrow(n: nat)
    ensures 0 < AckBackoff(n) <= RetryBackoff(n + 1)
  {
    if n > 1 {
      PowersGrow(n - 1);
    }
  }

  /** Such worlds are reached: a failure reported for the second of two jobs while the first is being handled. */
  lemma BehindHeadIsReached(a: string, b: string)
    ensures var es := [Enqueues(a), Enqueues(b), Fires];
            Legal(Start(0), es) && 2 in Run(Start(0), es).store.jobs && BehindHead(Run(Start(0), es), 2)
  {
    var w1 := Step(Start(0), Enqueues(a));
    var w2 := Step(w1, Enqueues(b));
    assert w2.store.jobs == map[1 := Job(a, 0, 0, 0, 0), 2 := Job(b, 0, 0, 0, 0)];
    assert w1.store.alarm == Some(0) && w2.store.alarm == Some(0) by {
      assert 1 in w1.store.jobs && WakeAt(w1.store.jobs[1]) == 0;
      assert 1 in w2.store.jobs && WakeAt(w2.store.jobs[1]) == 0;
    }
    TwoAreDue(w2.store);
    assert Pending(Step(w2, Fires))[1].id == 2;
    Prepend(w2, Fires, []);
    Prepend(w1, Enqueues(b), [Fires]);
    Prepend(Start(0), Enqueues(a), [Enqueues(b), Fires]);
    assert [Enqueues(a)] + [Enqueues(b), Fires] == [Enqueues(a), Enqueues(b), Fires];
    assert [Enqueues(b)] + [Fires] == [Enqueues(b), Fires] && [Fires] + [] == [Fires];
  }

  lemma TwoAreDue(s: Store)
    requires s.nextId == 3 && s.parkedUntil == 0 && s.jobs.Keys == {1, 2}
    requires Ready(s.jobs[1], 0) && Ready(s.jobs[2], 0)
    ensures |Batch(s, 0)| == 2 && Batch(s, 0)[1].id == 2
  {
    DueRowsSelects(s.jobs, 0, 3, 0, BATCH);
    var rows := Batch(s, 0);
    assert RowOf(1, s.jobs[1]) in rows && RowOf(2, s.jobs[2]) in rows;
    assert |rows| >= 2 && rows[0].id == 1 && rows[1].id == 2;
    assert |rows| == 2;
  }

  // ---- the alarm does something when it is due ----

  /** Once its deadline has passed, an idle queue with work can fire, and firing hands out the first due job. */
  lemma DueWorkIsHandedOut(w: World)
    requires Awake(w) && Conserved(w) && w.flight.Idle? && w.store.jobs != map[] && Deadline(w) <= w.clock
    ensures Enabled(w, Fires) && Step(w, Fires).flight.Draining?
    ensures var first := Step(w, Fires).flight.rest[0].id;
            && first in w.store.jobs && Ready(w.store.jobs[first], w.clock)
            && forall id :: id in w.store.jobs && Ready(w.store.jobs[id], w.clock) ==> first <= id
  {
    var t := NextWake(w.store.jobs);
    assert t.Some?;
    var due :| due in w.store.jobs && WakeAt(w.store.jobs[due]) == t.value;
    assert due in w.ledger.issued;
    DueRowsSelects(w.store.jobs, 0, w.store.nextId, w.clock, BATCH);
    var rows := Batch(w.store, w.clock);
    assert rows != [];
    forall id | id in w.store.jobs && Ready(w.store.jobs[id], w.clock) ensures rows[0].id <= id {
      assert id in w.ledger.issued;
      if RowOf(id, w.store.jobs[id]) in rows {
        var i :| 0 <= i < |rows| && rows[i] == RowOf(id, w.store.jobs[id]);
        assert i > 0 ==> rows[0].id < rows[i].id;
      } else {
        assert rows[0] in rows;
      }
    }
  }

  // ---- the object's alarm is one of these runs ----

  /** The events of an alarm nobody interrupts. */
  function DrainEvents(rest: seq<Row>, answers: nat -> Answer, k: nat): seq<Event>
    decreases |rest|
  {
    if rest == [] then []
    else
      [Tick(answers(k).at), Answers(answers(k).outcome)] +
      if answers(k).outcome.Parked? then [] else DrainEvents(rest[1..], answers, k + 1)
  }

  ghost predicate TimeMovesOn(now: int, answers: nat -> Answer, k: nat) {
    && now <= answers(k).at
    && forall i: nat, j: nat :: k <= i <= j ==> answers(i).at <= answers(j).at
  }

  lemma {:induction false} DrainIsARun(w: World, answers: nat -> Answer, k: nat)
    requires w.flight.Draining? && w.flight.rest != [] && TimeMovesOn(w.clock, answers, k)
    ensures var es := DrainEvents(w.flight.rest, answers, k);
            && Legal(w, es) && Uninterrupted(w, es)
            && Run(w, es).store == Drain(w.store, w.flight.rest, answers, k) && Run(w, es).flight.Idle?
    decreases |w.flight.rest|
  {
    var rest := w.flight.rest;
    var Answer(outcome, at) := answers(k);
    var w1 := Step(w, Tick(at));
    var w2 := Step(w1, Answers(outcome));
    var tail := if outcome.Parked? then [] else DrainEvents(rest[1..], answers, k + 1);
    if !outcome.Parked? && |rest| > 1 {
      DrainIsARun(w2, answers, k + 1);
    }
    var es := DrainEvents(rest, answers, k);
    assert es == [Tick(at), Answers(outcome)] + tail;
    AnswerComes(w, at, outcome, tail);
  }

  lemma AnswerComes(w: World, at: int, outcome: Outcome, tail: seq<Event>)
    requires w.flight.Draining? && w.flight.rest != [] && w.clock <= at
    requires var v := Step(Step(w, Tick(at)), Answers(outcome)); Legal(v, tail) && Uninterrupted(v, tail)
    ensures var es := [Tick(at), Answers(outcome)] + tail;
            && Legal(w, es) && Uninterrupted(w, es)
            && Run(w, es) == Run(Step(Step(w, Tick(at)), Answers(outcome)), tail)
  {
    var w1, more := Step(w, Tick(at)), [Answers(outcome)] + tail;
    Prepend(w1, Answers(outcome), tail);
    Prepend(w, Tick(at), more);
    assert more[1..] == tail;
    assert [Tick(at), Answers(outcome)] + tail == [Tick(at)] + more;
    assert ([Tick(at)] + more)[1..] == more;
  }

  /**
    What QueueDO.Alarm does is a legal uninterrupted run of the machine, so every
    property of runs holds of the object.
  */
  lemma AlarmIsARun(w: World, answers: nat -> Answer)
    requires Enabled(w, Fires) && TimeMovesOn(w.clock, answers, 0)
    ensures var es := [Fires] + DrainEvents(Batch(w.store, w.clock), answers, 0);
            && Legal(w, es) && Uninterrupted(w, es)
            && Run(w, es).store == WholeAlarm(w.store, w.clock, answers) && Run(w, es).flight.Idle?
  {
    var rows := Batch(w.store, w.clock);
    var tail := DrainEvents(rows, answers, 0);
    var v := Step(w, Fires);
    if rows != [] {
      DrainIsARun(v, answers, 0);
    }
    Prepend(w, Fires, tail);
    assert ([Fires] + tail)[1..] == tail;
  }
}
