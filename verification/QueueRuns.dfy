/**
  The queue object as a machine: what its clients, the platform and the handler
  can do to it, in every order.

  The platform serialises everything except the wait for a handler's answer
  (storage operations hold incoming events back, a network wait does not), so
  the machine interleaves enqueues and acks with an alarm exactly at that wait.
  An alarm in flight is `Draining`: the rows it selected and has not settled yet,
  head first being the one the handler is working on.
*/
module QueueRuns {
  import opened Prelude
  import opened Queue

  datatype Flight = Idle | Draining(start: int, rest: seq<Row>)

  /** What an outside observer has seen so far; the queue itself keeps none of it. */
  datatype Ledger = Ledger(
    issued: map<Id, string>,   // every id handed out, with the envelope enqueued under it
    acked: set<Id>,            // ids someone reported done
    charged: map<Id, nat>)     // leased and transient-failed answers per id

  datatype World = World(store: Store, flight: Flight, clock: int, ledger: Ledger)

  datatype Event =
    | Tick(to: int)
    | Enqueues(envelope: string)
    | Acks(id: Id, failed: bool, reason: string)
    | Fires
    | Answers(outcome: Outcome)

  function Start(clock: int): World {
    World(EMPTY_STORE, Idle, clock, Ledger(map[], {}, map[]))
  }

  predicate Enabled(w: World, e: Event) {
    match e
    case Tick(to) => w.clock <= to
    case Fires => w.flight.Idle? && w.store.alarm.Some? && w.store.alarm.value <= w.clock
    case Answers(_) => w.flight.Draining? && w.flight.rest != []
    case Enqueues(_) => true
    case Acks(_, _, _) => true
  }

  function Charge(l: Ledger, id: Id): Ledger {
    l.(charged := l.charged[id := (if id in l.charged then l.charged[id] else 0) + 1])
  }

  function Record(l: Ledger, id: Id, outcome: Outcome): Ledger {
    match outcome
    case Acked => l.(acked := l.acked + {id})
    case Leased(_) => Charge(l, id)
    case Parked(_) => l
    case Failed(terminal, _) => if terminal then l else Charge(l, id)
  }

  function Step(w: World, e: Event): World
    requires Enabled(w, e)
  {
    var World(s, flight, now, ledger) := w;
    match e
    case Tick(to) => w.(clock := to)
    case Enqueues(envelope) =>
      World(AfterEnqueue(s, envelope, now), flight, now,
            ledger.(issued := ledger.issued[s.nextId := envelope], charged := ledger.charged[s.nextId := 0]))
    case Acks(id, failed, reason) =>
      World(AfterAck(s, id, failed, reason, now), flight, now,
            if id in s.jobs && !failed then ledger.(acked := ledger.acked + {id}) else ledger)
    case Fires =>
      var rows := Batch(s, now);
      World(Wake(s, now), if rows == [] then Idle else Draining(now, rows), now, ledger)
    case Answers(outcome) =>
      var row, rest := flight.rest[0], flight.rest[1..];
      if outcome.Parked? then World(Park(s, outcome.retryAfterMs, now), Idle, now, ledger)
      else
        var s := Settle(s, row, outcome, now);
        World(if rest == [] then EnsureAlarm(s, now, true) else s,
              if rest == [] then Idle else flight.(rest := rest),
              now, Record(ledger, row.id, outcome))
  }

  predicate Legal(w: World, es: seq<Event>)
    decreases |es|
  {
    es == [] || (Enabled(w, es[0]) && Legal(Step(w, es[0]), es[1..]))
  }

  function Run(w: World, es: seq<Event>): World
    requires Legal(w, es)
    decreases |es|
  {
    if es == [] then w else Run(Step(w, es[0]), es[1..])
  }

  lemma Prepend(w: World, e: Event, es: seq<Event>)
    requires Enabled(w, e) && Legal(Step(w, e), es)
    ensures Legal(w, [e] + es) && Run(w, [e] + es) == Run(Step(w, e), es)
  {
    assert ([e] + es)[1..] == es;
  }

  lemma {:induction false} Append(w: World, es: seq<Event>, more: seq<Event>)
    requires Legal(w, es) && Legal(Run(w, es), more)
    ensures Legal(w, es + more) && Run(w, es + more) == Run(Run(w, es), more)
    decreases |es|
  {
    if es == [] {
      assert es + more == more;
    } else {
      Append(Step(w, es[0]), es[1..], more);
      assert (es + more)[1..] == es[1..] + more;
    }
  }

  // ---- no wake-up is lost ----

  /** When an idle queue holding work is due to look at it again, at the latest. */
  function Deadline(w: World): int
    requires w.store.jobs != map[]
  {
    Max(w.clock, Max(w.store.parkedUntil, NextWake(w.store.jobs).value))
  }

  predicate Awake(w: World) {
    w.flight.Idle? && w.store.jobs != map[] ==>
      w.store.alarm.Some? && w.store.alarm.value <= Deadline(w)
  }

  lemma NextWakeShrinks(jobs: map<Id, Job>, id: Id)
    requires jobs - {id} != map[]
    ensures jobs != map[] && NextWake(jobs).value <= NextWake(jobs - {id}).value
  {
    var t := NextWake(jobs - {id});
    assert t.Some?;
    var other :| other in jobs - {id} && WakeAt((jobs - {id})[other]) == t.value;
    assert other in jobs;
  }

  lemma StepAwake(w: World, e: Event)
    requires Awake(w) && Enabled(w, e)
    ensures Awake(Step(w, e))
  {
    var s := w.store;
    match e
    case Acks(id, failed, reason) =>
      if id in s.jobs && s.jobs - {id} != map[] {
        NextWakeShrinks(s.jobs, id);
      }
    case Tick(_) =>
    case Enqueues(_) =>
    case Fires =>
    case Answers(_) =>
  }

  /** Whatever happens in whatever order, an idle queue with work has an alarm no later than its deadline. */
  lemma {:induction false} NoLostWakeUp(w: World, es: seq<Event>)
    requires Awake(w) && Legal(w, es)
    ensures Awake(Run(w, es))
    decreases |es|
  {
    if es != [] {
      StepAwake(w, es[0]);
      NoLostWakeUp(Step(w, es[0]), es[1..]);
    }
  }
}
