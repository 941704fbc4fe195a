/**
  The durable work queue of the fleet bus (workers/fleet-bus/src/queue.js).

  A Store is everything the object keeps across calls: the `jobs`, `dead` and
  `qstate` tables, the row id the next insert gets, and the one alarm slot the
  platform offers. The functions on Store say what each synchronous stretch of
  the source does to it; the class QueueDO is the object itself.

  All times are milliseconds. A stretch of code that runs without waiting for
  the network sees one clock reading, called `now` here.
*/
module Queue {
  import opened Prelude

  const MAX_ATTEMPTS: nat := 5
  const BATCH: nat := 10
  const BASE_BACKOFF_MS: nat := 30_000
  const QUOTA_COOLDOWN_MS: nat := 900_000
  const LEASE_MS: nat := 1_200_000

  type Id = nat

  datatype Job = Job(envelope: string, attempts: nat, notBefore: int, leasedUntil: int, createdAt: int)

  datatype DeadLetter = DeadLetter(envelope: string, reason: string, failedAt: int)

  datatype Store = Store(
    jobs: map<Id, Job>,
    dead: map<Id, DeadLetter>,
    nextId: Id,
    parkedUntil: int,
    alarm: Option<int>)

  const EMPTY_STORE := Store(map[], map[], 1, 0, None)

  /** What an alarm reads of a job when it selects its batch. */
  datatype Row = Row(id: Id, envelope: string, attempts: nat)

  // ---- the handler's answer, classified ----

  datatype Outcome =
    | Acked
    | Leased(leaseMs: Option<int>)
    | Parked(retryAfterMs: Option<int>)
    | Failed(terminal: bool, reason: string)

  /** A Retry-After header: delay in seconds, or an HTTP date (section 10.2.3 of RFC 9110). */
  datatype RetryAfter = NoHeader | DelaySeconds(seconds: int) | HttpDate(date: string)

  datatype Body = Body(parked: bool, retryAfterMs: Option<int>, leased: bool, leaseMs: Option<int>)

  datatype Reply =
    | NoHandler(route: string)
    | FetchFailed(error: string)
    | Response(status: nat, retryAfter: RetryAfter, body: Option<Body>)

  function Classify(reply: Reply): (o: Outcome)
    ensures o.Parked? <==>
            reply.Response? && (reply.status == 429 ||
                                (200 <= reply.status < 300 && reply.body.Some? && reply.body.value.parked))
    ensures o.Failed? && o.terminal <==>
            reply.NoHandler? || (reply.Response? && 400 <= reply.status < 500 && reply.status != 429)
    ensures o.Leased? <==>
            reply.Response? && 200 <= reply.status < 300 && reply.body.Some? && reply.body.value.leased &&
            !reply.body.value.parked
    ensures o.Acked? <==>
            reply.Response? && 200 <= reply.status < 300 &&
            (reply.body.Some? ==> !reply.body.value.parked && !reply.body.value.leased)
    ensures o.Leased? ==> o.leaseMs == reply.body.value.leaseMs
    ensures o.Parked? && reply.status != 429 ==> o.retryAfterMs == reply.body.value.retryAfterMs
    ensures o.Parked? && reply.status == 429 ==>
              (o.retryAfterMs.Some? <==> reply.retryAfter.DelaySeconds? && reply.retryAfter.seconds > 0) &&
              (o.retryAfterMs.Some? ==> o.retryAfterMs.value == reply.retryAfter.seconds * 1000)
  {
    match reply
    case NoHandler(route) => Failed(true, "no handler for route " + route)
    case FetchFailed(error) => Failed(false, "fetch failed: " + error)
    case Response(status, retryAfter, body) =>
      if status == 429 then
        Parked(if retryAfter.DelaySeconds? && retryAfter.seconds > 0
               then Some(retryAfter.seconds * 1000) else None)
      else if 200 <= status < 300 then
        if body.Some? && body.value.parked then Parked(body.value.retryAfterMs)
        else if body.Some? && body.value.leased then Leased(body.value.leaseMs)
        else Acked
      else Failed(400 <= status < 500, "handler")
  }

  /** `x || fallback` on an optional number: absent and zero both fall back. */
  function OrElse(x: Option<int>, fallback: int): int {
    if x.Some? && x.value != 0 then x.value else fallback
  }

  // ---- reading the jobs table ----

  predicate Ready(job: Job, now: int) {
    job.notBefore <= now && job.leasedUntil <= now
  }

  /** The moment a job is next runnable. */
  function WakeAt(job: Job): int {
    Max(job.notBefore, job.leasedUntil)
  }

  function RowOf(id: Id, job: Job): Row {
    Row(id, job.envelope, job.attempts)
  }

  /** The rows an alarm selects, ids in [lo, hi), in id order, at most `limit` of them. */
  function DueRows(jobs: map<Id, Job>, lo: Id, hi: Id, now: int, limit: nat): seq<Row>
    decreases hi - lo
  {
    if lo >= hi || limit == 0 then []
    else if lo in jobs && Ready(jobs[lo], now) then
      [RowOf(lo, jobs[lo])] + DueRows(jobs, lo + 1, hi, now, limit - 1)
    else
      DueRows(jobs, lo + 1, hi, now, limit)
  }

  /** Ready rows as stored, ids ascending, at most `limit`; a ready id left out comes after a full batch. */
  ghost predicate Selection(rows: seq<Row>, jobs: map<Id, Job>, lo: Id, hi: Id, now: int, limit: nat) {
    && |rows| <= limit
    && (forall i :: 0 <= i < |rows| ==>
          && lo <= rows[i].id < hi && rows[i].id in jobs
          && Ready(jobs[rows[i].id], now) && rows[i] == RowOf(rows[i].id, jobs[rows[i].id]))
    && (forall i, j :: 0 <= i < j < |rows| ==> rows[i].id < rows[j].id)
    && (forall id :: lo <= id < hi && id in jobs && Ready(jobs[id], now) ==>
          RowOf(id, jobs[id]) in rows || (|rows| == limit && forall r :: r in rows ==> r.id < id))
  }

  /** What the selection returns, without saying how: the `limit` smallest ready ids, ascending. */
  lemma {:induction false} DueRowsSelects(jobs: map<Id, Job>, lo: Id, hi: Id, now: int, limit: nat)
    ensures Selection(DueRows(jobs, lo, hi, now, limit), jobs, lo, hi, now, limit)
    decreases hi - lo
  {
    if lo >= hi || limit == 0 {
    } else if lo in jobs && Ready(jobs[lo], now) {
      DueRowsSelects(jobs, lo + 1, hi, now, limit - 1);
      SelectFirst(DueRows(jobs, lo + 1, hi, now, limit - 1), jobs, lo, hi, now, limit);
    } else {
      DueRowsSelects(jobs, lo + 1, hi, now, limit);
      assert Selection(DueRows(jobs, lo + 1, hi, now, limit), jobs, lo, hi, now, limit);
    }
  }

  lemma SelectFirst(rest: seq<Row>, jobs: map<Id, Job>, lo: Id, hi: Id, now: int, limit: nat)
    requires lo < hi && limit > 0 && lo in jobs && Ready(jobs[lo], now)
    requires Selection(rest, jobs, lo + 1, hi, now, limit - 1)
    ensures Selection([RowOf(lo, jobs[lo])] + rest, jobs, lo, hi, now, limit)
  {
    var first := RowOf(lo, jobs[lo]);
    var rows := [first] + rest;
    forall r ensures r in rows <==> r == first || r in rest {}
    forall i | 0 < i < |rows| ensures rows[i] == rest[i - 1] {}
  }

  /** The earliest moment any job is runnable: MIN(MAX(not_before, leased_until)). */
  function NextWake(jobs: map<Id, Job>): (t: Option<int>)
    ensures t.None? <==> jobs == map[]
    ensures t.Some? ==> exists id :: id in jobs && WakeAt(jobs[id]) == t.value
    ensures t.Some? ==> forall id :: id in jobs ==> t.value <= WakeAt(jobs[id])
  {
    if jobs == map[] then None
    else
      var wakes := set id | id in jobs :: WakeAt(jobs[id]);
      assert wakes != {} by {
        var id :| id in jobs;
        assert WakeAt(jobs[id]) in wakes;
      }
      LeastExists(wakes);
      var t :| t in wakes && IsLeast(t, wakes);
      assert forall id :: id in jobs ==> WakeAt(jobs[id]) in wakes;
      Some(t)
  }

  // ---- the state changes ----

  /** Arm the alarm for the next runnable job. */
  function EnsureAlarm(s: Store, now: int, force: bool): Store {
    match NextWake(s.jobs)
    case None => s
    case Some(t) =>
      var at := Max(now, t);
      if force || s.alarm.None? || at < s.alarm.value then s.(alarm := Some(at)) else s
  }

  function AfterEnqueue(s: Store, envelope: string, now: int): Store {
    EnsureAlarm(s.(jobs := s.jobs[s.nextId := Job(envelope, 0, 0, 0, now)], nextId := s.nextId + 1), now, false)
  }

  function Delete(s: Store, id: Id): Store {
    s.(jobs := s.jobs - {id})
  }

  /** A job leaves the table for the dead letters. */
  function Bury(s: Store, id: Id, envelope: string, reason: string, now: int): Store {
    Delete(s.(dead := s.dead[id := DeadLetter(envelope, reason, now)]), id)
  }

  /** An UPDATE by id: no row, no effect. */
  function Update(s: Store, id: Id, job: Job): Store {
    if id in s.jobs then s.(jobs := s.jobs[id := job]) else s
  }

  lemma PowersOfTwo()
    ensures Pow2(0) == 1 && Pow2(1) == 2 && Pow2(2) == 4 && Pow2(3) == 8
  {
    assert Pow2(2) == 2 * Pow2(1);
  }

  function AckBackoff(attempts: nat): nat {
    BASE_BACKOFF_MS * Pow2(if attempts <= 1 then 0 else attempts - 1)
  }

  function AfterAck(s: Store, id: Id, failed: bool, reason: string, now: int): Store {
    if id !in s.jobs then s
    else if !failed then Delete(s, id)
    else
      var job := s.jobs[id];
      if job.attempts >= MAX_ATTEMPTS then Bury(s, id, job.envelope, reason, now)
      else
        EnsureAlarm(Update(s, id, job.(leasedUntil := 0, notBefore := now + AckBackoff(job.attempts))), now, true)
  }

  function RetryBackoff(attempts: nat): nat
    requires attempts > 0
  {
    BASE_BACKOFF_MS * Pow2(attempts - 1)
  }

  function Park(s: Store, retryAfterMs: Option<int>, now: int): Store {
    var until := now + OrElse(retryAfterMs, QUOTA_COOLDOWN_MS);
    s.(parkedUntil := until, alarm := Some(until))
  }

  /** What one answer that does not park the queue does to the row it was asked about. */
  function Settle(s: Store, row: Row, outcome: Outcome, now: int): Store
    requires !outcome.Parked?
  {
    match outcome
    case Acked => Delete(s, row.id)
    case Leased(leaseMs) =>
      if row.id in s.jobs then
        Update(s, row.id, s.jobs[row.id].(leasedUntil := now + OrElse(leaseMs, LEASE_MS), attempts := row.attempts + 1))
      else s
    case Failed(terminal, reason) =>
      var attempts := row.attempts + 1;
      if terminal || attempts >= MAX_ATTEMPTS then Bury(s, row.id, row.envelope, reason, now)
      else if row.id in s.jobs then
        Update(s, row.id, s.jobs[row.id].(attempts := attempts, notBefore := now + RetryBackoff(attempts)))
      else s
  }

  /** What an alarm finds when it fires: nothing while parked, else the due batch. */
  function Batch(s: Store, now: int): seq<Row> {
    if s.parkedUntil > now then [] else DueRows(s.jobs, 0, s.nextId, now, BATCH)
  }

  /** The alarm's entry: the slot is empty once it has fired; a parked queue re-arms and stops. */
  function Wake(s: Store, now: int): Store {
    var s := s.(alarm := None);
    if s.parkedUntil > now then s.(alarm := Some(s.parkedUntil))
    else if Batch(s, now) == [] then EnsureAlarm(s, now, true)
    else s
  }

  /** The k-th answer to arrive, and the clock when it does. */
  datatype Answer = Answer(outcome: Outcome, at: int)

  /** The rest of an alarm that nothing interrupts: answers k, k+1, ... settle `rest` in order. */
  function Drain(s: Store, rest: seq<Row>, answers: nat -> Answer, k: nat): Store
    decreases |rest|
  {
    if rest == [] then s
    else
      var Answer(outcome, at) := answers(k);
      if outcome.Parked? then Park(s, outcome.retryAfterMs, at)
      else
        var s := Settle(s, rest[0], outcome, at);
        if |rest| == 1 then EnsureAlarm(s, at, true) else Drain(s, rest[1..], answers, k + 1)
  }

  /** One alarm from beginning to end with nothing in between. */
  function WholeAlarm(s: Store, now: int, answers: nat -> Answer): Store {
    Drain(Wake(s, now), Batch(s, now), answers, 0)
  }

  datatype AckResult = Unknown | AckedOk(id: Id) | Buried(id: Id) | Retrying(id: Id)

  /** The queue object. */
  class QueueDO {
    var jobs: map<Id, Job>
    var dead: map<Id, DeadLetter>
    var nextId: Id
    var parkedUntil: int
    var alarmAt: Option<int>

    function View(): Store
      reads this
    {
      Store(jobs, dead, nextId, parkedUntil, alarmAt)
    }

    constructor ()
      ensures View() == EMPTY_STORE
    {
      jobs, dead, nextId, parkedUntil, alarmAt := map[], map[], 1, 0, None;
    }

    method ArmAlarm(now: int, force: bool)
      modifies this`alarmAt
      ensures View() == EnsureAlarm(old(View()), now, force)
      ensures jobs == map[] ==> alarmAt == old(alarmAt)
      ensures forall t :: NextWake(jobs) == Some(t) ==>
                alarmAt == if force || old(alarmAt).None? then Some(Max(now, t))
                           else Some(Min(old(alarmAt).value, Max(now, t)))
    {
      var next := NextWake(jobs);
      if next.None? {
        return;
      }
      var at := Max(now, next.value);
      if force || alarmAt.None? || at < alarmAt.value {
        alarmAt := Some(at);
      }
    }

    method Enqueue(envelope: string, now: int) returns (id: Id, depth: nat)
      modifies this
      ensures View() == AfterEnqueue(old(View()), envelope, now)
      ensures id == old(nextId) && nextId == id + 1 && depth == |jobs|
      ensures jobs == old(jobs)[id := Job(envelope, 0, 0, 0, now)]
      ensures dead == old(dead) && parkedUntil == old(parkedUntil)
    {
      id := nextId;
      jobs := jobs[id := Job(envelope, 0, 0, 0, now)];
      nextId := nextId + 1;
      ArmAlarm(now, false);
      depth := |jobs|;
    }

    method Ack(id: Id, failed: bool, reason: string, now: int) returns (r: AckResult)
      modifies this
      ensures View() == AfterAck(old(View()), id, failed, reason, now)
      ensures r.Unknown? <==> id !in old(jobs)
      ensures r.AckedOk? <==> id in old(jobs) && !failed
      ensures r.Buried? <==> id in old(jobs) && failed && old(jobs)[id].attempts >= 5
      ensures !r.Unknown? ==> r.id == id
      ensures r.Unknown? || r.AckedOk? || r.Buried? ==> jobs == old(jobs) - {id} && alarmAt == old(alarmAt)
      ensures dead == if r.Buried? then old(dead)[id := DeadLetter(old(jobs)[id].envelope, reason, now)] else old(dead)
      ensures r.Retrying? ==>
                var job := old(jobs)[id];
                var delay := [30_000, 30_000, 60_000, 120_000, 240_000][job.attempts];
                && jobs == old(jobs)[id := Job(job.envelope, job.attempts, now + delay, 0, job.createdAt)]
                && NextWake(jobs).Some? && alarmAt == Some(Max(now, NextWake(jobs).value))
      ensures nextId == old(nextId) && parkedUntil == old(parkedUntil)
    {
      if id !in jobs {
        return Unknown;
      }
      if !failed {
        jobs := jobs - {id};
        return AckedOk(id);
      }
      PowersOfTwo();
      var job := jobs[id];
      if job.attempts >= MAX_ATTEMPTS {
        dead := dead[id := DeadLetter(job.envelope, reason, now)];
        jobs := jobs - {id};
        return Buried(id);
      }
      jobs := jobs[id := job.(leasedUntil := 0, notBefore := now + AckBackoff(job.attempts))];
      assert id in jobs;
      ArmAlarm(now, true);
      r := Retrying(id);
    }

    /** Apply one answer to the row it was asked about. */
    method SettleRow(row: Row, outcome: Outcome, now: int)
      requires !outcome.Parked?
      modifies this
      ensures View() == Settle(old(View()), row, outcome, now)
      ensures nextId == old(nextId) && parkedUntil == old(parkedUntil) && alarmAt == old(alarmAt)
      ensures var buried := outcome.Failed? && (outcome.terminal || row.attempts >= 4);
              && (buried ==> dead == old(dead)[row.id := DeadLetter(row.envelope, outcome.reason, now)])
              && (!buried ==> dead == old(dead))
              && (outcome.Acked? || buried ==> jobs == old(jobs) - {row.id})
              && (!outcome.Acked? && !buried && row.id !in old(jobs) ==> jobs == old(jobs))
      ensures outcome.Leased? && row.id in old(jobs) ==>
                var job, asked := old(jobs)[row.id], outcome.leaseMs;
                var lease := if asked == None || asked == Some(0) then 1_200_000 else asked.value;
                jobs == old(jobs)[row.id := Job(job.envelope, row.attempts + 1, job.notBefore, now + lease,
                                                job.createdAt)]
      ensures outcome.Failed? && !outcome.terminal && row.attempts < 4 && row.id in old(jobs) ==>
                var job, delay := old(jobs)[row.id], [30_000, 60_000, 120_000, 240_000][row.attempts];
                jobs == old(jobs)[row.id := Job(job.envelope, row.attempts + 1, now + delay, job.leasedUntil,
                                                job.createdAt)]
    {
      PowersOfTwo();
      match outcome {
        case Acked =>
          jobs := jobs - {row.id};
        case Leased(leaseMs) =>
          if row.id in jobs {
            jobs := jobs[row.id := jobs[row.id].(
            leasedUntil := now + OrElse(leaseMs, LEASE_MS), attempts := row.attempts + 1)];
          }
        case Failed(terminal, reason) =>
          var attempts := row.attempts + 1;
          if terminal || attempts >= MAX_ATTEMPTS {
            dead := dead[row.id := DeadLetter(row.envelope, reason, now)];
            jobs := jobs - {row.id};
          } else if row.id in jobs {
            jobs := jobs[row.id := jobs[row.id].(
            attempts := attempts, notBefore := now + RetryBackoff(attempts))];
          }
      }
    }

    /** Drain a bounded batch; answers(k) is what the handler says to the k-th job handed out. */
    method Alarm(now: int, answers: nat -> Answer)
      modifies this
      ensures View() == WholeAlarm(old(View()), now, answers)
    {
      alarmAt := None; // the platform empties the slot when it fires
      if parkedUntil > now {
        alarmAt := Some(parkedUntil);
        return;
      }
      var rows := DueRows(jobs, 0, nextId, now, BATCH);
      ghost var done := WholeAlarm(old(View()), now, answers);
      assert rows == [] ==> done == EnsureAlarm(View(), now, true);
      assert rows != [] ==> done == Drain(View(), rows, answers, 0);
      var last := now;
      var i := 0;
      while i < |rows|
        invariant 0 <= i <= |rows|
        invariant i < |rows| ==> done == Drain(View(), rows[i..], answers, i)
        invariant i == |rows| ==> done == EnsureAlarm(View(), last, true)
      {
        var Answer(outcome, at) := answers(i);
        last := at;
        assert rows[i..][0] == rows[i] && rows[i..][1..] == rows[i + 1..];
        if outcome.Parked? {
          parkedUntil := at + OrElse(outcome.retryAfterMs, QUOTA_COOLDOWN_MS);
          alarmAt := Some(parkedUntil);
          return;
        }
        SettleRow(rows[i], outcome, at);
        i := i + 1;
      }
      ArmAlarm(last, true);
    }
  }
}
