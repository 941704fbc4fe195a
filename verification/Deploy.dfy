/**
  The deploy worker (coordination/worker.sh), run under the lock: queued jobs collapse
  into one deploy of main, with a snapshot, a health check, a rollback, and a record of
  the deployed commit.

  A run executes one command at a time and can die between any two of them; jobs are
  enqueued and main moves meanwhile. A command that fails can leave a mess where it
  writes. Job names are not reused.
*/
module Deploy {
  import opened Prelude

  const HEALTH_TRIES: nat := 15

  type Job = nat
  type Sha = nat

  /** The provisioning tree of a commit, or a half-copied one. */
  datatype Content = Tree(sha: Sha) | Mess(n: nat)

  /** recorded: the deployed-sha file, None when it is missing or empty. */
  datatype Disk = Disk(
    queue: set<Job>, processing: set<Job>, done: set<Job>, failed: set<Job>,
    tracking: Sha, head: Sha, prov: Option<Content>, prev: Option<Content>, recorded: Option<Sha>)

  /** The next command of the run that holds the lock. */
  datatype Pc =
    | Idle
    | Taking(left: set<Job>, deploy: bool)
    | Fetching
    | Resetting(ok: bool)
    | RemovingPrev
    | Copying
    | Syncing
    | Restarting(ok: bool)
    | Checking(ok: bool, tries: nat)
    | RollingBack
    | RestartingAgain
    | Recording
    | Filing(ok: bool, rolledBack: bool)

  datatype Deployed = Deployed(began: nat, sha: Sha)

  /**
    Known to nobody on the machine: the step number, when each job was enqueued, the
    verified deploys, and of the current run the step its sync began, the provisioning
    content it found, and whether its snapshot succeeded.
  */
  datatype History = History(
    now: nat, enqueued: map<Job, nat>, deploys: seq<Deployed>, began: nat, prior: Option<Content>, snapped: bool)

  datatype World = World(d: Disk, main: Sha, pc: Pc, h: History)

  datatype Event =
    | Enqueue(j: Job)
    | MainMoves(sha: Sha)
    | Start(deploy: bool, fetched: bool, resolved: bool)
    | Move(j: Job)
    | Command(good: bool, mess: Option<Content>)
    | Crash

  /** Job files are there, or the tracked main is known and is not the recorded commit. */
  predicate Work(d: Disk, deploy: bool, resolved: bool) {
    d.queue != {} || (deploy && resolved && d.recorded != Some(d.tracking))
  }

  function Fetched(w: World, yes: bool): Disk {
    if yes then w.d.(tracking := w.main) else w.d
  }

  predicate Enabled(w: World, e: Event) {
    match e
    case Enqueue(j) => j !in w.h.enqueued
    case MainMoves(_) => true
    case Start(_, _, _) => w.pc.Idle?
    case Move(j) => (w.pc.Taking? && j in w.pc.left) || (w.pc.Filing? && j in w.d.processing)
    case Command(_, _) =>
      !w.pc.Idle? && (w.pc.Taking? ==> w.pc.left == {}) && (w.pc.Filing? ==> w.d.processing == {})
    case Crash => !w.pc.Idle?
  }

  /** One command of the run, with its outcome; `set -e` ends the run at an unguarded failure. */
  function AfterCommand(w: World, good: bool, mess: Option<Content>): World {
    match w.pc
    case Idle => w
    case Taking(_, deploy) => w.(pc := if deploy then Fetching else Filing(true, false))
    case Fetching => w.(d := Fetched(w, good), pc := Resetting(good))
    case Resetting(ok) =>
      w.(d := if good then w.d.(head := w.d.tracking) else w.d,
         pc := if !(ok && good) then Filing(false, false) else if w.d.prov.Some? then RemovingPrev else Syncing)
    case RemovingPrev =>
      w.(d := w.d.(prev := if good then None else mess), pc := if good then Copying else Idle)
    case Copying =>
      w.(d := w.d.(prev := if good then w.d.prov else mess), pc := Syncing, h := w.h.(snapped := good))
    case Syncing =>
      w.(d := w.d.(prov := if good then Some(Tree(w.d.head)) else mess),
         pc := Restarting(good), h := w.h.(began := w.h.now))
    case Restarting(ok) => w.(pc := Checking(ok && good, HEALTH_TRIES))
    case Checking(ok, tries) =>
      if good then
        if ok then w.(pc := Recording, h := w.h.(deploys := w.h.deploys + [Deployed(w.h.began, w.d.head)]))
        else w.(pc := Filing(false, false))
      else if tries > 1 then w.(pc := Checking(ok, tries - 1))
      else w.(pc := if w.d.prev.Some? then RollingBack else Filing(false, false))
    case RollingBack =>
      w.(d := w.d.(prov := if good then w.d.prev else mess), pc := if good then RestartingAgain else Idle)
    case RestartingAgain => w.(pc := Filing(false, true))
    case Recording => w.(d := w.d.(recorded := if good then Some(w.d.head) else None), pc := Filing(true, false))
    case Filing(_, _) => w.(pc := Idle)
  }

  function AfterMove(w: World, j: Job): World {
    match w.pc
    case Taking(left, deploy) =>
      w.(d := w.d.(queue := w.d.queue - {j}, processing := w.d.processing + {j}), pc := Taking(left - {j}, deploy))
    case Filing(ok, _) =>
      w.(d := if ok then w.d.(processing := w.d.processing - {j}, done := w.d.done + {j})
              else w.d.(processing := w.d.processing - {j}, failed := w.d.failed + {j}))
    case _ => w
  }

  function AfterStart(w: World, deploy: bool, fetched: bool, resolved: bool): World {
    var d := if deploy then Fetched(w, fetched) else w.d;
    w.(d := d, pc := if Work(d, deploy, resolved) then Taking(d.queue, deploy) else Idle,
       h := w.h.(prior := d.prov, snapped := false))
  }

  function After(w: World, e: Event): World {
    match e
    case Enqueue(j) => w.(d := w.d.(queue := w.d.queue + {j}), h := w.h.(enqueued := w.h.enqueued[j := w.h.now]))
    case MainMoves(sha) => w.(main := sha)
    case Start(deploy, fetched, resolved) => AfterStart(w, deploy, fetched, resolved)
    case Move(j) => AfterMove(w, j)
    case Command(good, mess) => AfterCommand(w, good, mess)
    case Crash => w.(pc := Idle)
  }

  function Step(w: World, e: Event): World {
    var v := After(w, e);
    v.(h := v.h.(now := v.h.now + 1))
  }

  predicate Legal(w: World, es: seq<Event>)
    decreases |es|
  {
    es == [] || (Enabled(w, es[0]) && Legal(Step(w, es[0]), es[1..]))
  }

  function Run(w: World, es: seq<Event>): World
    decreases |es|
  {
    if es == [] then w else Run(Step(w, es[0]), es[1..])
  }

  /** A machine on which nothing has run yet: only its clone, and perhaps a provisioning directory. */
  function Fresh(main: Sha, clone: Sha, prov: Option<Content>): World {
    World(Disk({}, {}, {}, {}, clone, clone, prov, None, None), main, Idle, History(0, map[], [], 0, None, false))
  }

  lemma {:induction false} RunAppends(w: World, es: seq<Event>, e: Event)
    requires Legal(w, es) && Enabled(Run(w, es), e)
    ensures Legal(w, es + [e]) && Run(w, es + [e]) == Step(Run(w, es), e)
    decreases |es|
  {
    if es == [] {
      assert [e][1..] == [] && es + [e] == [e];
    } else {
      assert (es + [e])[1..] == es[1..] + [e];
      RunAppends(Step(w, es[0]), es[1..], e);
    }
  }

  // What a deploy comes to, read off the disk it starts on and the answers it gets.

  predicate Refreshed(a: Answers) {
    a.fetch && a.reset
  }

  /** `rm -rf` of the last snapshot fails, which ends the run. */
  predicate SnapshotAborts(d: Disk, a: Answers) {
    d.prov.Some? && !a.remove
  }

  /** The snapshot directory while the deploy is verified. */
  function SnapshotDir(d: Disk, a: Answers): Option<Content> {
    if d.prov.None? then d.prev else if a.copy then d.prov else a.mess
  }

  predicate Succeeds(d: Disk, a: Answers) {
    Refreshed(a) && !SnapshotAborts(d, a) && a.sync && a.restart && Healthy(a)
  }

  /** Unhealthy after the sync, with a snapshot directory that can be copied back. */
  predicate RollsBack(d: Disk, a: Answers) {
    Refreshed(a) && !SnapshotAborts(d, a) && !Healthy(a) && SnapshotDir(d, a).Some? && a.rollback
  }

  predicate Exits(d: Disk, a: Answers) {
    Refreshed(a) && (SnapshotAborts(d, a) || (!Healthy(a) && SnapshotDir(d, a).Some? && !a.rollback))
  }

  /** The provisioning content a deploy of main leaves. */
  function ContentAfter(d: Disk, a: Answers, main: Sha): Option<Content> {
    if !Refreshed(a) || SnapshotAborts(d, a) then d.prov
    else if RollsBack(d, a) then SnapshotDir(d, a)
    else if Exits(d, a) || !a.sync then a.mess
    else Some(Tree(main))
  }

  /**
    A deploy ends in exactly one way, and of the ones that fail without ending the
    run the unhealthy ones with a snapshot roll back.
  */
  lemma OneOutcome(d: Disk, a: Answers)
    ensures !(Succeeds(d, a) && RollsBack(d, a)) && !(Succeeds(d, a) && Exits(d, a)) && !(RollsBack(d, a) &&
          Exits(d, a))
    ensures !Succeeds(d, a) && !Exits(d, a) ==>
              (RollsBack(d, a) <==> Refreshed(a) && !Healthy(a) && SnapshotDir(d, a).Some?)
  {}

  /** Where the job files are does not matter to it. */
  lemma SameOutcome(d: Disk, e: Disk, a: Answers, main: Sha)
    requires d.prov == e.prov && d.prev == e.prev
    ensures Succeeds(d, a) == Succeeds(e, a) && RollsBack(d, a) == RollsBack(e, a) && Exits(d, a) == Exits(e, a)
    ensures ContentAfter(d, a, main) == ContentAfter(e, a, main)
  {}

  lemma StartReaches(w: World, deploy: bool, fetched: bool, resolved: bool)
    requires w.pc == Idle
    ensures var v := AfterStart(w, deploy, fetched, resolved);
            Reaches(w, v.d, v.pc)
  {
    var e := Start(deploy, fetched, resolved);
    RunAppends(w, [], e);
    assert [] + [e] == [e];
    var v := AfterStart(w, deploy, fetched, resolved);
    assert Arrives(w, [e], v.d, v.pc);
  }

  /** What the outside world answers during one undisturbed run. */
  datatype Answers = Answers(
    polled: bool, resolved: bool, fetch: bool, reset: bool, remove: bool, copy: bool, sync: bool, restart: bool,
    health: nat -> bool, rollback: bool, record: bool, mess: Option<Content>)

  predicate Healthy(a: Answers) {
    exists i :: 0 <= i < HEALTH_TRIES && a.health(i)
  }

  /** Some run of the machine leads from w to this disk with this command next, main standing still. */
  ghost predicate Reaches(w: World, d: Disk, pc: Pc) {
    exists es :: Arrives(w, es, d, pc)
  }

  ghost predicate Arrives(w: World, es: seq<Event>, d: Disk, pc: Pc) {
    Legal(w, es) && Run(w, es).d == d && Run(w, es).pc == pc && Run(w, es).main == w.main
  }

  /** The part of a world that the next command looks at. */
  function At(w: World, d: Disk, pc: Pc): World {
    World(d, w.main, pc, w.h)
  }

  lemma OneCommand(w: World, d: Disk, pc: Pc, good: bool, mess: Option<Content>)
    requires Reaches(w, d, pc) && Enabled(At(w, d, pc), Command(good, mess))
    ensures Reaches(w, AfterCommand(At(w, d, pc), good, mess).d, AfterCommand(At(w, d, pc), good, mess).pc)
  {
    var es :| Arrives(w, es, d, pc);
    RunAppends(w, es, Command(good, mess));
    var v := AfterCommand(At(w, d, pc), good, mess);
    assert Arrives(w, es + [Command(good, mess)], v.d, v.pc);
  }

  lemma OneMove(w: World, d: Disk, pc: Pc, j: Job)
    requires Reaches(w, d, pc) && Enabled(At(w, d, pc), Move(j))
    ensures Reaches(w, AfterMove(At(w, d, pc), j).d, AfterMove(At(w, d, pc), j).pc)
  {
    var es :| Arrives(w, es, d, pc);
    RunAppends(w, es, Move(j));
    var v := AfterMove(At(w, d, pc), j);
    assert Arrives(w, es + [Move(j)], v.d, v.pc);
  }

  class Worker {
    var queue: set<Job>
    var processing: set<Job>
    var done: set<Job>
    var failed: set<Job>
    var tracking: Sha
    var head: Sha
    var prov: Option<Content>
    var prev: Option<Content>
    var recorded: Option<Sha>

    function View(): Disk
      reads this
    {
      Disk(queue, processing, done, failed, tracking, head, prov, prev, recorded)
    }

    method TakeOne(j: Job, deploy: bool, ghost w: World)
      requires j in queue && Reaches(w, View(), Taking(queue, deploy))
      modifies this`queue, this`processing
      ensures queue == old(queue) - {j} && processing == old(processing) + {j}
      ensures Reaches(w, View(), Taking(queue, deploy))
    {
      OneMove(w, View(), Taking(queue, deploy), j);
      queue := queue - {j};
      processing := processing + {j};
    }

    method FileOne(j: Job, ok: bool, rolledBack: bool, ghost w: World)
      requires j in processing && Reaches(w, View(), Filing(ok, rolledBack))
      modifies this`processing, this`done, this`failed
      ensures processing == old(processing) - {j}
      ensures done == (if ok then old(done) + {j} else old(done))
      ensures failed == (if ok then old(failed) else old(failed) + {j})
      ensures Reaches(w, View(), Filing(ok, rolledBack))
    {
      OneMove(w, View(), Filing(ok, rolledBack), j);
      processing := processing - {j};
      if ok {
        done := done + {j};
      } else {
        failed := failed + {j};
      }
    }

    /** Moves the job files that are in the queue now to processing, in the order given. */
    method Take(order: seq<Job>, deploy: bool, ghost w: World)
      requires Distinct(order) && forall j :: j in queue ==> j in order
      requires Reaches(w, View(), Taking(queue, deploy))
      modifies this`queue, this`processing
      ensures Reaches(w, View(), if deploy then Fetching else Filing(true, false))
      ensures processing == old(processing + queue) && queue == {}
    {
      var listed := queue;
      for i := 0 to |order|
        invariant Reaches(w, View(), Taking(queue, deploy))
        invariant forall j :: j in queue <==> j in listed && j !in order[..i]
        invariant forall j :: j in processing <==> j in old(processing) || (j in listed && j in order[..i])
      {
        var j := order[i];
        assert order[..i + 1] == order[..i] + [j];
        if j in listed {
          TakeOne(j, deploy, w);
        }
      }
      assert order[..|order|] == order;
      assert queue == {};
      assert processing == old(processing + queue);
      OneCommand(w, View(), Taking({}, deploy), true, None);
    }

    /** Files everything in processing by outcome. */
    method File(order: seq<Job>, ok: bool, rolledBack: bool, ghost w: World)
      requires Distinct(order) && forall j :: j in processing ==> j in order
      requires Reaches(w, View(), Filing(ok, rolledBack))
      modifies this`processing, this`done, this`failed
      ensures Reaches(w, View(), Idle)
      ensures processing == {}
      ensures done == old(done) + (if ok then old(processing) else {})
      ensures failed == old(failed) + (if ok then {} else old(processing))
    {
      ghost var moved: set<Job> := {};
      var listed := processing;
      for i := 0 to |order|
        invariant Reaches(w, View(), Filing(ok, rolledBack))
        invariant forall j :: j in moved <==> j in listed && j in order[..i]
        invariant processing == listed - moved
        invariant done == old(done) + if ok then moved else {}
        invariant failed == old(failed) + if ok then {} else moved
      {
        var j := order[i];
        assert order[..i + 1] == order[..i] + [j];
        if j in listed {
          FileOne(j, ok, rolledBack, w);
          moved := moved + {j};
        }
      }
      assert order[..|order|] == order;
      assert moved == listed;
      OneCommand(w, View(), Filing(ok, rolledBack), true, None);
    }

    /** Asks up to fifteen times; healthy at the first good answer. */
    method Verify(ok: bool, health: nat -> bool, ghost w: World)
      returns (healthy: bool)
      requires Reaches(w, View(), Checking(ok, HEALTH_TRIES))
      ensures healthy <==> exists i :: 0 <= i < 15 && health(i)
      ensures Reaches(w, View(),
                if healthy then (if ok then Recording else Filing(false, false))
                else if prev.Some? then RollingBack else Filing(false, false))
    {
      healthy := false;
      var i := 0;
      while i < HEALTH_TRIES
        invariant i <= HEALTH_TRIES && forall k :: 0 <= k < i ==> !health(k)
        invariant i < HEALTH_TRIES ==> Reaches(w, View(), Checking(ok, HEALTH_TRIES - i))
        invariant i == HEALTH_TRIES ==>
          Reaches(w, View(), if prev.Some? then RollingBack else Filing(false, false))
      {
        OneCommand(w, View(), Checking(ok, HEALTH_TRIES - i), health(i), None);
        if health(i) {
          healthy := true;
          return;
        }
        i := i + 1;
      }
    }

    /** Puts the snapshot back; a failing copy ends the run. */
    method RollBack(a: Answers, ghost w: World) returns (exited: bool)
      requires Reaches(w, View(), RollingBack)
      modifies this`prov
      ensures Reaches(w, View(), if exited then Idle else Filing(false, true))
      ensures exited <==> !a.rollback
      ensures prov == if exited then a.mess else prev
    {
      OneCommand(w, View(), RollingBack, a.rollback, a.mess);
      prov := if a.rollback then prev else a.mess;
      exited := !a.rollback;
      if !exited {
        OneCommand(w, View(), RestartingAgain, true, None);
      }
    }

    /** The sync and the restart, up to the first health check. */
    method SyncAndRestart(a: Answers, ghost w: World)
      requires Reaches(w, View(), Syncing)
      modifies this`prov
      ensures Reaches(w, View(), Checking(a.sync && a.restart, HEALTH_TRIES))
      ensures prov == if a.sync then Some(Tree(head)) else a.mess
    {
      OneCommand(w, View(), Syncing, a.sync, a.mess);
      prov := if a.sync then Some(Tree(head)) else a.mess;
      OneCommand(w, View(), Restarting(a.sync), a.restart, None);
    }

    /** Sync, restart, verify; then record, roll back, or neither. */
    method SyncAndVerify(a: Answers, ghost w: World)
      returns (ok: bool, rolledBack: bool, exited: bool)
      requires Reaches(w, View(), Syncing)
      modifies this`prov, this`recorded
      ensures Reaches(w, View(), if exited then Idle else Filing(ok, rolledBack))
      ensures ok <==> a.sync && a.restart && Healthy(a)
      ensures exited <==> !Healthy(a) && prev.Some? && !a.rollback
      ensures rolledBack <==> !Healthy(a) && prev.Some? && a.rollback
      ensures prov == if exited then a.mess else if rolledBack then prev else if a.sync then Some(Tree(head))
            else a.mess
      ensures recorded == if !ok then old(recorded) else if a.record then Some(head) else None
    {
      rolledBack, exited := false, false;
      SyncAndRestart(a, w);
      var healthy := Verify(a.sync && a.restart, a.health, w);
      ok := a.sync && a.restart && healthy;
      if ok {
        OneCommand(w, View(), Recording, a.record, None);
        recorded := if a.record then Some(head) else None;
      } else if !healthy && prev.Some? {
        exited := RollBack(a, w);
        rolledBack := !exited;
      }
    }

    /** Snapshots what is there, if anything is; `rm -rf` failing ends the run. */
    method Snapshot(a: Answers, ghost w: World) returns (exited: bool)
      requires Reaches(w, View(), if prov.Some? then RemovingPrev else Syncing)
      modifies this`prev
      ensures Reaches(w, View(), if exited then Idle else Syncing)
      ensures exited <==> prov.Some? && !a.remove
      ensures prev == if prov.None? then old(prev) else if a.remove && a.copy then prov else a.mess
    {
      exited := false;
      if prov.Some? {
        OneCommand(w, View(), RemovingPrev, a.remove, a.mess);
        if !a.remove {
          prev, exited := a.mess, true;
          return;
        }
        prev := None;
        OneCommand(w, View(), Copying, a.copy, a.mess);
        prev := if a.copy then prov else a.mess;
      }
    }

    /** The clone to main: fetch and hard reset, each of which may fail. */
    method Refresh(a: Answers, main: Sha, ghost w: World) returns (ok: bool)
      requires main == w.main && Reaches(w, View(), Fetching)
      modifies this`tracking, this`head
      ensures ok <==> a.fetch && a.reset
      ensures Reaches(w, View(),
                if !ok then Filing(false, false) else if prov.Some? then RemovingPrev else Syncing)
      ensures tracking == (if a.fetch then main else old(tracking))
      ensures head == if a.reset then tracking else old(head)
    {
      OneCommand(w, View(), Fetching, a.fetch, None);
      if a.fetch {
        tracking := main;
      }
      OneCommand(w, View(), Resetting(a.fetch), a.reset, None);
      if a.reset {
        head := tracking;
      }
      ok := a.fetch && a.reset;
    }

    /** The deploy of a run; without one (COORD_DEPLOY off) the jobs count as done. */
    method DeployMain(a: Answers, main: Sha, ghost w: World)
      returns (ok: bool, rolledBack: bool, exited: bool)
      requires main == w.main && Reaches(w, View(), Fetching)
      modifies this`tracking, this`head, this`prev, this`prov, this`recorded
      ensures Reaches(w, View(), if exited then Idle else Filing(ok, rolledBack))
      ensures ok <==> Succeeds(old(View()), a)
      ensures rolledBack <==> RollsBack(old(View()), a)
      ensures exited <==> Exits(old(View()), a)
      ensures prov == ContentAfter(old(View()), a, main)
      ensures ok ==> head == main && recorded == if a.record then Some(main) else None
      ensures !ok ==> recorded == old(recorded)
    {
      rolledBack, exited := false, false;
      ok := Refresh(a, main, w);
      if ok {
        exited := Snapshot(a, w);
        if exited {
          ok := false;
        } else {
          ok, rolledBack, exited := SyncAndVerify(a, w);
        }
      }
    }

    /** Takes the queue, deploys, and files what is in processing. */
    method Drain(deploy: bool, order: seq<Job>, main: Sha, a: Answers, ghost w: World)
      returns (ok: bool, rolledBack: bool, exited: bool)
      requires main == w.main && Reaches(w, View(), Taking(queue, deploy))
      requires Distinct(order) && forall j :: j in queue || j in processing ==> j in order
      modifies this
      ensures Reaches(w, View(), Idle)
      ensures queue == {} && processing == if exited then old(processing + queue) else {}
      ensures done == if ok then old(done + (processing + queue)) else old(done)
      ensures failed == if ok || exited then old(failed) else old(failed + (processing + queue))
      ensures ok <==> !deploy || Succeeds(old(View()), a)
      ensures rolledBack <==> deploy && RollsBack(old(View()), a)
      ensures exited <==> deploy && Exits(old(View()), a)
      ensures prov == if deploy then ContentAfter(old(View()), a, main) else old(prov)
      ensures ok && deploy ==> head == main && recorded == if a.record then Some(main) else None
      ensures !ok || !deploy ==> recorded == old(recorded)
    {
      Take(order, deploy, w);
      ok, rolledBack, exited := true, false, false;
      if deploy {
        SameOutcome(old(View()), View(), a, main);
        ok, rolledBack, exited := DeployMain(a, main, w);
      }
      if !exited {
        File(order, ok, rolledBack, w);
      }
    }

    /**
      One whole run under the lock. It is a run of the step machine, so all that holds of
      every run of the machine holds here; if it does not exit early, nothing is left in
      processing.
    */
    method RunOnce(deploy: bool, order: seq<Job>, main: Sha, a: Answers, ghost w: World)
      returns (ran: bool, ok: bool, rolledBack: bool, exited: bool)
      requires w.d == View() && w.pc == Idle && w.main == main
      requires Distinct(order) && forall j :: j in queue || j in processing ==> j in order
      modifies this
      ensures Reaches(w, View(), Idle)
      ensures ran <==> (old(queue) != {} ||
                (deploy && a.resolved && old(recorded) != Some(if a.polled then main else old(tracking))))
      ensures !ran ==> View() == old(View()).(tracking := if deploy && a.polled then main else old(tracking))
      ensures ran ==>
                && queue == {} && processing == (if exited then old(processing + queue) else {})
                && done == (if ok then old(done + (processing + queue)) else old(done))
                && failed == (if ok || exited then old(failed) else old(failed + (processing + queue)))
                && (ok <==> !deploy || Succeeds(old(View()), a))
                && (rolledBack <==> deploy && RollsBack(old(View()), a))
                && (exited <==> deploy && Exits(old(View()), a))
                && prov == (if deploy then ContentAfter(old(View()), a, main) else old(prov))
                && (ok && deploy ==> head == main)
                && (!ok || !deploy ==> recorded == old(recorded))
    {
      ran, ok, rolledBack, exited := false, false, false, false;
      StartReaches(w, deploy, a.polled, a.resolved);
      if deploy && a.polled {
        tracking := main;
      }
      if queue == {} && !(deploy && a.resolved && recorded != Some(tracking)) {
        return;
      }
      ran := true;
      ok, rolledBack, exited := Drain(deploy, order, main, a, w);
    }
  }
}
