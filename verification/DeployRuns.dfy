/**
  What every run of the deploy machine keeps, crashes included: no job is lost or
  doubled, done means deployed, the recorded commit is a healthy one, and a rollback
  restores what was there; and what it does not keep.
*/
module DeployRuns {
  import opened Prelude
  import opened Deploy

  // ---- job files ----

  function Places(d: Disk, j: Job): nat {
    (if j in d.queue then 1 else 0) + (if j in d.processing then 1 else 0)
    + (if j in d.done then 1 else 0) + (if j in d.failed then 1 else 0)
  }

  /** Every job enqueued so far is in exactly one directory, and nothing else is in any. */
  ghost predicate Filed(w: World) {
    && (forall j :: Places(w.d, j) == if j in w.h.enqueued then 1 else 0)
    && (w.pc.Taking? ==> forall j :: j in w.pc.left ==> j in w.d.queue)
  }

  lemma StepFiled(w: World, e: Event)
    requires Filed(w) && Enabled(w, e)
    ensures Filed(Step(w, e))
  {
    var v := Step(w, e);
    if e.Command? {
      CommandMovesNoJob(w, e.good, e.mess);
    }
    forall j ensures Places(v.d, j) == if j in v.h.enqueued then 1 else 0 {
      assert Places(w.d, j) == if j in w.h.enqueued then 1 else 0;
    }
  }

  lemma CommandMovesNoJob(w: World, good: bool, mess: Option<Content>)
    requires Enabled(w, Command(good, mess))
    ensures var v := AfterCommand(w, good, mess);
            && v.d.queue == w.d.queue && v.d.processing == w.d.processing && v.d.done == w.d.done
            && v.d.failed == w.d.failed && v.h.enqueued == w.h.enqueued && !v.pc.Taking?
            && v.main == w.main && v.h.now == w.h.now && v.h.prior == w.h.prior
  {}

  /** In every run, however often it crashes, each job file is in exactly one of the four directories. */
  lemma {:induction false} JobsArePartitioned(w: World, es: seq<Event>)
    requires Filed(w) && Legal(w, es)
    ensures Filed(Run(w, es))
    decreases |es|
  {
    if es != [] {
      StepFiled(w, es[0]);
      JobsArePartitioned(Step(w, es[0]), es[1..]);
    }
  }

  // ---- done means deployed ----

  /** Commands after the sync that can still end in `done`. */
  predicate PastSync(pc: Pc) {
    pc.Restarting? || pc.Checking? || pc.Recording? || (pc.Filing? && pc.ok)
  }

  predicate SyncGood(pc: Pc) {
    (pc.Restarting? && pc.ok) || (pc.Checking? && pc.ok) || pc.Recording?
  }

  predicate Verified(pc: Pc) {
    pc.Recording? || (pc.Filing? && pc.ok)
  }

  /** Some verified deploy began its sync after step t. */
  ghost predicate DeployedSince(h: History, t: nat) {
    exists i :: 0 <= i < |h.deploys| && h.deploys[i].began > t
  }

  ghost predicate Honest(w: World) {
    && (forall j :: j in w.h.enqueued ==> w.h.enqueued[j] < w.h.now)
    && (forall j :: j in w.d.processing || j in w.d.done ==> j in w.h.enqueued)
    && (PastSync(w.pc) ==> forall j :: j in w.d.processing ==> w.h.enqueued[j] < w.h.began)
    && (Verified(w.pc) ==> w.h.deploys != [] && w.h.deploys[|w.h.deploys| - 1].began == w.h.began)
    && (forall j :: j in w.d.done ==> DeployedSince(w.h, w.h.enqueued[j]))
    && !(w.pc.Taking? && !w.pc.deploy)
    && (w.pc.Taking? ==> forall j :: j in w.pc.left ==> j in w.h.enqueued)
    && (forall j :: j in w.d.queue ==> j in w.h.enqueued)
  }

  predicate NoDryRun(e: Event) {
    e.Start? ==> e.deploy
  }

  lemma MoreDeploys(h: History, g: History, t: nat)
    requires DeployedSince(h, t) && h.deploys <= g.deploys
    ensures DeployedSince(g, t)
  {
    var i :| 0 <= i < |h.deploys| && h.deploys[i].began > t;
    assert g.deploys[i].began > t;
  }

  lemma StepHonest(w: World, e: Event)
    requires Honest(w) && Enabled(w, e) && NoDryRun(e)
    ensures Honest(Step(w, e))
  {
    var v := Step(w, e);
    match e
    case Command(good, mess) =>
      CommandHonest(w, good, mess);
    case Move(j) =>
      forall j | j in v.d.done ensures DeployedSince(v.h, v.h.enqueued[j]) {
        FiledHonestly(w, e, j);
      }
    case Enqueue(_) =>
      forall j | j in v.d.done ensures DeployedSince(v.h, v.h.enqueued[j]) {
        MoreDeploys(w.h, v.h, w.h.enqueued[j]);
      }
    case _ =>
      forall j | j in v.d.done ensures DeployedSince(v.h, v.h.enqueued[j]) {
        MoreDeploys(w.h, v.h, w.h.enqueued[j]);
      }
  }

  lemma CommandHonest(w: World, good: bool, mess: Option<Content>)
    requires Honest(w) && Enabled(w, Command(good, mess))
    ensures Honest(Step(w, Command(good, mess)))
  {
    var v := Step(w, Command(good, mess));
    CommandMovesNoJob(w, good, mess);
    forall j | j in v.d.done ensures DeployedSince(v.h, v.h.enqueued[j]) {
      MoreDeploys(w.h, v.h, w.h.enqueued[j]);
    }
  }

  lemma FiledHonestly(w: World, e: Event, j: Job)
    requires Honest(w) && Enabled(w, e) && e.Move? && j in Step(w, e).d.done
    ensures j in w.h.enqueued && DeployedSince(w.h, w.h.enqueued[j])
  {
    if j !in w.d.done {
      var n := |w.h.deploys| - 1;
      assert w.h.deploys[n].began > w.h.enqueued[j];
    }
  }

  lemma {:induction false} StaysHonest(w: World, es: seq<Event>)
    requires Honest(w) && Legal(w, es) && forall i :: 0 <= i < |es| ==> NoDryRun(es[i])
    ensures Honest(Run(w, es))
    decreases |es|
  {
    if es != [] {
      StepHonest(w, es[0]);
      StaysHonest(Step(w, es[0]), es[1..]);
    }
  }

  /**
    With real deploys, a job is in done only if a deploy whose sync began after the job
    was enqueued came back healthy; also for jobs that a crashed run left behind.
  */
  lemma DoneMeansDeployed(main: Sha, clone: Sha, prov: Option<Content>, es: seq<Event>, j: Job)
    requires Legal(Fresh(main, clone, prov), es) && forall i :: 0 <= i < |es| ==> NoDryRun(es[i])
    requires j in Run(Fresh(main, clone, prov), es).d.done
    ensures var w := Run(Fresh(main, clone, prov), es);
            j in w.h.enqueued && DeployedSince(w.h, w.h.enqueued[j])
  {
    StaysHonest(Fresh(main, clone, prov), es);
  }

  // ---- the recorded commit ----

  ghost predicate WasVerified(h: History, sha: Sha) {
    exists i :: 0 <= i < |h.deploys| && h.deploys[i].sha == sha
  }

  ghost predicate RecordKept(w: World) {
    && (w.d.recorded.Some? ==> WasVerified(w.h, w.d.recorded.value))
    && (SyncGood(w.pc) ==> w.d.prov == Some(Tree(w.d.head)))
    && (w.pc.Recording? ==> WasVerified(w.h, w.d.head))
  }

  lemma MoreVerified(h: History, g: History, sha: Sha)
    requires WasVerified(h, sha) && h.deploys <= g.deploys
    ensures WasVerified(g, sha)
  {
    var i :| 0 <= i < |h.deploys| && h.deploys[i].sha == sha;
    assert g.deploys[i].sha == sha;
  }

  lemma StepRecord(w: World, e: Event)
    requires RecordKept(w) && Enabled(w, e)
    ensures RecordKept(Step(w, e))
    ensures Step(w, e).d.recorded != w.d.recorded ==>
              Step(w, e).d.recorded.None? || (Step(w, e).d.recorded == Some(w.d.head) &&
                    w.d.prov == Some(Tree(w.d.head)))
  {
    var v := Step(w, e);
    if w.d.recorded.Some? {
      MoreVerified(w.h, v.h, w.d.recorded.value);
    }
    if w.pc.Recording? {
      MoreVerified(w.h, v.h, w.d.head);
    }
    if v.pc.Recording? && !w.pc.Recording? {
      assert v.h.deploys[|w.h.deploys|].sha == v.d.head;
    }
  }

  /** Every commit the record ever names was synced and came back healthy. */
  lemma {:induction false} RecordedMeansHealthy(w: World, es: seq<Event>)
    requires RecordKept(w) && Legal(w, es)
    ensures RecordKept(Run(w, es))
    decreases |es|
  {
    if es != [] {
      StepRecord(w, es[0]);
      RecordedMeansHealthy(Step(w, es[0]), es[1..]);
    }
  }

  // ---- rollback ----

  predicate Untouched(pc: Pc) {
    pc.Taking? || pc.Fetching? || pc.Resetting? || pc.RemovingPrev? || pc.Copying?
  }

  predicate AfterCopy(pc: Pc) {
    pc.Syncing? || pc.Restarting? || pc.Checking? || pc.RollingBack?
  }

  predicate RolledBack(pc: Pc) {
    pc.RestartingAgain? || (pc.Filing? && pc.rolledBack)
  }

  /** `prior` is what this run found; a good snapshot holds it until the rollback has put it back. */
  predicate Restorable(w: World) {
    && (Untouched(w.pc) ==> w.d.prov == w.h.prior && !w.h.snapped)
    && (w.pc.Copying? ==> w.d.prov.Some?)
    && (w.h.snapped && AfterCopy(w.pc) ==> w.d.prev == w.h.prior && w.h.prior.Some?)
    && (w.h.snapped && RolledBack(w.pc) ==> w.d.prov == w.h.prior)
    && (w.pc.RemovingPrev? ==> w.d.prov.Some?)
  }

  lemma StepRestorable(w: World, e: Event)
    requires Restorable(w) && Enabled(w, e)
    ensures Restorable(Step(w, e))
  {}

  lemma {:induction false} StaysRestorable(w: World, es: seq<Event>)
    requires Restorable(w) && Legal(w, es)
    ensures Restorable(Run(w, es))
    decreases |es|
  {
    if es != [] {
      StepRestorable(w, es[0]);
      StaysRestorable(Step(w, es[0]), es[1..]);
    }
  }

  /**
    A run that took a good snapshot and finds Grafana unhealthy rolls back, and if the
    copy back succeeds it files its jobs as failed with exactly the content it found.
  */
  lemma RollbackRestores(main: Sha, clone: Sha, prov: Option<Content>, es: seq<Event>, mess: Option<Content>)
    requires Legal(Fresh(main, clone, prov), es)
    requires var w := Run(Fresh(main, clone, prov), es);
             w.h.snapped && w.pc.Checking? && w.pc.tries == 1
    ensures var w := Run(Fresh(main, clone, prov), es);
            var unhealthy := Step(w, Command(false, mess));
            var restored := Step(Step(unhealthy, Command(true, mess)), Command(true, mess));
            && unhealthy.pc == RollingBack
            && restored.pc == Filing(false, true) && restored.d.prov == w.h.prior && restored.d.recorded == w.d.recorded
  {
    StaysRestorable(Fresh(main, clone, prov), es);
  }

  /** Whenever a run is about to file jobs after a rollback from a good snapshot, the content is what it found. */
  lemma RolledBackMeansRestored(main: Sha, clone: Sha, prov: Option<Content>, es: seq<Event>)
    requires Legal(Fresh(main, clone, prov), es)
    ensures var w := Run(Fresh(main, clone, prov), es);
            w.h.snapped && RolledBack(w.pc) ==> w.d.prov == w.h.prior
  {
    StaysRestorable(Fresh(main, clone, prov), es);
  }

  // ---- what is not kept ----

  lemma RunNext(w: World, e: Event, rest: seq<Event>)
    ensures Run(w, [e] + rest) == Run(Step(w, e), rest)
    ensures Legal(w, [e] + rest) <==> Enabled(w, e) && Legal(Step(w, e), rest)
  {
    assert ([e] + rest)[1..] == rest;
  }

  lemma RunThree(w: World, a: Event, b: Event, c: Event, rest: seq<Event>)
    ensures Run(w, [a, b, c] + rest) == Run(Step(Step(Step(w, a), b), c), rest)
    ensures Legal(w, [a, b, c] + rest) <==>
              Enabled(w, a) && Enabled(Step(w, a), b) && Enabled(Step(Step(w, a), b), c)
              && Legal(Step(Step(Step(w, a), b), c), rest)
  {
    RunNext(Step(Step(w, a), b), c, rest);
    RunNext(Step(w, a), b, [c] + rest);
    RunNext(w, a, [b] + ([c] + rest));
    assert [a, b, c] + rest == [a] + ([b] + ([c] + rest));
  }

  const HALF_COPIED := Some(Mess(1))

  /**
    A failed job does not mean a rollback: a sync that fails half-way while Grafana still
    answers leaves the half-copied content in place, although the snapshot is good.
  */
  lemma FailedWithoutRollback()
    ensures exists es: seq<Event> ::
              var w := Run(Fresh(1, 0, Some(Tree(0))), es);
              && Legal(Fresh(1, 0, Some(Tree(0))), es) && w.pc == Idle && 7 in w.d.failed
              && w.h.prior == Some(Tree(0)) == w.d.prev && w.d.prov == HALF_COPIED
  {
    var w := Fresh(1, 0, Some(Tree(0)));
    var fine, broken := Command(true, None), Command(false, HALF_COPIED);
    var filed := [fine, Move(7), fine];
    var deployed := [fine, fine, broken, fine] + filed;
    var es := [Enqueue(7), Start(true, true, true), Move(7), fine, fine, fine] + deployed;
    var w1 := TakenAndReset(w, deployed);
    var w2 := CopiedAndBroken(w1, filed);
    FiledAsFailed(w2);
    assert Run(w, es) == Run(w2, filed);
  }

  lemma TakenAndReset(w: World, rest: seq<Event>) returns (v: World)
    requires w == Fresh(1, 0, Some(Tree(0)))
    ensures var fine := Command(true, None);
            var es := [Enqueue(7), Start(true, true, true), Move(7), fine, fine, fine];
            Run(w, es + rest) == Run(v, rest) && (Legal(w, es + rest) <==> Legal(v, rest))
    ensures v.pc == RemovingPrev && v.d.prov == Some(Tree(0)) == v.h.prior && v.d.processing == {7}
  {
    var fine := Command(true, None);
    var e0, e1, e2 := Enqueue(7), Start(true, true, true), Move(7);
    var w1 := Step(w, e0);
    var w2 := Step(w1, e1);
    assert w1.d.queue == {7} && w2.pc == Taking({7}, true);
    var w3 := Step(w2, e2);
    assert w3.pc.left == {};
    var w4 := Step(w3, fine);
    var w5 := Step(w4, fine);
    v := Step(w5, fine);
    RunThree(w3, fine, fine, fine, rest);
    RunThree(w, e0, e1, e2, [fine, fine, fine] + rest);
    assert [e0, e1, e2, fine, fine, fine] + rest == [e0, e1, e2] + ([fine, fine, fine] + rest);
  }

  lemma CopiedAndBroken(w: World, rest: seq<Event>) returns (v: World)
    requires w.pc == RemovingPrev && w.d.prov == Some(Tree(0)) == w.h.prior && w.d.processing == {7}
    ensures var fine, broken := Command(true, None), Command(false, HALF_COPIED);
            var es := [fine, fine, broken, fine];
            Run(w, es + rest) == Run(v, rest) && (Legal(w, es + rest) <==> Legal(v, rest))
    ensures v.pc == Checking(false, HEALTH_TRIES) && v.d.processing == {7}
    ensures v.h.prior == Some(Tree(0)) == v.d.prev && v.d.prov == HALF_COPIED
  {
    var fine, broken := Command(true, None), Command(false, HALF_COPIED);
    var w1 := Step(w, fine);
    var w2 := Step(w1, fine);
    var w3 := Step(w2, broken);
    v := Step(w3, fine);
    RunNext(w3, fine, rest);
    RunThree(w, fine, fine, broken, [fine] + rest);
    assert [fine, fine, broken, fine] + rest == [fine, fine, broken] + ([fine] + rest);
  }

  lemma FiledAsFailed(w: World)
    requires w.pc == Checking(false, HEALTH_TRIES) && w.d.processing == {7}
    ensures var es := [Command(true, None), Move(7), Command(true, None)];
            var v := Run(w, es);
            && Legal(w, es) && v.pc == Idle && 7 in v.d.failed
            && v.h.prior == w.h.prior && v.d.prev == w.d.prev && v.d.prov == w.d.prov
  {
    var fine := Command(true, None);
    var w1 := Step(w, fine);
    var w2 := Step(w1, Move(7));
    assert w2.d.processing == {};
    RunNext(w2, fine, []);
    RunNext(w1, Move(7), [fine]);
    RunNext(w, fine, [Move(7), fine]);
    assert [fine] + [] == [fine] && [Move(7)] + [fine] == [Move(7), fine];
    assert [fine] + [Move(7), fine] == [fine, Move(7), fine];
  }

  predicate IsTick(e: Event) {
    e.Start? && e.deploy
  }

  /** Jobs that a crash left in processing stay there while the queue is empty and main is the recorded commit. */
  lemma {:induction false} LeftoversWait(w: World, es: seq<Event>)
    requires w.pc == Idle && w.d.queue == {} && w.d.recorded == Some(w.main) && w.d.tracking == w.main
    requires Legal(w, es) && forall i :: 0 <= i < |es| ==> IsTick(es[i])
    ensures Run(w, es).d == w.d && Run(w, es).pc == Idle
    decreases |es|
  {
    if es != [] {
      assert Step(w, es[0]).d == w.d;
      LeftoversWait(Step(w, es[0]), es[1..]);
    }
  }

  predicate NoRecording(w: World, es: seq<Event>)
    decreases |es|
  {
    es == [] || ((es[0].Command? ==> !w.pc.Recording?) && NoRecording(Step(w, es[0]), es[1..]))
  }

  lemma StepKeepsRecord(w: World, e: Event)
    requires Enabled(w, e) && (e.Command? ==> !w.pc.Recording?) && !e.MainMoves?
    ensures Step(w, e).d.recorded == w.d.recorded && Step(w, e).main == w.main
  {
    if e.Command? { CommandMovesNoJob(w, e.good, e.mess); }
  }

  /**
    The deploy itself is retried at every tick: while main is not the recorded commit,
    no number of failed runs changes that, and each tick that can fetch goes past its
    check even with an empty queue.
  */
  lemma {:induction false} FailedDeployIsRetried(w: World, es: seq<Event>)
    requires Legal(w, es) && w.d.recorded != Some(w.main)
    requires NoRecording(w, es) && forall i :: 0 <= i < |es| ==> !es[i].MainMoves?
    ensures var v := Run(w, es);
            && v.d.recorded == w.d.recorded && v.main == w.main
            && (v.pc == Idle ==> Step(v, Start(true, true, true)).pc.Taking?)
    decreases |es|
  {
    if es != [] {
      StepKeepsRecord(w, es[0]);
      FailedDeployIsRetried(Step(w, es[0]), es[1..]);
    }
  }
}
