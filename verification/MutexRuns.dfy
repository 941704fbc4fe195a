/**
  Mutual exclusion, what it needs, and why a crash cannot wedge the lock.
*/
module MutexRuns {
  import opened Prelude
  import opened Mutex

  predicate Holds(pc: Pc) {
    pc.Making? || pc.Holding? || pc.Releasing?
  }

  predicate SameLock(a: Lock, b: Lock) {
    a.Present? && b.Present? && a.gen == b.gen && a.owner == b.owner
  }

  // ---- what the environment promises ----

  /** A live creator writes `owner` within the orphan grace. */
  ghost predicate Prompt(w: World) {
    forall p :: p in w.pcs && w.pcs[p].Making? && w.lock.Present? && w.lock.gen == w.pcs[p].gen ==>
      w.clock - w.lock.mtime <= ORPHAN_GRACE
  }

  ghost predicate Timely(w: World, es: seq<Event>)
    requires Legal(w, es)
    decreases |es|
  {
    Prompt(w) && (es != [] ==> Timely(Step(w, es[0]), es[1..]))
  }

  /** A reclaimer that removes the lock removes the one it looked at: same directory, same owner. */
  predicate Undisturbed(w: World, e: Event)
    requires Enabled(w, e)
  {
    e.Remove? && w.lock.Present? ==> SameLock(w.lock, w.pcs[e.p].saw)
  }

  predicate AllUndisturbed(w: World, es: seq<Event>)
    requires Legal(w, es)
    decreases |es|
  {
    es != [] ==> Undisturbed(w, es[0]) && AllUndisturbed(Step(w, es[0]), es[1..])
  }

  // ---- exclusion ----

  predicate Known(lock: Lock, w: World) {
    lock.Present? ==>
      && lock.gen < w.nextGen && 0 < lock.mtime
      && (lock.owner.Some? ==> lock.owner.value.pid in w.pcs || lock.owner.value.pid in w.past)
  }

  /** Whoever holds the lock is the one the directory on disk says. */
  ghost predicate Backed(w: World) {
    forall p :: p in w.pcs && Holds(w.pcs[p]) ==>
      && w.lock.Present? && w.lock.gen == w.pcs[p].gen
      && if w.pcs[p].Making? then w.lock.owner.None? else OwnedBy(w.lock, p)
  }

  ghost predicate AtMostOneHolder(w: World) {
    forall p, q :: p in w.pcs && q in w.pcs && Holds(w.pcs[p]) && Holds(w.pcs[q]) ==> p == q
  }

  /** Nobody is about to remove a lock that, if it has not changed, someone alive holds. */
  ghost predicate Justified(w: World) {
    forall p :: p in w.pcs && w.pcs[p].Reclaiming? ==>
      var saw := w.pcs[p].saw;
      && (saw.Present? && saw.owner.Some? ==> saw.owner.value.pid !in w.pcs && saw.owner.value.pid in w.past)
      && (SameLock(w.lock, saw) && saw.owner.None? ==> w.clock - w.lock.mtime > ORPHAN_GRACE)
  }

  ghost predicate Exclusive(w: World) {
    && 0 < w.clock && w.pcs.Keys !! w.past
    && Known(w.lock, w)
    && (forall p :: p in w.pcs && (w.pcs[p].Judging? || w.pcs[p].Reclaiming?) ==> Known(w.pcs[p].saw, w))
    && (w.lock.Present? && w.lock.owner.Some? && w.lock.owner.value.pid in w.pcs ==>
          Holds(w.pcs[w.lock.owner.value.pid]))
    && Backed(w) && AtMostOneHolder(w) && Justified(w)
  }

  lemma BystanderExclusive(w: World, e: Event)
    requires Exclusive(w) && Enabled(w, e)
    requires e.Tick? || e.Spawn? || e.Dies? || e.Look? || e.CheckRelease?
    ensures Exclusive(Step(w, e))
  {}

  lemma CreatorExclusive(w: World, e: Event)
    requires Exclusive(w) && Enabled(w, e)
    requires e.Mkdir? || e.Retry?
    ensures Exclusive(Step(w, e))
  {}

  lemma OwnerExclusive(w: World, e: Event)
    requires Exclusive(w) && Enabled(w, e)
    requires e.WriteOwner? || e.Release?
    ensures Exclusive(Step(w, e))
  {}

  lemma JudgeExclusive(w: World, e: Event)
    requires Exclusive(w) && Enabled(w, e) && e.Judge?
    ensures Exclusive(Step(w, e))
  {}

  lemma RemoveExclusive(w: World, e: Event)
    requires Exclusive(w) && Prompt(w) && Enabled(w, e) && e.Remove? && Undisturbed(w, e)
    ensures Exclusive(Step(w, e))
    ensures forall q :: q in w.pcs ==> !Holds(w.pcs[q])
  {}

  /** Whatever is not a removal keeps exclusion, however late creators are. */
  lemma OthersExclusive(w: World, e: Event)
    requires Exclusive(w) && Enabled(w, e) && !e.Remove?
    ensures Exclusive(Step(w, e))
  {
    match e
    case Mkdir(_) => CreatorExclusive(w, e);
    case Retry(_) => CreatorExclusive(w, e);
    case WriteOwner(_) => OwnerExclusive(w, e);
    case Release(_) => OwnerExclusive(w, e);
    case Judge(_) => JudgeExclusive(w, e);
    case _ => BystanderExclusive(w, e);
  }

  lemma StepExclusive(w: World, e: Event)
    requires Exclusive(w) && Prompt(w) && Enabled(w, e) && Undisturbed(w, e)
    ensures Exclusive(Step(w, e))
  {
    if e.Remove? {
      RemoveExclusive(w, e);
    } else {
      OthersExclusive(w, e);
    }
  }

  /**
    Mutual exclusion over all interleavings and crashes: if live creators are prompt
    and every reclaimer removes the lock it looked at, at most one live process
    holds the lock, and the directory on disk is its own.
  */
  lemma {:induction false} MutualExclusion(w: World, es: seq<Event>)
    requires Exclusive(w) && Legal(w, es) && Timely(w, es) && AllUndisturbed(w, es)
    ensures Exclusive(Run(w, es)) && AtMostOneHolder(Run(w, es))
    decreases |es|
  {
    if es != [] {
      StepExclusive(w, es[0]);
      MutualExclusion(Step(w, es[0]), es[1..]);
    }
  }

  /** The lock on disk is somebody's: its recorded owner is alive, or its creator is about to write. */
  ghost predicate InUse(w: World) {
    w.lock.Present? &&
    if w.lock.owner.Some? then w.lock.owner.value.pid in w.pcs
    else exists q :: q in w.pcs && w.pcs[q] == Making(w.lock.gen)
  }

  /**
    Exactly when a reclaimer may go ahead: its rm and second mkdir leave at most one
    holder if and only if the lock then on disk is nobody's. That it is the lock the
    reclaimer looked at is enough for that.
  */
  lemma RemovalIsSafeExactly(w: World, p: Pid)
    requires Exclusive(w) && Enabled(w, Remove(p))
    ensures AtMostOneHolder(Step(Step(w, Remove(p)), Retry(p))) <==> !InUse(w)
    ensures Prompt(w) && Undisturbed(w, Remove(p)) ==> !InUse(w)
  {
    var v := Step(Step(w, Remove(p)), Retry(p));
    assert Holds(v.pcs[p]);
    if InUse(w) {
      var q :| q in w.pcs && Holds(w.pcs[q]);
      assert q != p && v.pcs[q] == w.pcs[q];
    }
  }

  lemma RemoveExclusiveExactly(w: World, p: Pid)
    requires Exclusive(w) && Enabled(w, Remove(p))
    ensures Exclusive(Step(w, Remove(p))) <==> !InUse(w)
  {
    if InUse(w) {
      var q :| q in w.pcs && Holds(w.pcs[q]);
      assert q != p && Step(w, Remove(p)).pcs[q] == w.pcs[q];
    }
  }

  /** No reclaimer of the run removes a lock that is somebody's. */
  ghost predicate RemovesNothingInUse(w: World, es: seq<Event>)
    requires Legal(w, es)
    decreases |es|
  {
    es != [] ==> (es[0].Remove? ==> !InUse(w)) && RemovesNothingInUse(Step(w, es[0]), es[1..])
  }

  /**
    At most one holder at every point of the run, and also if a reclaimer that has just
    removed the lock goes straight on to its mkdir.
  */
  ghost predicate OneHolderThroughout(w: World, es: seq<Event>)
    requires Legal(w, es)
    decreases |es|
  {
    && AtMostOneHolder(w)
    && (es != [] && es[0].Remove? ==> AtMostOneHolder(Step(Step(w, es[0]), Retry(es[0].p))))
    && (es != [] ==> OneHolderThroughout(Step(w, es[0]), es[1..]))
  }

  /**
    Over all interleavings and crashes, with no promise from anyone: there is at most one
    holder at every point of a run, and after every removal followed at once by the
    remover's mkdir, if and only if no reclaimer of the run removes a lock in use.
  */
  lemma {:induction false} ExclusionExactly(w: World, es: seq<Event>)
    requires Exclusive(w) && Legal(w, es)
    ensures OneHolderThroughout(w, es) <==> RemovesNothingInUse(w, es)
    ensures RemovesNothingInUse(w, es) ==> Exclusive(Run(w, es))
    decreases |es|
  {
    if es != [] {
      var e, v := es[0], Step(w, es[0]);
      if e.Remove? {
        RemovalIsSafeExactly(w, e.p);
        RemoveExclusiveExactly(w, e.p);
      } else {
        OthersExclusive(w, e);
      }
      if Exclusive(v) {
        ExclusionExactly(v, es[1..]);
      } else {
        assert e == Remove(e.p);
      }
    }
  }

  // ---- what each operation does ----

  /** Of the mkdirs that find the lock exactly the one that finds it absent succeeds; a first one goes on to look. */
  lemma MkdirTakesWhatIsAbsent(w: World, e: Event)
    requires Enabled(w, e) && (e.Mkdir? || e.Retry?)
    ensures var v := Step(w, e);
            && (v.pcs[e.p] == Making(w.nextGen) <==> w.lock.Absent?)
            && v.lock == (if w.lock.Absent? then Present(w.nextGen, w.clock, None) else w.lock)
            && (w.lock.Present? ==> v.pcs[e.p] == if e.Mkdir? then Refused else Outside)
  {}

  /** The owner is dated when it is written; the directory when its owner file appears. */
  lemma OwnerIsDated(w: World, p: Pid)
    requires Enabled(w, WriteOwner(p))
    ensures var v := Step(w, WriteOwner(p));
            && v.pcs[p] == Holding(w.pcs[p].gen) && (v.lock.Present? <==> w.lock.Present?)
            && (v.lock.Present? ==>
                  && v.lock.owner == Some(Owner(p, w.clock)) && v.lock.gen == w.lock.gen
                  && v.lock.mtime == if w.lock.owner.Some? then w.lock.mtime else w.clock)
  {}

  /**
    A process goes on to reclaim exactly if the owner it read is dead and was recorded
    more than fifteen minutes ago, or, having read none, if the directory it finds is
    more than half a minute old.
  */
  lemma JudgesExactly(w: World, p: Pid)
    requires Enabled(w, Judge(p))
    ensures var saw, v := w.pcs[p].saw, Step(w, Judge(p));
            && v.lock == w.lock && (v.pcs[p] == Reclaiming(saw) || v.pcs[p] == Outside)
            && (saw.Present? && saw.owner.Some? ==>
                  (v.pcs[p].Reclaiming? <==>
                     saw.owner.value.pid !in w.pcs && w.clock - saw.owner.value.ts > 900))
            && (saw.Absent? || saw.owner.None? ==>
                  (v.pcs[p].Reclaiming? <==> w.lock.Present? && w.lock.mtime > 0 && w.clock - w.lock.mtime > 30))
  {}

  /** Whoever is about to remove a lock that had an owner saw one recorded more than fifteen minutes ago. */
  ghost predicate ReclaimersWaited(w: World) {
    forall p :: p in w.pcs && w.pcs[p].Reclaiming? && w.pcs[p].saw.Present? && w.pcs[p].saw.owner.Some? ==>
      w.clock - w.pcs[p].saw.owner.value.ts > 900
  }

  /** In every run, with no promise from anyone. */
  lemma {:induction false} NoYoungLockIsReclaimed(w: World, es: seq<Event>)
    requires ReclaimersWaited(w) && Legal(w, es)
    ensures ReclaimersWaited(Run(w, es))
    decreases |es|
  {
    if es != [] {
      NoYoungLockIsReclaimed(Step(w, es[0]), es[1..]);
    }
  }

  // ---- one reclaimer at a time, if its check is one step ----

  predicate InWindow(pc: Pc) {
    pc.Judging? || pc.Reclaiming?
  }

  ghost predicate OneInWindow(w: World) {
    forall p, q :: p in w.pcs && q in w.pcs && InWindow(w.pcs[p]) && InWindow(w.pcs[q]) ==> p == q
  }

  ghost predicate OneAtATime(w: World, es: seq<Event>)
    requires Legal(w, es)
    decreases |es|
  {
    OneInWindow(w) && (es != [] ==> OneAtATime(Step(w, es[0]), es[1..]))
  }

  /** Reading the owner and judging it are one uninterrupted step. */
  predicate CheckedAtOnce(es: seq<Event>) {
    forall i :: 0 <= i < |es| && es[i].Look? ==> i + 1 < |es| && es[i + 1] == Judge(es[i].p)
  }

  /** A reclaimer's judgement is still about the lock that is there. */
  ghost predicate Current(w: World, es: seq<Event>) {
    && (forall p :: p in w.pcs && w.pcs[p].Reclaiming? ==> SameLock(w.lock, w.pcs[p].saw))
    && (forall p :: p in w.pcs && w.pcs[p].Judging? ==>
          es != [] && es[0] == Judge(p) && w.pcs[p].saw == w.lock)
  }

  lemma StepCurrent(w: World, e: Event, es: seq<Event>)
    requires Exclusive(w) && Prompt(w) && Enabled(w, e) && Current(w, [e] + es) && OneInWindow(w)
    requires e.Look? ==> es != [] && es[0] == Judge(e.p)
    ensures Undisturbed(w, e) && Current(Step(w, e), es)
  {
  }

  /** Then no reclaimer is ever disturbed, so at most one live process holds the lock. */
  lemma {:induction false} OneReclaimerSuffices(w: World, es: seq<Event>)
    requires Exclusive(w) && Legal(w, es) && Timely(w, es) && Current(w, es)
    requires OneAtATime(w, es) && CheckedAtOnce(es)
    ensures AllUndisturbed(w, es) && AtMostOneHolder(Run(w, es))
    decreases |es|
  {
    if es != [] {
      assert [es[0]] + es[1..] == es;
      if es[0].Look? {
        assert es[0 + 1] == Judge(es[0].p);
      }
      StepCurrent(w, es[0], es[1..]);
      StepExclusive(w, es[0]);
      forall i | 0 <= i < |es[1..]| && es[1..][i].Look?
        ensures i + 1 < |es[1..]| && es[1..][i + 1] == Judge(es[1..][i].p)
      {
        assert es[i + 1].Look?;
      }
      OneReclaimerSuffices(Step(w, es[0]), es[1..]);
    }
  }

  // ---- runs, one event at a time ----

  ghost predicate Reached(w0: World, es: seq<Event>, w: World) {
    Legal(w0, es) && Run(w0, es) == w
  }

  lemma {:induction false} Next(w0: World, es: seq<Event>, w: World, e: Event, v: World) returns (es': seq<Event>)
    requires Reached(w0, es, w) && Enabled(w, e) && v == Step(w, e)
    ensures es' == es + [e] && Reached(w0, es', v)
    decreases |es|
  {
    es' := es + [e];
    if es == [] {
      assert es' == [e] && es'[1..] == [];
      assert Legal(v, []);
    } else {
      var rest := Next(Step(w0, es[0]), es[1..], w, e, v);
      assert es'[1..] == rest;
    }
  }

  // ---- a crash cannot wedge the lock ----

  /** The events of one process acquiring alone. */
  function LoneEvents(w: World, p: Pid): seq<Event> {
    if w.lock.Absent? then [Mkdir(p), WriteOwner(p)]
    else if Stale(w.lock, w.lock, w.pcs.Keys, w.clock) then
      [Mkdir(p), Look(p), Judge(p), Remove(p), Retry(p), WriteOwner(p)]
    else [Mkdir(p), Look(p), Judge(p)]
  }

  /** Alone, a process gets the lock exactly if it is absent or stale; otherwise it changes nothing. */
  lemma LoneAcquire(w: World, p: Pid)
    requires p in w.pcs && w.pcs[p].Outside?
    ensures Legal(w, LoneEvents(w, p))
    ensures var v := Run(w, LoneEvents(w, p));
            var (ok, lock) := AcquireAlone(w.lock, p, w.pcs.Keys, w.clock, w.nextGen);
            && v.lock == lock && v.pcs == w.pcs[p := if ok then Holding(w.nextGen) else Outside]
            && v.clock == w.clock && v.past == w.past
            && (ok <==> w.lock.Absent? || if w.lock.owner.Some?
                        then w.lock.owner.value.pid !in w.pcs && w.clock - w.lock.owner.value.ts > 900
                        else w.lock.mtime > 0 && w.clock - w.lock.mtime > 30)
            && lock == if ok then Present(w.nextGen, w.clock, Some(Owner(p, w.clock))) else w.lock
  {
    var tried := Step(w, Mkdir(p));
    var es := Next(w, [], w, Mkdir(p), tried);
    if w.lock.Absent? {
      var held := Step(tried, WriteOwner(p));
      assert held.pcs == w.pcs[p := Holding(w.nextGen)];
      es := Next(w, es, tried, WriteOwner(p), held);
    } else {
      var seen := Step(tried, Look(p));
      assert seen == w.(pcs := w.pcs[p := Judging(w.lock)]) && seen.pcs.Keys == w.pcs.Keys;
      es := Next(w, es, tried, Look(p), seen);
      if Stale(w.lock, w.lock, w.pcs.Keys, w.clock) {
        es := ReclaimAlone(w, es, p);
      } else {
        var refused := Step(seen, Judge(p));
        assert refused.pcs == w.pcs[p := Outside];
        es := Next(w, es, seen, Judge(p), refused);
      }
    }
    assert es == LoneEvents(w, p);
  }

  lemma ReclaimAlone(w: World, es: seq<Event>, p: Pid) returns (es': seq<Event>)
    requires p in w.pcs && w.lock.Present? && Stale(w.lock, w.lock, w.pcs.Keys, w.clock)
    requires Reached(w, es, w.(pcs := w.pcs[p := Judging(w.lock)]))
    ensures es' == es + [Judge(p), Remove(p), Retry(p), WriteOwner(p)]
    ensures Reached(w, es', World(Present(w.nextGen, w.clock, Some(Owner(p, w.clock))),
                                  w.pcs[p := Holding(w.nextGen)], w.past, w.clock, w.nextGen + 1))
  {
    var seen := w.(pcs := w.pcs[p := Judging(w.lock)]);
    assert seen.pcs.Keys == w.pcs.Keys;
    var stale := w.(pcs := w.pcs[p := Reclaiming(w.lock)]);
    es' := Next(w, es, seen, Judge(p), stale);
    var gone := World(Absent, w.pcs[p := Retrying], w.past, w.clock, w.nextGen);
    es' := Next(w, es', stale, Remove(p), gone);
    var made := Step(gone, Retry(p));
    es' := Next(w, es', gone, Retry(p), made);
    var held := Step(made, WriteOwner(p));
    assert held.pcs == w.pcs[p := Holding(w.nextGen)];
    es' := Next(w, es', made, WriteOwner(p), held);
  }

  /**
    No wedge: in any reachable world that no live process holds the lock in, whatever
    crashed where, a lone process that tries after the TTL and the grace gets it.
  */
  lemma NoWedge(w: World, p: Pid, to: int)
    requires Exclusive(w) && p in w.pcs && w.pcs[p].Outside?
    requires forall q :: q in w.pcs ==> !Holds(w.pcs[q])
    requires w.clock <= to
    requires w.lock.Present? ==>
               if w.lock.owner.Some? then to - w.lock.owner.value.ts > 900 else to - w.lock.mtime > 30
    ensures var v := Step(w, Tick(to));
            && Legal(v, LoneEvents(v, p))
            && p in Run(v, LoneEvents(v, p)).pcs && Run(v, LoneEvents(v, p)).pcs[p].Holding?
            && OwnedBy(Run(v, LoneEvents(v, p)).lock, p)
  {
    LoneAcquire(Step(w, Tick(to)), p);
  }
}
