/**
  Why exclusion needs what it asks for: four short runs of the lock, each from a
  world in which it holds, each breaking one condition only, each ending with two
  live processes that believe they hold it; and one that gets away with it.
*/
module MutexRaces {
  import opened Prelude
  import opened Mutex
  import opened MutexRuns

  const NOW: int := 7201
  const LATER: int := NOW + ORPHAN_GRACE + 1

  function Two(lock: Lock, one: Pc, two: Pc, clock: int, gen: nat): World {
    World(lock, map[1 := one, 2 := two], {9}, clock, gen)
  }

  function Made(gen: nat): Lock {
    Present(gen, NOW, None)
  }

  predicate BothHold(w: World, p: Pid, q: Pid) {
    p != q && p in w.pcs && q in w.pcs && Holds(w.pcs[p]) && Holds(w.pcs[q])
  }

  /** A run from w to v; if asked, with prompt creators, and with one process in its window at a time. */
  ghost predicate Goes(w: World, es: seq<Event>, v: World, prompt: bool, one: bool) {
    && Legal(w, es) && Run(w, es) == v
    && (prompt ==> Timely(w, es))
    && (one ==> OneAtATime(w, es))
  }

  predicate OnlyChecker(w: World, p: Pid) {
    forall q :: q in w.pcs && InWindow(w.pcs[q]) ==> q == p
  }

  lemma First(w: World, e: Event, u: World, es: seq<Event>, v: World, prompt: bool, one: bool)
    requires Enabled(w, e) && u == Step(w, e) && Goes(u, es, v, prompt, one)
    requires (prompt ==> Prompt(w)) && (one ==> OnlyChecker(w, 2))
    ensures Goes(w, [e] + es, v, prompt, one)
  {
    assert ([e] + es)[1..] == es;
  }

  // ---- two reclaimers ----

  /** Left behind by process 9, which died two hours ago. */
  const LEFT: Lock := Present(0, 1, Some(Owner(9, 1)))

  lemma SecondRemoves()
    ensures Goes(Two(Made(1), Making(1), Reclaiming(LEFT), NOW, 2), [Remove(2), Retry(2)],
                 Two(Made(2), Making(1), Making(2), NOW, 3), true, false)
  {
    var w2 := Two(Made(1), Making(1), Reclaiming(LEFT), NOW, 2);
    var w3 := Two(Absent, Making(1), Retrying, NOW, 2);
    var v := Two(Made(2), Making(1), Making(2), NOW, 3);
    assert Goes(v, [], v, true, false);
    First(w3, Retry(2), v, [], v, true, false);
    First(w2, Remove(2), w3, [Retry(2)], v, true, false);
  }

  lemma BothRemove()
    ensures Goes(Two(LEFT, Reclaiming(LEFT), Reclaiming(LEFT), NOW, 1),
                 [Remove(1), Retry(1), Remove(2), Retry(2)],
                 Two(Made(2), Making(1), Making(2), NOW, 3), true, false)
  {
    var w1 := Two(Absent, Retrying, Reclaiming(LEFT), NOW, 1);
    var w2 := Two(Made(1), Making(1), Reclaiming(LEFT), NOW, 2);
    var v := Two(Made(2), Making(1), Making(2), NOW, 3);
    SecondRemoves();
    First(w1, Retry(1), w2, [Remove(2), Retry(2)], v, true, false);
    First(Two(LEFT, Reclaiming(LEFT), Reclaiming(LEFT), NOW, 1), Remove(1), w1, [Retry(1), Remove(2), Retry(2)], v,
          true, false);
  }

  const TWO_RECLAIMERS: seq<Event> :=
    [Look(1), Judge(1), Look(2), Judge(2), Remove(1), Retry(1), Remove(2), Retry(2)]

  lemma SecondJudges()
    ensures Goes(Two(LEFT, Reclaiming(LEFT), Refused, NOW, 1), TWO_RECLAIMERS[2..],
                 Two(Made(2), Making(1), Making(2), NOW, 3), true, false)
  {
    var w2 := Two(LEFT, Reclaiming(LEFT), Refused, NOW, 1);
    var w3 := Two(LEFT, Reclaiming(LEFT), Judging(LEFT), NOW, 1);
    var w4 := Two(LEFT, Reclaiming(LEFT), Reclaiming(LEFT), NOW, 1);
    var v := Two(Made(2), Making(1), Making(2), NOW, 3);
    BothRemove();
    First(w3, Judge(2), w4, TWO_RECLAIMERS[4..], v, true, false);
    First(w2, Look(2), w3, TWO_RECLAIMERS[3..], v, true, false);
  }

  lemma BothJudge()
    ensures Goes(Two(LEFT, Refused, Refused, NOW, 1), TWO_RECLAIMERS, Two(Made(2), Making(1), Making(2), NOW, 3),
          true, false)
  {
    var w1 := Two(LEFT, Judging(LEFT), Refused, NOW, 1);
    var w2 := Two(LEFT, Reclaiming(LEFT), Refused, NOW, 1);
    var v := Two(Made(2), Making(1), Making(2), NOW, 3);
    SecondJudges();
    First(w1, Judge(1), w2, TWO_RECLAIMERS[2..], v, true, false);
    First(Two(LEFT, Refused, Refused, NOW, 1), Look(1), w1, TWO_RECLAIMERS[1..], v, true, false);
  }

  lemma StartsExclusive(w: World)
    requires w in {Two(LEFT, Refused, Refused, NOW, 1), Two(Made(1), Making(1), Refused, NOW, 2),
                   Three(HELD, Holding(0), Refused, Outside)}
    ensures Exclusive(w)
  {}

  /** Two reclaimers of the same dead lock: the second removes the lock the first has just taken. */
  lemma TwoReclaimersBothHold() returns (w: World, es: seq<Event>)
    ensures Exclusive(w) && Legal(w, es) && Timely(w, es) && CheckedAtOnce(es)
    ensures BothHold(Run(w, es), 1, 2)
  {
    w, es := Two(LEFT, Refused, Refused, NOW, 1), TWO_RECLAIMERS;
    StartsExclusive(w);
    BothJudge();
  }

  const LUCKY: seq<Event> := [Remove(2), WriteOwner(1), CheckRelease(1), Retry(2)]

  ghost predicate NeverTwo(w: World, es: seq<Event>)
    requires Legal(w, es)
    decreases |es|
  {
    AtMostOneHolder(w) && (es != [] ==> NeverTwo(Step(w, es[0]), es[1..]))
  }

  lemma Onwards(w: World, e: Event, u: World, es: seq<Event>)
    requires Enabled(w, e) && u == Step(w, e) && AtMostOneHolder(w) && Legal(u, es) && NeverTwo(u, es)
    ensures Legal(w, [e] + es) && NeverTwo(w, [e] + es)
  {
    assert ([e] + es)[1..] == es;
  }

  lemma LuckyEnd()
    ensures var w := Two(Absent, Holding(1), Retrying, NOW, 2); Legal(w, LUCKY[2..]) && NeverTwo(w, LUCKY[2..])
  {
    var w3 := Two(Absent, Outside, Retrying, NOW, 2);
    Onwards(w3, Retry(2), Two(Made(2), Outside, Making(2), NOW, 3), []);
    Onwards(Two(Absent, Holding(1), Retrying, NOW, 2), CheckRelease(1), w3, LUCKY[3..]);
  }

  lemma HolderLeavesFirst()
    ensures var w := Two(Absent, Making(1), Retrying, NOW, 2); Legal(w, LUCKY[1..]) && NeverTwo(w, LUCKY[1..])
  {
    LuckyEnd();
    Onwards(Two(Absent, Making(1), Retrying, NOW, 2), WriteOwner(1), Two(Absent, Holding(1), Retrying, NOW, 2),
            LUCKY[2..]);
  }

  lemma RemovalOfUse(w: World)
    requires w == Two(Made(1), Making(1), Reclaiming(LEFT), NOW, 2)
    ensures Exclusive(w) && InUse(w)
  {
    assert w.pcs[1] == Making(w.lock.gen);
  }

  /**
    A lock in use can be removed and no second holder appear, if the holder happens to
    leave before the remover goes on.
  */
  lemma RemovalMayGoUnnoticed() returns (w: World, es: seq<Event>)
    ensures Exclusive(w) && Legal(w, es) && NeverTwo(w, es) && !RemovesNothingInUse(w, es)
  {
    w, es := Two(Made(1), Making(1), Reclaiming(LEFT), NOW, 2), LUCKY;
    RemovalOfUse(w);
    HolderLeavesFirst();
    Onwards(w, Remove(2), Two(Absent, Making(1), Retrying, NOW, 2), LUCKY[1..]);
  }

  // ---- one reclaimer, checking in two steps ----

  /** Taken two hours ago by process 1, which is still at work. */
  const HELD: Lock := Present(0, 1, Some(Owner(1, 1)))

  function Three(lock: Lock, one: Pc, two: Pc, three: Pc): World {
    World(lock, map[1 := one, 2 := two, 3 := three], {}, NOW, 1)
  }

  function LastTwo(lock: Lock, two: Pc, three: Pc, gen: nat): World {
    World(lock, map[2 := two, 3 := three], {1}, NOW, gen)
  }

  const HOLDER_EXITS: seq<Event> :=
    [Look(2), CheckRelease(1), Release(1), Dies(1), Mkdir(3), Judge(2), Remove(2), Retry(2)]

  lemma NewLockIsRemoved()
    ensures Goes(LastTwo(Made(1), Reclaiming(HELD), Making(1), 2), HOLDER_EXITS[6..],
                 LastTwo(Made(2), Making(2), Making(1), 3), true, true)
  {
    var w1 := LastTwo(Absent, Retrying, Making(1), 2);
    var v := LastTwo(Made(2), Making(2), Making(1), 3);
    assert Goes(v, [], v, true, true);
    First(w1, Retry(2), v, [], v, true, true);
    First(LastTwo(Made(1), Reclaiming(HELD), Making(1), 2), Remove(2), w1, [Retry(2)], v, true, true);
  }

  lemma NewLockIsMisjudged()
    ensures Goes(LastTwo(Absent, Judging(HELD), Outside, 1), HOLDER_EXITS[4..],
                 LastTwo(Made(2), Making(2), Making(1), 3), true, true)
  {
    var w1 := LastTwo(Absent, Judging(HELD), Outside, 1);
    var w2 := LastTwo(Made(1), Judging(HELD), Making(1), 2);
    var w3 := LastTwo(Made(1), Reclaiming(HELD), Making(1), 2);
    var v := LastTwo(Made(2), Making(2), Making(1), 3);
    NewLockIsRemoved();
    First(w2, Judge(2), w3, HOLDER_EXITS[6..], v, true, true);
    First(w1, Mkdir(3), w2, HOLDER_EXITS[5..], v, true, true);
  }

  lemma NewHolderIsMisjudged()
    ensures Goes(Three(Absent, Outside, Judging(HELD), Outside), HOLDER_EXITS[3..],
                 LastTwo(Made(2), Making(2), Making(1), 3), true, true)
  {
    var w1 := LastTwo(Absent, Judging(HELD), Outside, 1);
    var v := LastTwo(Made(2), Making(2), Making(1), 3);
    NewLockIsMisjudged();
    First(Three(Absent, Outside, Judging(HELD), Outside), Dies(1), w1, HOLDER_EXITS[4..], v, true, true);
  }

  lemma OldHolderReleases()
    ensures Goes(Three(HELD, Releasing(0), Judging(HELD), Outside), HOLDER_EXITS[2..],
                 LastTwo(Made(2), Making(2), Making(1), 3), true, true)
  {
    NewHolderIsMisjudged();
    First(Three(HELD, Releasing(0), Judging(HELD), Outside), Release(1), Three(Absent, Outside, Judging(HELD), Outside),
          HOLDER_EXITS[3..], LastTwo(Made(2), Making(2), Making(1), 3), true, true);
  }

  lemma OldHolderLeaves()
    ensures Goes(Three(HELD, Holding(0), Refused, Outside), HOLDER_EXITS,
                 LastTwo(Made(2), Making(2), Making(1), 3), true, true)
  {
    var w1 := Three(HELD, Holding(0), Judging(HELD), Outside);
    var w2 := Three(HELD, Releasing(0), Judging(HELD), Outside);
    var v := LastTwo(Made(2), Making(2), Making(1), 3);
    OldHolderReleases();
    First(w1, CheckRelease(1), w2, HOLDER_EXITS[2..], v, true, true);
    First(Three(HELD, Holding(0), Refused, Outside), Look(2), w1, HOLDER_EXITS[1..], v, true, true);
  }

  /**
    Process 2 reads the name of a live, long-running holder; that holder releases and
    exits, process 3 takes the lock; only then does 2 find the name dead, and remove
    3's lock. No second reclaimer is involved.
  */
  lemma HolderExitsDuringTheCheck() returns (w: World, es: seq<Event>)
    ensures Exclusive(w) && Legal(w, es) && Timely(w, es) && OneAtATime(w, es)
    ensures BothHold(Run(w, es), 2, 3)
  {
    w, es := Three(HELD, Holding(0), Refused, Outside), HOLDER_EXITS;
    StartsExclusive(w);
    OldHolderLeaves();
  }

  // ---- the orphan branch ----

  lemma OrphanIsRemoved(lock: Lock, holder: Pc, prompt: bool)
    requires lock.Present? && Holds(holder) && holder.gen == 1
    requires prompt ==> holder.Holding?
    ensures Goes(Two(lock, holder, Reclaiming(Made(1)), LATER, 2), [Remove(2), Retry(2)],
                 Two(Present(2, LATER, None), holder, Making(2), LATER, 3), prompt, true)
  {
    var w1 := Two(Absent, holder, Retrying, LATER, 2);
    var v := Two(Present(2, LATER, None), holder, Making(2), LATER, 3);
    assert Goes(v, [], v, prompt, true);
    First(w1, Retry(2), v, [], v, prompt, true);
    First(Two(lock, holder, Reclaiming(Made(1)), LATER, 2), Remove(2), w1, [Retry(2)], v, prompt, true);
  }

  const OWNER_APPEARS: seq<Event> := [Look(2), WriteOwner(1), Tick(LATER), Judge(2), Remove(2), Retry(2)]

  lemma OwnerIsMisjudged(owned: Lock)
    requires owned == Present(1, NOW, Some(Owner(1, NOW)))
    ensures Goes(Two(owned, Holding(1), Judging(Made(1)), NOW, 2), OWNER_APPEARS[2..],
                 Two(Present(2, LATER, None), Holding(1), Making(2), LATER, 3), true, true)
  {
    var w1 := Two(owned, Holding(1), Judging(Made(1)), LATER, 2);
    var w2 := Two(owned, Holding(1), Reclaiming(Made(1)), LATER, 2);
    var v := Two(Present(2, LATER, None), Holding(1), Making(2), LATER, 3);
    OrphanIsRemoved(owned, Holding(1), true);
    First(w1, Judge(2), w2, OWNER_APPEARS[4..], v, true, true);
    First(Two(owned, Holding(1), Judging(Made(1)), NOW, 2), Tick(LATER), w1, OWNER_APPEARS[3..], v, true, true);
  }

  lemma OwnerIsMissed()
    ensures Goes(Two(Made(1), Making(1), Refused, NOW, 2), OWNER_APPEARS,
                 Two(Present(2, LATER, None), Holding(1), Making(2), LATER, 3), true, true)
  {
    var owned := Present(1, NOW, Some(Owner(1, NOW)));
    var w1 := Two(Made(1), Making(1), Judging(Made(1)), NOW, 2);
    var v := Two(Present(2, LATER, None), Holding(1), Making(2), LATER, 3);
    OwnerIsMisjudged(owned);
    First(w1, WriteOwner(1), Two(owned, Holding(1), Judging(Made(1)), NOW, 2), OWNER_APPEARS[2..], v, true, true);
    First(Two(Made(1), Making(1), Refused, NOW, 2), Look(2), w1, OWNER_APPEARS[1..], v, true, true);
  }

  /**
    The same through the orphan branch: `owner` appears after process 2 missed it,
    and 2 then finds the directory old.
  */
  lemma OwnerAppearsDuringTheCheck() returns (w: World, es: seq<Event>)
    ensures Exclusive(w) && Legal(w, es) && Timely(w, es) && OneAtATime(w, es)
    ensures BothHold(Run(w, es), 1, 2)
  {
    w, es := Two(Made(1), Making(1), Refused, NOW, 2), OWNER_APPEARS;
    StartsExclusive(w);
    OwnerIsMissed();
  }

  // ---- a slow creator ----

  const SLOW_CREATOR: seq<Event> := [Tick(LATER), Look(2), Judge(2), Remove(2), Retry(2)]

  lemma CreatorIsSlow()
    ensures Goes(Two(Made(1), Making(1), Refused, NOW, 2), SLOW_CREATOR,
                 Two(Present(2, LATER, None), Making(1), Making(2), LATER, 3), false, true)
  {
    var w1 := Two(Made(1), Making(1), Refused, LATER, 2);
    var w2 := Two(Made(1), Making(1), Judging(Made(1)), LATER, 2);
    var w3 := Two(Made(1), Making(1), Reclaiming(Made(1)), LATER, 2);
    var v := Two(Present(2, LATER, None), Making(1), Making(2), LATER, 3);
    OrphanIsRemoved(Made(1), Making(1), false);
    First(w2, Judge(2), w3, SLOW_CREATOR[3..], v, false, true);
    First(w1, Look(2), w2, SLOW_CREATOR[2..], v, false, true);
    First(Two(Made(1), Making(1), Refused, NOW, 2), Tick(LATER), w1, SLOW_CREATOR[1..], v, false, true);
  }

  /** A creator slower than the grace loses its lock to one careful reclaimer, and does not notice. */
  lemma SlowCreatorLosesTheLock() returns (w: World, es: seq<Event>)
    ensures Exclusive(w) && Legal(w, es) && OneAtATime(w, es) && CheckedAtOnce(es)
    ensures BothHold(Run(w, es), 1, 2)
  {
    w, es := Two(Made(1), Making(1), Refused, NOW, 2), SLOW_CREATOR;
    StartsExclusive(w);
    CreatorIsSlow();
  }
}
