/**
  The mkdir lock of the deploy coordinator (coordination/mutex.sh), as the steps of
  many processes.

  A process moves one file-system operation at a time: mkdir, writing `owner`,
  reading `owner`, judging staleness, rm -rf, the second mkdir, and the two steps
  of release; any process can die between any two of them. `gen` tells one
  incarnation of the lock directory from the next, as an inode would; no process
  can see it. Times are seconds.
*/
module Mutex {
  import opened Prelude

  const LOCK_TTL: nat := 900
  const ORPHAN_GRACE: nat := 30

  type Pid = nat

  datatype Owner = Owner(pid: Pid, ts: int)

  datatype Lock = Absent | Present(gen: nat, mtime: int, owner: Option<Owner>)

  datatype Pc =
    | Outside
    | Making(gen: nat)          // mkdir succeeded, `owner` not written yet
    | Holding(gen: nat)
    | Refused                   // mkdir failed, about to read `owner`
    | Judging(saw: Lock)        // has read `owner`, about to judge
    | Reclaiming(saw: Lock)     // judged the lock stale, about to rm -rf
    | Retrying                  // about to mkdir a second time
    | Releasing(gen: nat)       // found its own pid in `owner`, about to rm -rf

  /** The live processes are the keys of `pcs`; a pid of the past is not used again. */
  datatype World = World(lock: Lock, pcs: map<Pid, Pc>, past: set<Pid>, clock: int, nextGen: nat)

  datatype Event =
    | Tick(to: int)
    | Spawn(p: Pid)
    | Dies(p: Pid)
    | Mkdir(p: Pid)
    | WriteOwner(p: Pid)
    | Look(p: Pid)
    | Judge(p: Pid)
    | Remove(p: Pid)
    | Retry(p: Pid)
    | CheckRelease(p: Pid)
    | Release(p: Pid)

  predicate Enabled(w: World, e: Event) {
    match e
    case Tick(to) => w.clock <= to
    case Spawn(p) => p !in w.pcs && p !in w.past
    case Dies(p) => p in w.pcs
    case Mkdir(p) => p in w.pcs && w.pcs[p].Outside?
    case WriteOwner(p) => p in w.pcs && w.pcs[p].Making?
    case Look(p) => p in w.pcs && w.pcs[p].Refused?
    case Judge(p) => p in w.pcs && w.pcs[p].Judging?
    case Remove(p) => p in w.pcs && w.pcs[p].Reclaiming?
    case Retry(p) => p in w.pcs && w.pcs[p].Retrying?
    case CheckRelease(p) => p in w.pcs && w.pcs[p].Holding?
    case Release(p) => p in w.pcs && w.pcs[p].Releasing?
  }

  /** One mkdir: the directory if it was absent, `failed` otherwise. */
  function TryMkdir(w: World, p: Pid, failed: Pc): World {
    if w.lock.Absent? then
      w.(lock := Present(w.nextGen, w.clock, None), nextGen := w.nextGen + 1, pcs := w.pcs[p := Making(w.nextGen)])
    else w.(pcs := w.pcs[p := failed])
  }

  /** Writing `owner` into whatever directory is there; creating the file touches the directory. */
  function WithOwner(lock: Lock, p: Pid, now: int): Lock {
    match lock
    case Absent => Absent
    case Present(gen, mtime, owner) => Present(gen, if owner.None? then now else mtime, Some(Owner(p, now)))
  }

  /** The verdict: on the owner that was read, or, if none could be, on the directory as it is now. */
  predicate Stale(saw: Lock, lock: Lock, live: set<Pid>, now: int) {
    if saw.Present? && saw.owner.Some? then
      saw.owner.value.pid !in live && now - saw.owner.value.ts > LOCK_TTL
    else
      lock.Present? && lock.mtime > 0 && now - lock.mtime > ORPHAN_GRACE
  }

  predicate OwnedBy(lock: Lock, p: Pid) {
    lock.Present? && lock.owner.Some? && lock.owner.value.pid == p
  }

  function Step(w: World, e: Event): World
    requires Enabled(w, e)
  {
    match e
    case Tick(to) => w.(clock := to)
    case Spawn(p) => w.(pcs := w.pcs[p := Outside])
    case Dies(p) => w.(pcs := w.pcs - {p}, past := w.past + {p})
    case Mkdir(p) => TryMkdir(w, p, Refused)
    case WriteOwner(p) => w.(lock := WithOwner(w.lock, p, w.clock), pcs := w.pcs[p := Holding(w.pcs[p].gen)])
    case Look(p) => w.(pcs := w.pcs[p := Judging(w.lock)])
    case Judge(p) =>
      var saw := w.pcs[p].saw;
      w.(pcs := w.pcs[p := if Stale(saw, w.lock, w.pcs.Keys, w.clock) then Reclaiming(saw) else Outside])
    case Remove(p) => w.(lock := Absent, pcs := w.pcs[p := Retrying])
    case Retry(p) => TryMkdir(w, p, Outside)
    case CheckRelease(p) => w.(pcs := w.pcs[p := if OwnedBy(w.lock, p) then Releasing(w.pcs[p].gen) else Outside])
    case Release(p) => w.(lock := Absent, pcs := w.pcs[p := Outside])
  }

  predicate Legal(w: World, es: seq<Event>)
    decreases |es|
  {
    es == [] || (Enabled(w, es[0]) && Legal(Step(w, es[0]), es[1..]))
  }

  function Run(w: World, es: seq<Event>): World
    requires Legal(w, es)
    decreases |es|
  {
    if es == [] then w else Run(Step(w, es[0]), es[1..])
  }

  // ---- the lock as a lone process sees it ----

  /** What coord_acquire_lock does when nothing else moves. */
  function AcquireAlone(lock: Lock, p: Pid, live: set<Pid>, now: int, gen: nat): (bool, Lock) {
    if lock.Absent? || Stale(lock, lock, live, now) then (true, Present(gen, now, Some(Owner(p, now))))
    else (false, lock)
  }

  /** The lock directory on disk. */
  class LockDir {
    var lock: Lock
    var inodes: nat

    constructor ()
      ensures lock == Absent && inodes == 0
    {
      lock, inodes := Absent, 0;
    }

    method MakeDir(now: int) returns (ok: bool)
      modifies this
      ensures ok == old(lock).Absent?
      ensures ok ==> lock == Present(old(inodes), now, None) && inodes == old(inodes) + 1
      ensures !ok ==> lock == old(lock) && inodes == old(inodes)
    {
      ok := lock.Absent?;
      if ok {
        lock, inodes := Present(inodes, now, None), inodes + 1;
      }
    }

    method Acquire(p: Pid, live: set<Pid>, now: int) returns (ok: bool)
      modifies this
      ensures (ok, lock) == AcquireAlone(old(lock), p, live, now, old(inodes))
      ensures old(lock).Absent? ==> ok
      ensures old(lock).Present? && old(lock).owner.Some? ==>
                var owner := old(lock).owner.value; ok <==> owner.pid !in live && now - owner.ts > 900
      ensures old(lock).Present? && old(lock).owner.None? ==>
                (ok <==> old(lock).mtime > 0 && now - old(lock).mtime > 30)
      ensures lock == if ok then Present(old(inodes), now, Some(Owner(p, now))) else old(lock)
      ensures inodes == old(inodes) + (if ok then 1 else 0)
    {
      ok := MakeDir(now);
      if ok {
        lock := WithOwner(lock, p, now);
        return;
      }
      var reclaim := false;
      if lock.owner.Some? {
        var age := now - lock.owner.value.ts;
        if lock.owner.value.pid !in live && age > LOCK_TTL {
          reclaim := true;
        }
      } else {
        var mtime := lock.mtime;
        if mtime > 0 && now - mtime > ORPHAN_GRACE {
          reclaim := true;
        }
      }
      if reclaim {
        lock := Absent;
        ok := MakeDir(now);
        if ok {
          lock := WithOwner(lock, p, now);
          return;
        }
      }
      ok := false;
    }

    method ReleaseLock(p: Pid)
      modifies this`lock
      ensures lock == if OwnedBy(old(lock), p) then Absent else old(lock)
      ensures lock.Absent? <==>
                old(lock).Absent? || (old(lock).owner.Some? && old(lock).owner.value.pid == p)
    {
      if lock.Present? && lock.owner.Some? && lock.owner.value.pid == p {
        lock := Absent;
      }
    }
  }
}
