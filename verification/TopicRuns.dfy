/**
  Every run of publishes, reads and alarms on one topic.
*/
module TopicRuns {
  import opened Prelude
  import opened Topic

  // ---- liveness ----

  /** A liveness note as an observer files it: when it came, and the publish it followed. */
  datatype Filed = Filed(note: Note, at: int, publishedAt: int, ttl: int)

  /** The last publish of a run. */
  datatype Published = Published(at: int, ttl: int, envelope: string)

  datatype World = World(store: Store, clock: int, filed: seq<Filed>, published: Option<Published>)

  datatype Event =
    | Tick(to: int)
    | Publishes(envelope: string, ttl: int)
    | Appends(envelope: string)
    | Fires

  function Start(clock: int): World {
    World(EMPTY_STORE, clock, [], None)
  }

  predicate Enabled(w: World, e: Event) {
    match e
    case Tick(to) => w.clock <= to
    case Fires => w.store.alarm.Some? && w.store.alarm.value <= w.clock
    case Publishes(_, _) => true
    case Appends(_) => true
  }

  function File(w: World, notes: seq<Note>): seq<Filed>
    requires |notes| <= 1
  {
    var last := if w.published.Some? then w.published.value else Published(0, 0, "");
    if notes == [] then w.filed else w.filed + [Filed(notes[0], w.clock, last.at, last.ttl)]
  }

  function Step(w: World, e: Event): World
    requires Enabled(w, e)
  {
    match e
    case Tick(to) => w.(clock := to)
    case Publishes(envelope, ttl) =>
      World(AfterPublish(w.store, envelope, ttl, w.clock), w.clock,
            File(w, PublishNotes(w.store, w.clock)), Some(Published(w.clock, ttl, envelope)))
    case Appends(envelope) => w.(store := AfterEvent(w.store, envelope, w.clock))
    case Fires => w.(store := AfterAlarm(w.store, w.clock), filed := File(w, AlarmNotes(w.store, w.clock)))
  }

  predicate Legal(w: World, es: seq<Event>)
    decreases |es|
  {
    es == [] || (Enabled(w, es[0]) && Legal(Step(w, es[0]), es[1..]))
  }

  function Run(w: World, es: seq<Event>): World
    requires Legal(w, es)
    decreases |es|
  {
    if es == [] then w else Run(Step(w, es[0]), es[1..])
  }

  /**
    Silent, recovered, silent, recovered, ...; a silence at least one TTL after the
    last publish; a recovery naming how long the silence before it lasted.
  */
  ghost predicate Alternating(filed: seq<Filed>) {
    forall i :: 0 <= i < |filed| ==> Turn(filed, i)
  }

  ghost predicate Turn(filed: seq<Filed>, i: nat)
    requires i < |filed|
  {
    var f := filed[i];
    if i % 2 == 0 then 
      f.note.Silent? && f.publishedAt + f.ttl * 1000 <= f.at && Rounds(f.at - f.publishedAt, f.note.lastSeenSec)
    else
      && f.note.Recovered? && (f.note.silentForSec.None? <==> filed[i - 1].at == 0)
      && (f.note.silentForSec.Some? ==> Rounds(f.at - filed[i - 1].at, f.note.silentForSec.value))
  }

  ghost predicate Lively(w: World) {
    var s := w.store;
    && Alternating(w.filed)
    && (s.silent <==> |w.filed| % 2 == 1)
    && (s.silent ==> s.retained.None? && s.since == Some(w.filed[|w.filed| - 1].at))
    && (s.retained.Some? <==> s.alarm.Some?)
    && (s.retained.Some? ==> s.alarm.value == s.retained.value.expiresAt)
    && (w.published.None? ==> s.retained.None? && !s.silent)
    && (w.published.Some? ==> s.retained.Some? != s.silent)
    && (s.retained.Some? ==>
          && s.retained.value.envelope == w.published.value.envelope
          && s.retained.value.updatedAt == w.published.value.at
          && s.retained.value.expiresAt == w.published.value.at + w.published.value.ttl * 1000)
    && (s.silent ==> w.published.value.at + w.published.value.ttl * 1000 <= w.clock)
  }

  lemma TurnTaken(filed: seq<Filed>, next: Filed)
    requires Alternating(filed) && Turn(filed + [next], |filed|)
    ensures Alternating(filed + [next])
  {
    forall i | 0 <= i < |filed| ensures Turn(filed + [next], i) {
      assert Turn(filed, i);
    }
  }

  lemma StepLively(w: World, e: Event)
    requires Lively(w) && Enabled(w, e)
    ensures Lively(Step(w, e))
  {
    var v := Step(w, e);
    if v.filed != w.filed {
      TurnTaken(w.filed, v.filed[|w.filed|]);
    }
  }

  /**
    In every run: the notes alternate strictly, starting with silence; each silence
    comes at least a TTL after the last publish; a silent topic retains nothing; a
    value is retained exactly while an alarm is pending, and the alarm is its expiry;
    and a topic that was ever published is either retained or silent, never neither.
  */
  lemma {:induction false} LivenessAlternates(w: World, es: seq<Event>)
    requires Lively(w) && Legal(w, es)
    ensures Lively(Run(w, es))
    decreases |es|
  {
    if es != [] {
      StepLively(w, es[0]);
      LivenessAlternates(Step(w, es[0]), es[1..]);
    }
  }

  // ---- the retained value ----

  /** The last publish among the events, read off the events and the clock alone. */
  function LastPublish(es: seq<Event>, clock: int, last: Option<Published>): Option<Published>
    decreases |es|
  {
    if es == [] then last
    else
      match es[0]
      case Tick(to) => LastPublish(es[1..], to, last)
      case Publishes(envelope, ttl) => LastPublish(es[1..], clock, Some(Published(clock, ttl, envelope)))
      case Appends(_) => LastPublish(es[1..], clock, last)
      case Fires => LastPublish(es[1..], clock, last)
  }

  lemma {:induction false} PublishedIsLast(w: World, es: seq<Event>)
    requires Legal(w, es)
    ensures Run(w, es).published == LastPublish(es, w.clock, w.published)
    decreases |es|
  {
    if es != [] {
      PublishedIsLast(Step(w, es[0]), es[1..]);
    }
  }

  /**
    In every run: a reader gets the last publish, with its time and its expiry, until a
    TTL after it, and nothing from then on, whether or not the alarm has run; and what is
    retained at all is that publish.
  */
  lemma ReadsTheLastPublish(clock: int, es: seq<Event>)
    requires Legal(Start(clock), es)
    ensures var w, last := Run(Start(clock), es), LastPublish(es, clock, None);
            && (w.store.retained.Some? ==> last.Some? && w.store.retained.value.envelope == last.value.envelope)
            && Live(w.store, w.clock) ==
               if last.Some? && w.clock < last.value.at + last.value.ttl * 1000
               then Some(Retained(last.value.envelope, last.value.at + last.value.ttl * 1000, last.value.at)) else None
  {
    LivenessAlternates(Start(clock), es);
    PublishedIsLast(Start(clock), es);
  }

  // ---- the capped stream ----

  /** An unbounded log: entry i carries id i + 1. */
  ghost predicate Numbered(log: seq<Entry>) {
    forall i :: 0 <= i < |log| ==> log[i].id == i + 1
  }

  function Oldest(k: nat): nat {
    if k <= STREAM_CAP then 0 else k - STREAM_CAP
  }

  /** The table holds the last thousand entries of the log, in order, and nothing else. */
  ghost predicate Caps(s: Store, log: seq<Entry>) {
    Numbered(log) && s.nextId == |log| + 1 && s.stream == log[Oldest(|log|)..]
  }

  lemma {:induction false} TrimDrops(log: seq<Entry>, lo: nat, cutoff: nat)
    requires Numbered(log) && lo <= cutoff <= |log|
    ensures Trim(log[lo..], cutoff) == log[cutoff..]
    decreases |log| - lo
  {
    var rows := log[lo..];
    if lo < cutoff {
      assert rows[0] == log[lo] && rows[1..] == log[lo + 1..];
      TrimDrops(log, lo + 1, cutoff);
    } else {
      TrimKeeps(log, lo, cutoff);
    }
  }

  lemma {:induction false} TrimKeeps(log: seq<Entry>, lo: nat, cutoff: int)
    requires Numbered(log) && cutoff <= lo <= |log|
    ensures Trim(log[lo..], cutoff) == log[lo..]
    decreases |log| - lo
  {
    var rows := log[lo..];
    if rows != [] {
      assert rows[0] == log[lo] && rows[1..] == log[lo + 1..];
      TrimKeeps(log, lo + 1, cutoff);
      assert rows == [log[lo]] + log[lo + 1..];
    }
  }

  lemma NumberedGrows(log: seq<Entry>, next: Entry)
    requires Numbered(log) && next.id == |log| + 1
    ensures Numbered(log + [next])
  {}

  lemma SliceGrows<T>(log: seq<T>, lo: nat, x: T)
    requires lo <= |log|
    ensures log[lo..] + [x] == (log + [x])[lo..]
  {}

  /** Appending and trimming by id refines appending to the unbounded log. */
  lemma AppendCaps(s: Store, log: seq<Entry>, envelope: string, now: int)
    requires Caps(s, log)
    ensures Caps(AfterEvent(s, envelope, now), log + [Entry(s.nextId, envelope, now)])
  {
    var next := Entry(s.nextId, envelope, now);
    var log2 := log + [next];
    SliceGrows(log, Oldest(|log|), next);
    NumberedGrows(log, next);
    if s.nextId >= STREAM_CAP {
      TrimDrops(log2, Oldest(|log|), s.nextId - STREAM_CAP);
    } else {
      TrimKeeps(log2, Oldest(|log|), s.nextId - STREAM_CAP);
    }
  }

  /** The log a run appends, with the clock it saw. */
  function LogOf(w: World, es: seq<Event>): seq<Entry>
    requires Legal(w, es)
    decreases |es|
  {
    if es == [] then []
    else (if es[0].Appends? then [Entry(w.store.nextId, es[0].envelope, w.clock)] else []) +
         LogOf(Step(w, es[0]), es[1..])
  }

  /** The ids of a stream after k events. */
  predicate HasIds(rows: seq<Entry>, k: nat) {
    |rows| == Min(k, STREAM_CAP) && forall i :: 0 <= i < |rows| ==> rows[i].id == Max(1, k - 999) + i
  }

  lemma CapsHasIds(s: Store, log: seq<Entry>)
    requires Caps(s, log)
    ensures HasIds(s.stream, |log|)
  {}

  /** After any run the table is the tail of everything ever appended: ids max(1, k - 999) to k, in order. */
  lemma {:induction false} StreamIsTheTail(w: World, log: seq<Entry>, es: seq<Event>)
    requires Caps(w.store, log) && Legal(w, es)
    ensures Caps(Run(w, es).store, log + LogOf(w, es))
    ensures HasIds(Run(w, es).store.stream, |log + LogOf(w, es)|)
    decreases |es|
  {
    if es == [] {
      assert log + LogOf(w, es) == log;
      CapsHasIds(w.store, log);
    } else {
      var more := if es[0].Appends? then [Entry(w.store.nextId, es[0].envelope, w.clock)] else [];
      if es[0].Appends? {
        AppendCaps(w.store, log, es[0].envelope, w.clock);
      } else {
        assert log + more == log;
      }
      StreamIsTheTail(Step(w, es[0]), log + more, es[1..]);
      Associate(log, more, LogOf(Step(w, es[0]), es[1..]));
    }
  }

  // ---- paging ----

  /** Where a page after `since` starts in the log: never before the oldest entry still kept. */
  function PageStart(k: nat, since: int): nat {
    Max(Oldest(k), Min(since, k))
  }

  lemma {:induction false} PageSkips(log: seq<Entry>, lo: nat, since: int, n: nat)
    requires Numbered(log) && lo <= |log|
    ensures var a := Max(lo, Min(since, |log|)); Page(log[lo..], since, n) == log[a..Min(a + n, |log|)]
    decreases |log| - lo
  {
    var rows := log[lo..];
    if rows != [] && n > 0 {
      assert rows[0] == log[lo] && rows[1..] == log[lo + 1..];
      if lo + 1 > since {
        PageSkips(log, lo + 1, since, n - 1);
        PageTakes(rows, since, n);
        FirstOfStretch(log, lo, Min(lo + n, |log|));
        assert Max(lo, Min(since, |log|)) == lo && Max(lo + 1, Min(since, |log|)) == lo + 1;
      } else {
        PageSkips(log, lo + 1, since, n);
        assert Page(rows, since, n) == Page(rows[1..], since, n);
        assert Max(lo, Min(since, |log|)) == Max(lo + 1, Min(since, |log|));
      }
    }
  }

  lemma PageTakes(rows: seq<Entry>, since: int, n: nat)
    requires rows != [] && n > 0 && rows[0].id > since
    ensures Page(rows, since, n) == [rows[0]] + Page(rows[1..], since, n - 1)
  {}

  lemma FirstOfStretch(log: seq<Entry>, lo: nat, hi: nat)
    requires lo < hi <= |log|
    ensures log[lo..hi] == [log[lo]] + log[lo + 1..hi]
  {}

  /** A page is a contiguous stretch of the log; it follows on from `since` exactly if nothing after it was trimmed. */
  lemma PageIsAStretch(s: Store, log: seq<Entry>, since: nat, limit: int)
    requires Caps(s, log) && since <= |log|
    ensures var a := PageStart(|log|, since);
            && Page(s.stream, since, Capped(limit)) == log[a..Min(a + Capped(limit), |log|)]
            && (a == since <==> Oldest(|log|) <= since)
  {
    PageSkips(log, Oldest(|log|), since, Capped(limit));
  }

  datatype Reading = Write(envelope: string, now: int) | Read(limit: int)

  datatype Reader = Reader(store: Store, log: seq<Entry>, cursor: nat, got: seq<Entry>)

  function ReadStep(r: Reader, a: Reading): Reader {
    match a
    case Write(envelope, now) =>
      r.(store := AfterEvent(r.store, envelope, now), log := r.log + [Entry(r.store.nextId, envelope, now)])
    case Read(limit) =>
      var page := Page(r.store.stream, r.cursor, Capped(limit));
      r.(got := r.got + page, cursor := if page == [] then r.cursor else page[|page| - 1].id)
  }

  /** The reader never falls more than the cap behind when it reads. */
  predicate KeepsUp(r: Reader, acts: seq<Reading>)
    decreases |acts|
  {
    acts == [] ||
    (&& (acts[0].Read? ==> Oldest(|r.log|) <= r.cursor)
     && KeepsUp(ReadStep(r, acts[0]), acts[1..]))
  }

  function ReadRun(r: Reader, acts: seq<Reading>): Reader
    decreases |acts|
  {
    if acts == [] then r else ReadRun(ReadStep(r, acts[0]), acts[1..])
  }

  ghost predicate UpToDate(r: Reader, from: nat) {
    Caps(r.store, r.log) && from <= r.cursor <= |r.log| && r.got == r.log[from..r.cursor]
  }

  /** Reading on by the last id seen: the next page starts where the last one ended and makes progress. */
  lemma ReadAdvances(r: Reader, limit: int, from: nat)
    requires UpToDate(r, from) && Oldest(|r.log|) <= r.cursor
    ensures var r2 := ReadStep(r, Read(limit));
            UpToDate(r2, from) && r2.cursor == Min(r.cursor + Capped(limit), |r.log|)
  {
    var end := ReadTakes(r, limit);
    Stretches(r.log, from, r.cursor, end);
  }

  /** One read takes the next stretch of the log and moves the cursor to its end. */
  lemma ReadTakes(r: Reader, limit: int) returns (end: nat)
    requires Caps(r.store, r.log) && r.cursor <= |r.log|
    ensures end == Min(PageStart(|r.log|, r.cursor) + Capped(limit), |r.log|)
    ensures var a, r2 := PageStart(|r.log|, r.cursor), ReadStep(r, Read(limit));
            && a <= end
            && r2 == r.(got := r.got + r.log[a..end], cursor := if a < |r.log| then end else r.cursor)
  {
    PageIsAStretch(r.store, r.log, r.cursor, limit);
    var a := PageStart(|r.log|, r.cursor);
    end := Min(a + Capped(limit), |r.log|);
    if a < |r.log| {
      LastOfStretch(r.log, a, end);
    } else {
      assert r.log[a..end] == [];
    }
  }

  lemma LastOfStretch(log: seq<Entry>, a: nat, end: nat)
    requires Numbered(log) && a < end <= |log|
    ensures log[a..end] != [] && log[a..end][end - a - 1].id == end
  {}

  lemma Stretches<T>(log: seq<T>, a: nat, b: nat, c: nat)
    requires a <= b <= c <= |log|
    ensures log[a..c] == log[a..b] + log[b..c]
  {}

  /**
    Paging by the last id seen, with any limits and with appends in between,
    returns every entry once, in order and without a gap, for a reader that keeps up.
  */
  lemma {:induction false} PagingIsExact(r: Reader, acts: seq<Reading>, from: nat)
    requires UpToDate(r, from) && KeepsUp(r, acts)
    ensures UpToDate(ReadRun(r, acts), from)
    decreases |acts|
  {
    if acts != [] {
      match acts[0] {
        case Write(envelope, now) =>
          AppendCaps(r.store, r.log, envelope, now);
          var log2 := r.log + [Entry(r.store.nextId, envelope, now)];
          assert log2[from..r.cursor] == r.log[from..r.cursor];
        case Read(limit) =>
          ReadAdvances(r, limit, from);
      }
      PagingIsExact(ReadStep(r, acts[0]), acts[1..], from);
    }
  }

  function Reads(limits: seq<int>): seq<Reading> {
    seq(|limits|, i requires 0 <= i < |limits| => Read(limits[i]))
  }

  /**
    With no appends in between, from any cursor and for any limits at all: as many
    reads as there are entries left return every entry still kept after the cursor,
    once and in order.
  */
  lemma {:induction false} PagingReturnsAllRetained(r: Reader, limits: seq<int>)
    requires Caps(r.store, r.log) && r.cursor <= |r.log|
    requires |limits| >= |r.log| - PageStart(|r.log|, r.cursor)
    ensures ReadRun(r, Reads(limits)).got == r.got + r.log[PageStart(|r.log|, r.cursor)..]
    decreases |limits|
  {
    if limits == [] {
      assert r.log[PageStart(|r.log|, r.cursor)..] == [];
    } else {
      var r2 := ReadStep(r, Read(limits[0]));
      ReadFrom(r, limits[0]);
      PagingReturnsAllRetained(r2, limits[1..]);
      assert Reads(limits)[1..] == Reads(limits[1..]);
    }
  }

  lemma ReadFrom(r: Reader, limit: int)
    requires Caps(r.store, r.log) && r.cursor <= |r.log|
    ensures var a, r2 := PageStart(|r.log|, r.cursor), ReadStep(r, Read(limit));
            && Caps(r2.store, r2.log) && r2.log == r.log && r2.cursor <= |r.log|
            && (a < |r.log| ==> PageStart(|r.log|, r2.cursor) > a)
            && r.got + r.log[a..] == r2.got + r.log[PageStart(|r.log|, r2.cursor)..]
  {
    var log, a := r.log, PageStart(|r.log|, r.cursor);
    var end := ReadTakes(r, limit);
    Joins(r.got, log, a, end);
    if a < |log| {
      assert PageStart(|log|, end) == end;
    } else {
      assert end == a == PageStart(|log|, r.cursor);
    }
  }

  lemma Joins<T>(got: seq<T>, log: seq<T>, a: nat, b: nat)
    requires a <= b <= |log|
    ensures got + log[a..] == got + log[a..b] + log[b..]
  {}
}
