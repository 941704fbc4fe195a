/**
  One topic of the fleet bus (workers/fleet-bus/src/topic.js): a retained last
  value whose expiry is the silence signal, and a capped event stream.

  Times are milliseconds, TTLs seconds. Each method changes the tables in one
  synchronous stretch and only then waits for its subscribers, so it sees one
  clock reading and nothing interleaves with its changes.
*/
module Topic {
  import opened Prelude

  const STREAM_CAP: nat := 1000

  datatype Retained = Retained(envelope: string, expiresAt: int, updatedAt: int)

  datatype Entry = Entry(id: nat, envelope: string, ts: int)

  datatype Note =
    | Silent(lastSeenSec: int)
    | Recovered(silentForSec: Option<int>)
    | Happened(id: nat)

  datatype Store = Store(
    retained: Option<Retained>,
    stream: seq<Entry>,
    nextId: nat,
    silent: bool,
    since: Option<int>,
    alarm: Option<int>)

  const EMPTY_STORE := Store(None, [], 1, false, None, None)

  /** sec is ms in whole seconds, halves rounded up. */
  predicate Rounds(ms: int, sec: int) {
    sec * 1000 - 500 <= ms < sec * 1000 + 500
  }

  /** Math.round of a number of milliseconds over 1000. */
  function RoundSec(ms: int): (sec: int)
    ensures Rounds(ms, sec)
  {
    (ms + 500) / 1000
  }

  function AfterPublish(s: Store, envelope: string, ttl: int, now: int): Store {
    s.(retained := Some(Retained(envelope, now + ttl * 1000, now)),
    alarm := Some(now + ttl * 1000),
    silent := false,
    since := if s.silent then None else s.since)
  }

  function PublishNotes(s: Store, now: int): seq<Note> {
    if !s.silent then []
    else [Recovered(if s.since.Some? && s.since.value != 0 then Some(RoundSec(now - s.since.value)) else None)]
  }

  predicate Expired(s: Store, now: int) {
    s.retained.Some? && s.retained.value.expiresAt <= now
  }

  function AfterAlarm(s: Store, now: int): Store {
    var s := s.(alarm := None);
    if !Expired(s, now) then s
    else if s.silent then s.(retained := None)
    else s.(retained := None, silent := true, since := Some(now))
  }

  function AlarmNotes(s: Store, now: int): seq<Note> {
    if Expired(s, now) && !s.silent then [Silent(RoundSec(now - s.retained.value.updatedAt))] else []
  }

  /** The rows with ids above a cutoff. */
  function Trim(rows: seq<Entry>, cutoff: int): seq<Entry> {
    if rows == [] then []
    else (if rows[0].id <= cutoff then [] else [rows[0]]) + Trim(rows[1..], cutoff)
  }

  lemma {:induction false} TrimIsByCutoff(rows: seq<Entry>, cutoff: int)
    ensures forall e :: e in Trim(rows, cutoff) <==> e in rows && e.id > cutoff
  {
    if rows != [] {
      TrimIsByCutoff(rows[1..], cutoff);
      assert forall e :: e in rows <==> e == rows[0] || e in rows[1..];
    }
  }

  function AfterEvent(s: Store, envelope: string, now: int): Store {
    s.(stream := Trim(s.stream + [Entry(s.nextId, envelope, now)], s.nextId - STREAM_CAP), nextId := s.nextId + 1)
  }

  /** What a reader sees of the retained value; the row outlives it until the alarm runs. */
  function Live(s: Store, now: int): Option<Retained> {
    if Expired(s, now) then None else s.retained
  }

  /** The first n rows with ids above `since`, in the order they are kept. */
  function Page(rows: seq<Entry>, since: int, n: nat): seq<Entry> {
    if rows == [] || n == 0 then []
    else if rows[0].id > since then [rows[0]] + Page(rows[1..], since, n - 1)
    else Page(rows[1..], since, n)
  }

  predicate Ascending(rows: seq<Entry>) {
    forall i, j :: 0 <= i < j < |rows| ==> rows[i].id < rows[j].id
  }

  /** The page of a stream after `since`: at most n rows, ascending, and none skipped. */
  ghost predicate IsPage(page: seq<Entry>, stream: seq<Entry>, since: int, n: nat) {
    && |page| <= n && Ascending(page)
    && (forall e :: e in page ==> e in stream && e.id > since)
    && (forall e :: e in stream && e.id > since && e !in page ==> |page| == n && forall p :: p in page ==> p.id < e.id)
  }

  lemma {:induction false} PageIsPage(rows: seq<Entry>, since: int, n: nat)
    requires Ascending(rows)
    ensures IsPage(Page(rows, since, n), rows, since, n)
  {
    if rows != [] && n > 0 {
      var first, rest := rows[0], rows[1..];
      assert rows == [first] + rest;
      forall e | e in rest ensures first.id < e.id {
        var i :| 0 <= i < |rest| && rest[i] == e;
        assert rows[i + 1] == e;
      }
      if first.id > since {
        PageIsPage(rest, since, n - 1);
        PageFromFirst(first, Page(rest, since, n - 1), rest, since, n);
      } else {
        PageIsPage(rest, since, n);
        PageAfterFirst(first, Page(rest, since, n), rest, since, n);
      }
    }
  }

  lemma PageAfterFirst(first: Entry, page: seq<Entry>, rest: seq<Entry>, since: int, n: nat)
    requires IsPage(page, rest, since, n) && first.id <= since
    ensures IsPage(page, [first] + rest, since, n)
  {
    forall e ensures e in [first] + rest <==> e == first || e in rest {}
  }

  lemma PageFromFirst(first: Entry, page: seq<Entry>, rest: seq<Entry>, since: int, n: nat)
    requires n > 0 && IsPage(page, rest, since, n - 1) && first.id > since
    requires forall e :: e in rest ==> first.id < e.id
    ensures IsPage([first] + page, [first] + rest, since, n)
  {
    forall e ensures e in [first] + page <==> e == first || e in page {}
    forall e ensures e in [first] + rest <==> e == first || e in rest {}
    forall i, j | 0 <= i < j < |[first] + page| ensures ([first] + page)[i].id < ([first] + page)[j].id {
      if i == 0 { assert page[j - 1] in page; }
    }
  }

  /** The page size a reader gets whatever it asked for. */
  function Capped(limit: int): (n: nat)
    ensures 1 <= n <= 1000
    ensures if limit < 1 then n == 1 else if limit > 1000 then n == 1000 else n == limit
  {
    Min(Max(1, limit), STREAM_CAP)
  }

  datatype Stat = Stat(retained: Option<Retained>, streamDepth: nat, silent: bool, silentSince: Option<int>)

  function StatOf(s: Store, now: int): Stat {
    Stat(Live(s, now), |s.stream|, s.silent, s.since)
  }

  /** The topic object. Each method returns the notes it delivers to subscribers. */
  class TopicDO {
    var retained: Option<Retained>
    var stream: seq<Entry>
    var nextId: nat
    var silent: bool
    var since: Option<int>
    var alarmAt: Option<int>

    function View(): Store
      reads this
    {
      Store(retained, stream, nextId, silent, since, alarmAt)
    }

    constructor ()
      ensures View() == EMPTY_STORE
    {
      retained, stream, nextId, silent, since, alarmAt := None, [], 1, false, None, None;
    }

    method PublishRetained(envelope: string, ttl: int, now: int) returns (notes: seq<Note>)
      modifies this
      ensures View() == AfterPublish(old(View()), envelope, ttl, now)
      ensures notes == PublishNotes(old(View()), now)
      ensures retained == Some(Retained(envelope, now + ttl * 1000, now)) && alarmAt == Some(now + ttl * 1000)
      ensures stream == old(stream) && nextId == old(nextId)
      ensures !silent && since == if old(silent) then None else old(since)
      ensures |notes| == (if old(silent) then 1 else 0) && forall note :: note in notes ==> note.Recovered?
      ensures notes != [] && (old(since) == None || old(since) == Some(0)) ==> notes[0].silentForSec == None
      ensures notes != [] && old(since).Some? && old(since).value != 0 ==>
                notes[0].silentForSec.Some? && Rounds(now - old(since).value, notes[0].silentForSec.value)
    {
      retained := Some(Retained(envelope, now + ttl * 1000, now));
      alarmAt := Some(now + ttl * 1000);
      notes := [];
      if silent {
        var silentFor := if since.Some? && since.value != 0 then Some(RoundSec(now - since.value)) else None;
        silent, since := false, None;
        notes := [Recovered(silentFor)];
      }
    }

    method PublishEvent(envelope: string, now: int) returns (notes: seq<Note>)
      modifies this
      ensures View() == AfterEvent(old(View()), envelope, now)
      ensures notes == [Happened(old(nextId))] && nextId == old(nextId) + 1
      ensures forall e :: e in stream <==>
                (e in old(stream) || e == Entry(old(nextId), envelope, now)) && e.id > old(nextId) - 1000
    {
      var id := nextId;
      stream := stream + [Entry(id, envelope, now)];
      nextId := nextId + 1;
      TrimIsByCutoff(stream, id - STREAM_CAP);
      stream := Trim(stream, id - STREAM_CAP);
      notes := [Happened(id)];
    }

    method ReadRetained(now: int) returns (r: Option<Retained>)
      ensures r == Live(View(), now)
      ensures r == if retained.Some? && retained.value.expiresAt > now then retained else None
    {
      r := retained;
      if r.Some? && r.value.expiresAt <= now {
        r := None;
      }
    }

    method ReadStream(from: int, limit: int) returns (rows: seq<Entry>)
      ensures rows == Page(View().stream, from, Capped(limit))
      ensures Ascending(stream) ==> IsPage(rows, stream, from, Capped(limit))
    {
      rows := Page(stream, from, Capped(limit));
      if Ascending(stream) {
        PageIsPage(stream, from, Capped(limit));
      }
    }

    method Health(now: int) returns (stat: Stat)
      ensures stat == StatOf(View(), now)
      ensures stat.retained == if retained.Some? && retained.value.expiresAt > now then retained else None
      ensures stat.streamDepth == |stream| && stat.silent == silent && stat.silentSince == since
    {
      var live := ReadRetained(now);
      stat := Stat(live, |stream|, silent, since);
    }

    /** TTL expiry, and with it the liveness signal. */
    method Alarm(now: int) returns (notes: seq<Note>)
      modifies this
      ensures View() == AfterAlarm(old(View()), now)
      ensures notes == AlarmNotes(old(View()), now)
      ensures alarmAt == None && stream == old(stream) && nextId == old(nextId)
      ensures var over := old(retained).Some? && old(retained).value.expiresAt <= now;
              && retained == (if over then None else old(retained))
              && silent == (over || old(silent))
              && since == (if over && !old(silent) then Some(now) else old(since))
              && |notes| == (if over && !old(silent) then 1 else 0)
              && forall note :: note in notes ==> note.Silent? && Rounds(now - old(retained).value.updatedAt,
                    note.lastSeenSec)
    {
      alarmAt := None; // the platform empties the slot when it fires
      notes := [];
      if retained.None? || retained.value.expiresAt > now {
        return;
      }
      var row := retained.value;
      retained := None;
      if silent {
        return; // this outage has had its note
      }
      silent, since := true, Some(now);
      notes := [Silent(RoundSec(now - row.updatedAt))];
    }
  }
}
