/**
  What a history of collector runs leaves behind: reading in instalments equals reading
  once, and runs that die on the way leave no trace once a run succeeds.
*/
module TranscriptRuns {
  import opened Prelude
  import opened Transcript

  // ---- instalments of one text ----

  /** Ends on a line boundary. */
  predicate Whole(s: string) {
    s == "" || s[|s| - 1] == '\n'
  }

  lemma {:induction false} LineEndOfConcat(a: string, b: string)
    requires a != "" && (Whole(a) || LineEnd(a) < |a|)
    ensures LineEnd(a + b) == LineEnd(a)
  {
    if a[0] == '\n' || |a| == 1 {
      assert (a + b)[0] == a[0];
    } else {
      assert (a + b)[1..] == a[1..] + b;
      assert a[1..][|a[1..]| - 1] == a[|a| - 1];
      LineEndOfConcat(a[1..], b);
    }
  }

  lemma NextLine(s: string, line: string, rest: string)
    requires line != "" && s == line + rest && LineEnd(s) == |line|
    ensures Lines(s) == [line] + Lines(rest)
  {
    assert s[..|line|] == line && s[|line|..] == rest;
  }

  lemma WholeRest(line: string, rest: string)
    requires Whole(line + rest)
    ensures Whole(rest)
  {
    if rest != "" { assert rest[|rest| - 1] == (line + rest)[|line + rest| - 1]; }
  }

  lemma {:induction false} LinesOfConcat(a: string, b: string)
    requires Whole(a)
    ensures Lines(a + b) == Lines(a) + Lines(b)
    decreases |a|
  {
    if a == "" {
      assert a + b == b;
    } else {
      LineEndOfConcat(a, b);
      var k := LineEnd(a);
      var line, rest := a[..k], a[k..];
      assert a == line + rest;
      Associate(line, rest, b);
      WholeRest(line, rest);
      LinesOfConcat(rest, b);
      Associate([line], Lines(rest), Lines(b));
      NextLine(a, line, rest);
      NextLine(a + b, line, rest + b);
    }
  }

  lemma PointsOfConcat(parse: Parser, a: string, b: string)
    requires Whole(a)
    ensures Points(parse, a + b) == Points(parse, a) + Points(parse, b)
  {
    LinesOfConcat(a, b);
    ParseAllOfConcat(parse, Lines(a), Lines(b));
  }

  function Flatten(lines: seq<string>): string {
    if lines == [] then "" else lines[0] + Flatten(lines[1..])
  }

  /** Not empty, and no newline but at its end. */
  predicate IsLine(s: string) {
    s != "" && '\n' !in s[..|s| - 1]
  }

  /** Lines cut a text into pieces that each end at their only newline, the last one excepted, and lose nothing. */
  lemma {:induction false} LinesRoundTrip(s: string)
    ensures Flatten(Lines(s)) == s
    ensures forall i :: 0 <= i < |Lines(s)| ==> IsLine(Lines(s)[i]) && (i < |Lines(s)| - 1 ==> Whole(Lines(s)[i]))
    decreases |s|
  {
    if s != "" {
      var line, rest := s[..LineEnd(s)], s[LineEnd(s)..];
      LineEndIsFirst(s);
      LinesRoundTrip(rest);
      assert s == line + rest;
      NextLine(s, line, rest);
      assert IsLine(line) && (rest != "" ==> Whole(line));
      forall i | 0 <= i < |Lines(s)| ensures IsLine(Lines(s)[i]) && (i < |Lines(s)| - 1 ==> Whole(Lines(s)[i])) {
        assert Lines(s)[i] == if i == 0 then line else Lines(rest)[i - 1];
        assert |Lines(s)| == 1 + |Lines(rest)|;
      }
    }
  }

  lemma {:induction false} LineEndIsFirst(s: string)
    requires s != ""
    ensures '\n' !in s[..LineEnd(s) - 1]
    ensures LineEnd(s) < |s| ==> s[LineEnd(s) - 1] == '\n'
  {
    if s[0] != '\n' && |s| > 1 {
      LineEndIsFirst(s[1..]);
      assert s[..LineEnd(s) - 1] == [s[0]] + s[1..][..LineEnd(s[1..]) - 1];
    }
  }

  // ---- what the cursor stands for ----

  function Text(files: map<string, string>, path: string): string {
    if path in files then files[path] else ""
  }

  /** Append-only: every file of f is still there, possibly longer. */
  ghost predicate Grown(f: map<string, string>, g: map<string, string>) {
    forall p :: Text(f, p) <= Text(g, p)
  }

  ghost predicate AllWhole(files: map<string, string>) {
    forall p :: Whole(Text(files, p))
  }

  predicate Complete(snap: Snapshot) {
    forall p :: p in snap.files ==> p in snap.paths
  }

  /** Everything in f, and nothing else, has been read. */
  ghost predicate Synced(cursor: Cursor, f: map<string, string>) {
    forall p :: At(cursor, p) == |Text(f, p)|
  }

  lemma {:induction false} AdvanceAt(cursor: Cursor, files: map<string, string>, paths: seq<string>, p: string)
    ensures At(Advance(cursor, files, paths), p)
         == if p in paths && p in files then |files[p]| else At(cursor, p)
    decreases |paths|
  {
    if paths != [] {
      var n := |paths| - 1;
      AdvanceAt(cursor, files, paths[..n], p);
      assert p in paths <==> p in paths[..n] || p == paths[n];
    }
  }

  lemma StaysSynced(cursor: Cursor, f: map<string, string>, snap: Snapshot)
    requires Synced(cursor, f) && Grown(f, snap.files) && Complete(snap)
    ensures Synced(AfterScan(cursor, snap), snap.files)
  {
    forall p ensures At(AfterScan(cursor, snap), p) == |Text(snap.files, p)| {
      AdvanceAt(cursor, snap.files, snap.paths, p);
      assert Text(f, p) <= Text(snap.files, p);
    }
  }

  /** One more instalment: what was read before, then what the scan reads, is the whole file. */
  lemma Instalment(parse: Parser, cursor: Cursor, f: map<string, string>, g: map<string, string>, p: string)
    requires Synced(cursor, f) && Grown(f, g) && AllWhole(f)
    ensures Points(parse, Text(g, p)) == Points(parse, Text(f, p)) + Fresh(parse, cursor, g, p)
  {
    var before, after := Text(f, p), Text(g, p);
    assert before <= after && Whole(before) && At(cursor, p) == |before|;
    var rest := after[|before|..];
    assert after == before + rest;
    PointsOfConcat(parse, before, rest);
    if p !in g {
      assert rest == "";
    }
  }

  /** And what is still unread only grows at its end. */
  lemma UnreadGrows(parse: Parser, cursor: Cursor, f: map<string, string>, g: map<string, string>,
                    h: map<string, string>, p: string)
    requires Synced(cursor, f) && Grown(f, g) && Grown(g, h) && AllWhole(f) && AllWhole(g)
    ensures exists more :: Fresh(parse, cursor, h, p) == Fresh(parse, cursor, g, p) + more
  {
    assert Text(f, p) <= Text(g, p) <= Text(h, p);
    assert At(cursor, p) == |Text(f, p)| && Whole(Text(f, p)) && Whole(Text(g, p));
    var n := |Text(f, p)|;
    var a, b := Text(g, p)[n..], Text(h, p)[|Text(g, p)|..];
    assert Text(h, p)[n..] == a + b;
    assert Whole(a) by { if a != "" { assert a[|a| - 1] == Text(g, p)[|Text(g, p)| - 1]; } }
    PointsOfConcat(parse, a, b);
    assert Fresh(parse, cursor, g, p) == Points(parse, a);
    assert Fresh(parse, cursor, h, p) == Points(parse, a) + Points(parse, b);
  }

  // ---- scans in a row ----

  ghost predicate AppendOnly(f: map<string, string>, snaps: seq<Snapshot>)
    decreases |snaps|
  {
    snaps == [] ||
    (&& Complete(snaps[0]) && Grown(f, snaps[0].files) && AllWhole(snaps[0].files)
     && AppendOnly(snaps[0].files, snaps[1..]))
  }

  function Final(f: map<string, string>, snaps: seq<Snapshot>): map<string, string> {
    if snaps == [] then f else snaps[|snaps| - 1].files
  }

  /** All that a row of scans reads from one path, in order. */
  function ReadOver(parse: Parser, cursor: Cursor, snaps: seq<Snapshot>, p: string): seq<Point>
    decreases |snaps|
  {
    if snaps == [] then []
    else Fresh(parse, cursor, snaps[0].files, p) + ReadOver(parse, AfterScan(cursor, snaps[0]), snaps[1..], p)
  }

  lemma {:induction false} InstalmentsAddUp(
      parse: Parser, cursor: Cursor, f: map<string, string>, snaps: seq<Snapshot>, p: string)
    requires Synced(cursor, f) && AllWhole(f) && AppendOnly(f, snaps)
    ensures Points(parse, Text(f, p)) + ReadOver(parse, cursor, snaps, p) == Points(parse, Text(Final(f, snaps), p))
    decreases |snaps|
  {
    if snaps == [] {
      assert Points(parse, Text(f, p)) + [] == Points(parse, Text(f, p));
    } else {
      var g, after := snaps[0].files, AfterScan(cursor, snaps[0]);
      OneScan(parse, cursor, f, snaps, p);
      InstalmentsAddUp(parse, after, g, snaps[1..], p);
      AddUp(Points(parse, Text(f, p)), Fresh(parse, cursor, g, p), Points(parse, Text(g, p)),
            ReadOver(parse, after, snaps[1..], p), Points(parse, Text(Final(f, snaps), p)));
    }
  }

  lemma OneScan(parse: Parser, cursor: Cursor, f: map<string, string>, snaps: seq<Snapshot>, p: string)
    requires Synced(cursor, f) && AllWhole(f) && snaps != [] && AppendOnly(f, snaps)
    ensures var g := snaps[0].files;
            && Synced(AfterScan(cursor, snaps[0]), g) && AllWhole(g) && AppendOnly(g, snaps[1..])
            && Final(f, snaps) == Final(g, snaps[1..])
            && Points(parse, Text(g, p)) == Points(parse, Text(f, p)) + Fresh(parse, cursor, g, p)
  {
    StaysSynced(cursor, f, snaps[0]);
    Instalment(parse, cursor, f, snaps[0].files, p);
  }

  lemma AddUp<T>(before: seq<T>, now: seq<T>, after: seq<T>, rest: seq<T>, total: seq<T>)
    requires after == before + now && after + rest == total
    ensures before + (now + rest) == total
  {
    Associate(before, now, rest);
  }

  /** The outputs of any row of scans concatenate, file by file, to the output of one full re-read. */
  lemma IncrementalEqualsBatch(parse: Parser, snaps: seq<Snapshot>, p: string)
    requires AppendOnly(map[], snaps)
    ensures ReadOver(parse, map[], snaps, p) == Fresh(parse, map[], Final(map[], snaps), p)
  {
    InstalmentsAddUp(parse, map[], map[], snaps, p);
    FullRead(parse, Final(map[], snaps), p);
    assert [] + ReadOver(parse, map[], snaps, p) == ReadOver(parse, map[], snaps, p);
  }

  lemma FullRead(parse: Parser, files: map<string, string>, p: string)
    ensures Fresh(parse, map[], files, p) == Points(parse, Text(files, p))
  {
    assert Text(files, p)[0..] == Text(files, p);
  }

  /** A rewritten file is read again from the top exactly if it is shorter than the cursor. */
  lemma RewriteIsNoticedIfShorter(text: string, at: nat)
    ensures Unread(text, at) == text <==> at == 0 || at > |text|
  {
    assert |Unread(text, at)| == |text| - Start(at, |text|);
    assert text[0..] == text;
  }

  // ---- the stored points ----

  function Lookup(db: Db, k: (string, int)): Option<string> {
    if k in db then Some(db[k]) else None
  }

  /** The fields of the last point with key k. */
  function Valued(points: seq<Point>, k: (string, int)): Option<string> {
    if points == [] then None
    else
      var n := |points| - 1;
      if points[n].key == k then Some(points[n].fields) else Valued(points[..n], k)
  }

  /** Applying points is last-write-wins. */
  lemma {:induction false} LastWriteWins(db: Db, points: seq<Point>, k: (string, int))
    ensures Lookup(Apply(db, points), k) == if Valued(points, k).Some? then Valued(points, k) else Lookup(db, k)
    decreases |points|
  {
    if points != [] {
      LastWriteWins(db, points[..|points| - 1], k);
    }
  }

  lemma {:induction false} ValuedOfConcat(a: seq<Point>, b: seq<Point>, k: (string, int))
    ensures Valued(a + b, k) == if Valued(b, k).Some? then Valued(b, k) else Valued(a, k)
    decreases |b|
  {
    if b == [] {
      assert a + b == a;
    } else {
      assert (a + b)[..|a + b| - 1] == a + b[..|b| - 1];
      ValuedOfConcat(a, b[..|b| - 1], k);
    }
  }

  lemma {:induction false} ValuedInGather(parse: Parser, cursor: Cursor, files: map<string, string>,
                                          paths: seq<string>, k: (string, int))
    ensures var all := Valued(Gather(parse, cursor, files, paths), k);
            && (all.Some? ==> exists p :: p in paths && Valued(Fresh(parse, cursor, files, p), k) == all)
            && (all.None? ==> forall p :: p in paths ==> Valued(Fresh(parse, cursor, files, p), k).None?)
    decreases |paths|
  {
    if paths != [] {
      var n := |paths| - 1;
      ValuedInGather(parse, cursor, files, paths[..n], k);
      ValuedOfConcat(Gather(parse, cursor, files, paths[..n]), Fresh(parse, cursor, files, paths[n]), k);
      assert forall p :: p in paths <==> p in paths[..n] || p == paths[n];
    }
  }

  // ---- runs that may die ----

  /**
    A run finishes, or dies after n of its points were stored and before the cursor was
    saved, or dies while saving it: the file was truncated, and what was written of it
    reads as an empty cursor.
  */
  datatype Fate = Finished | Died(n: nat) | CursorLost

  datatype Event = Event(snap: Snapshot, fate: Fate)

  datatype World = World(cursor: Cursor, db: Db)

  /** Collector.Run with its outcome as the event's fate. */
  function Step(parse: Parser, w: World, e: Event): World {
    var points := Scanned(parse, w.cursor, e.snap);
    match e.fate
    case Finished => World(AfterScan(w.cursor, e.snap), Apply(w.db, points))
    case Died(n) => w.(db := Apply(w.db, points[..Min(n, |points|)]))
    case CursorLost => World(map[], Apply(w.db, points))
  }

  /** What the fates have in common: the points are stored before the cursor is touched. */
  lemma FatesAgree(parse: Parser, w: World, snap: Snapshot, n: nat)
    ensures var done, died := Step(parse, w, Event(snap, Finished)), Step(parse, w, Event(snap, Died(n)));
            && Step(parse, w, Event(snap, CursorLost)) == done.(cursor := map[])
            && died.cursor == w.cursor
            && (n >= |Scanned(parse, w.cursor, snap)| ==> died.db == done.db) && (n == 0 ==> died == w)
  {
    var points := Scanned(parse, w.cursor, snap);
    assert points[..|points|] == points;
  }

  function Runs(parse: Parser, w: World, es: seq<Event>): World
    decreases |es|
  {
    if es == [] then w else Runs(parse, Step(parse, w, es[0]), es[1..])
  }

  function Finishes(es: seq<Event>): seq<Event> {
    if es == [] then [] else (if es[0].fate.Finished? then [es[0]] else []) + Finishes(es[1..])
  }

  /** No run of the history lost its cursor. */
  predicate CursorKept(es: seq<Event>) {
    es == [] || (!es[0].fate.CursorLost? && CursorKept(es[1..]))
  }

  function Snaps(es: seq<Event>): seq<Snapshot> {
    seq(|es|, i requires 0 <= i < |es| => es[i].snap)
  }

  /** w and v agree except on keys that are still to be read. */
  ghost predicate OnlyUnread(parse: Parser, w: World, v: World, disk: map<string, string>) {
    && w.cursor == v.cursor
    && forall k :: Lookup(w.db, k) != Lookup(v.db, k) ==>
         exists p :: Valued(Fresh(parse, w.cursor, disk, p), k).Some?
  }

  lemma DeathWritesOnlyUnread(parse: Parser, w: World, v: World, f: map<string, string>, disk: map<string,
                              string>, e: Event)
    requires Synced(w.cursor, f) && Grown(f, disk) && Grown(disk, e.snap.files) && AllWhole(f) && AllWhole(disk)
    requires OnlyUnread(parse, w, v, disk) && e.fate.Died?
    ensures OnlyUnread(parse, Step(parse, w, e), v, e.snap.files)
  {
    var points := Scanned(parse, w.cursor, e.snap);
    var part := points[..Min(e.fate.n, |points|)];
    var after := Step(parse, w, e);
    forall k | Lookup(after.db, k) != Lookup(v.db, k)
      ensures exists p :: Valued(Fresh(parse, w.cursor, e.snap.files, p), k).Some?
    {
      LastWriteWins(w.db, part, k);
      if Valued(part, k).Some? {
        ValuedOfConcat(part, points[|part|..], k);
        assert points == part + points[|part|..];
        ValuedInGather(parse, w.cursor, e.snap.files, e.snap.paths, k);
      } else {
        var p :| Valued(Fresh(parse, w.cursor, disk, p), k).Some?;
        UnreadGrows(parse, w.cursor, f, disk, e.snap.files, p);
        var more :| Fresh(parse, w.cursor, e.snap.files, p) == Fresh(parse, w.cursor, disk, p) + more;
        ValuedOfConcat(Fresh(parse, w.cursor, disk, p), more, k);
      }
    }
  }

  lemma FinishMendsAll(parse: Parser, w: World, v: World, f: map<string, string>, disk: map<string, string>, e: Event)
    requires Synced(w.cursor, f) && Grown(f, disk) && Grown(disk, e.snap.files) && AllWhole(f) && AllWhole(disk)
    requires Complete(e.snap) && OnlyUnread(parse, w, v, disk) && e.fate.Finished?
    ensures Step(parse, w, e) == Step(parse, v, e)
  {
    var points := Scanned(parse, w.cursor, e.snap);
    var a, b := Apply(w.db, points), Apply(v.db, points);
    forall k ensures Lookup(a, k) == Lookup(b, k) {
      LastWriteWins(w.db, points, k);
      LastWriteWins(v.db, points, k);
      if Valued(points, k).None? && Lookup(w.db, k) != Lookup(v.db, k) {
        var p :| Valued(Fresh(parse, w.cursor, disk, p), k).Some?;
        UnreadGrows(parse, w.cursor, f, disk, e.snap.files, p);
        var more :| Fresh(parse, w.cursor, e.snap.files, p) == Fresh(parse, w.cursor, disk, p) + more;
        ValuedOfConcat(Fresh(parse, w.cursor, disk, p), more, k);
        ValuedInGather(parse, w.cursor, e.snap.files, e.snap.paths, k);
        assert false;
      }
    }
    SameLookups(a, b);
  }

  lemma SameLookups(a: Db, b: Db)
    requires forall k :: Lookup(a, k) == Lookup(b, k)
    ensures a == b
  {
    forall k ensures (k in a <==> k in b) && (k in a ==> a[k] == b[k]) {
      assert Lookup(a, k) == Lookup(b, k);
    }
  }

  lemma {:induction false} MendedAtTheEnd(parse: Parser, w: World, v: World, f: map<string, string>,
                                          disk: map<string, string>, es: seq<Event>)
    requires Synced(w.cursor, f) && Grown(f, disk) && AllWhole(f) && AllWhole(disk)
    requires AppendOnly(disk, Snaps(es)) && OnlyUnread(parse, w, v, disk)
    requires es != [] && es[|es| - 1].fate.Finished? && CursorKept(es)
    ensures Runs(parse, w, es) == Runs(parse, v, Finishes(es))
    decreases |es|
  {
    var e, rest := es[0], es[1..];
    assert Snaps(es)[1..] == Snaps(rest);
    assert Snaps(es)[0] == e.snap;
    GrownTwice(f, disk, e.snap.files);
    if e.fate.Finished? {
      FinishMendsAll(parse, w, v, f, disk, e);
      StaysSynced(w.cursor, f, e.snap);
      assert Finishes(es) == [e] + Finishes(rest);
      assert Finishes(es)[1..] == Finishes(rest);
      if rest != [] {
        MendedAtTheEnd(parse, Step(parse, w, e), Step(parse, w, e), e.snap.files, e.snap.files, rest);
      }
    } else {
      DeathWritesOnlyUnread(parse, w, v, f, disk, e);
      assert Finishes(es) == Finishes(rest);
      MendedAtTheEnd(parse, Step(parse, w, e), v, f, e.snap.files, rest);
    }
  }

  lemma GrownTwice(f: map<string, string>, g: map<string, string>, h: map<string, string>)
    requires Grown(f, g) && Grown(g, h)
    ensures Grown(f, h)
  {
    forall p ensures Text(f, p) <= Text(h, p) {
      assert Text(f, p) <= Text(g, p) <= Text(h, p);
    }
  }

  // ---- the store against one full re-read ----

  /** Every stored value is the last one some file gives its key, and every key of a file is stored. */
  ghost predicate Reflects(parse: Parser, db: Db, files: map<string, string>) {
    && (forall k :: Lookup(db, k).Some? ==> exists p :: Valued(Points(parse, Text(files, p)), k) == Lookup(db, k))
    && (forall k, p :: Valued(Points(parse, Text(files, p)), k).Some? ==> Lookup(db, k).Some?)
  }

  lemma StaysReflecting(parse: Parser, w: World, f: map<string, string>, e: Event)
    requires Synced(w.cursor, f) && Grown(f, e.snap.files) && AllWhole(f) && Complete(e.snap)
    requires Reflects(parse, w.db, f) && e.fate.Finished?
    ensures Reflects(parse, Step(parse, w, e).db, e.snap.files)
  {
    var g, points := e.snap.files, Scanned(parse, w.cursor, e.snap);
    var db := Apply(w.db, points);
    forall k ensures (Lookup(db, k).Some? ==> exists p :: Valued(Points(parse, Text(g, p)), k) == Lookup(db, k))
      && forall p :: Valued(Points(parse, Text(g, p)), k).Some? ==> Lookup(db, k).Some?
    {
      ReflectingAt(parse, w, f, e, k);
    }
  }

  lemma ReflectingAt(parse: Parser, w: World, f: map<string, string>, e: Event, k: (string, int))
    requires Synced(w.cursor, f) && Grown(f, e.snap.files) && AllWhole(f) && Complete(e.snap)
    requires Reflects(parse, w.db, f) && e.fate.Finished?
    ensures var g, db := e.snap.files, Step(parse, w, e).db;
            && (Lookup(db, k).Some? ==> exists p :: Valued(Points(parse, Text(g, p)), k) == Lookup(db, k))
            && forall p :: Valued(Points(parse, Text(g, p)), k).Some? ==> Lookup(db, k).Some?
  {
    var g, points := e.snap.files, Scanned(parse, w.cursor, e.snap);
    LastWriteWins(w.db, points, k);
    ValuedInGather(parse, w.cursor, g, e.snap.paths, k);
    forall p ensures Valued(Points(parse, Text(g, p)), k)
      == (if Valued(Fresh(parse, w.cursor, g, p), k).Some? then Valued(Fresh(parse, w.cursor, g, p), k)
          else Valued(Points(parse, Text(f, p)), k))
    {
      Instalment(parse, w.cursor, f, g, p);
      ValuedOfConcat(Points(parse, Text(f, p)), Fresh(parse, w.cursor, g, p), k);
    }
    if Valued(points, k).Some? {
      var p :| p in e.snap.paths && Valued(Fresh(parse, w.cursor, g, p), k) == Valued(points, k);
      assert Valued(Points(parse, Text(g, p)), k) == Valued(points, k);
    } else {
      forall p ensures Valued(Fresh(parse, w.cursor, g, p), k).None? {
        if p !in e.snap.paths { assert p !in g; }
      }
      if Lookup(w.db, k).Some? {
        var p :| Valued(Points(parse, Text(f, p)), k) == Lookup(w.db, k);
        assert Valued(Points(parse, Text(g, p)), k) == Lookup(w.db, k);
      }
    }
  }

  lemma ReadAgain(parse: Parser, cursor: Cursor, f: map<string, string>, g: map<string, string>, p: string,
                  k: (string, int))
    requires Synced(cursor, f) && Grown(f, g) && AllWhole(f)
    requires Valued(Points(parse, Text(f, p)), k).Some? || Valued(Fresh(parse, cursor, g, p), k).Some?
    ensures Valued(Fresh(parse, map[], g, p), k).Some?
  {
    Instalment(parse, cursor, f, g, p);
    ValuedOfConcat(Points(parse, Text(f, p)), Fresh(parse, cursor, g, p), k);
    FullRead(parse, g, p);
  }

  /** After a lost cursor everything stored is still to be read: the world is like an empty one. */
  lemma LossLeavesOnlyUnread(parse: Parser, w: World, v: World, f: map<string, string>, disk: map<string, string>,
                             e: Event)
    requires Synced(w.cursor, f) && Grown(f, disk) && Grown(disk, e.snap.files) && AllWhole(f) && AllWhole(disk)
    requires OnlyUnread(parse, w, v, disk) && Reflects(parse, v.db, f) && e.fate.CursorLost?
    ensures OnlyUnread(parse, Step(parse, w, e), World(map[], map[]), e.snap.files)
  {
    var g, points, after := e.snap.files, Scanned(parse, w.cursor, e.snap), Step(parse, w, e);
    GrownTwice(f, disk, g);
    forall k | Lookup(after.db, k) != Lookup(map[], k) ensures exists p :: Valued(Fresh(parse, map[], g, p), k).Some? {
      LastWriteWins(w.db, points, k);
      ValuedInGather(parse, w.cursor, g, e.snap.paths, k);
      if Valued(points, k).Some? {
        var p :| p in e.snap.paths && Valued(Fresh(parse, w.cursor, g, p), k) == Valued(points, k);
        ReadAgain(parse, w.cursor, f, g, p, k);
      } else if Lookup(w.db, k) == Lookup(v.db, k) {
        var p :| Valued(Points(parse, Text(f, p)), k) == Lookup(v.db, k);
        ReadAgain(parse, w.cursor, f, g, p, k);
      } else {
        var p :| Valued(Fresh(parse, w.cursor, disk, p), k).Some?;
        UnreadGrows(parse, w.cursor, f, disk, g, p);
        var more :| Fresh(parse, w.cursor, g, p) == Fresh(parse, w.cursor, disk, p) + more;
        ValuedOfConcat(Fresh(parse, w.cursor, disk, p), more, k);
        ReadAgain(parse, w.cursor, f, g, p, k);
      }
    }
  }

  lemma EmptyReflects(parse: Parser)
    ensures Reflects(parse, map[], map[]) && Synced(map[], map[])
  {
    forall p, k ensures Valued(Points(parse, Text(map[], p)), k).None? {
      assert Lines("") == [];
    }
  }

  /** Whatever the fates before it, a finished run leaves a store that reflects its files. */
  lemma {:induction false} ReflectsFinal(parse: Parser, w: World, v: World, f: map<string, string>,
                                         disk: map<string, string>, es: seq<Event>)
    requires Synced(w.cursor, f) && Grown(f, disk) && AllWhole(f) && AllWhole(disk)
    requires OnlyUnread(parse, w, v, disk) && Reflects(parse, v.db, f) && AppendOnly(disk, Snaps(es))
    requires es != [] && es[|es| - 1].fate.Finished?
    ensures Reflects(parse, Runs(parse, w, es).db, es[|es| - 1].snap.files)
    decreases |es|
  {
    var e, rest := es[0], es[1..];
    assert Snaps(es)[0] == e.snap;
    assert Snaps(es)[1..] == Snaps(rest);
    var g, after := e.snap.files, Step(parse, w, e);
    GrownTwice(f, disk, g);
    match e.fate
    case Finished =>
      FinishMendsAll(parse, w, v, f, disk, e);
      StaysSynced(w.cursor, f, e.snap);
      StaysReflecting(parse, v, f, e);
      if rest != [] {
        ReflectsFinal(parse, after, after, g, g, rest);
      } else {
        assert Runs(parse, after, rest) == after;
      }
    case Died(_) =>
      DeathWritesOnlyUnread(parse, w, v, f, disk, e);
      ReflectsFinal(parse, after, v, f, g, rest);
    case CursorLost =>
      LossLeavesOnlyUnread(parse, w, v, f, disk, e);
      EmptyReflects(parse);
      ReflectsFinal(parse, after, World(map[], map[]), map[], g, rest);
  }

  lemma {:induction false} FinishesAppendOnly(f: map<string, string>, disk: map<string, string>, es: seq<Event>)
    requires Grown(f, disk) && AppendOnly(disk, Snaps(es))
    ensures AppendOnly(f, Snaps(Finishes(es)))
    ensures forall i :: 0 <= i < |Finishes(es)| ==> Finishes(es)[i].fate.Finished?
    ensures es != [] && es[|es| - 1].fate.Finished? ==>
              Finishes(es) != [] && Finishes(es)[|Finishes(es)| - 1] == es[|es| - 1]
    decreases |es|
  {
    if es != [] {
      var e, rest := es[0], es[1..];
      assert Snaps(es)[0] == e.snap;
      assert Snaps(es)[1..] == Snaps(rest);
      GrownTwice(f, disk, e.snap.files);
      if e.fate.Finished? {
        assert Grown(e.snap.files, e.snap.files);
        FinishesAppendOnly(e.snap.files, e.snap.files, rest);
        OneMoreFinish(f, e, Finishes(rest));
        assert Finishes(es) == [e] + Finishes(rest);
      } else {
        FinishesAppendOnly(f, e.snap.files, rest);
        assert Finishes(es) == Finishes(rest);
      }
    }
  }

  lemma OneMoreFinish(f: map<string, string>, e: Event, rest: seq<Event>)
    requires Complete(e.snap) && Grown(f, e.snap.files) && AllWhole(e.snap.files)
    requires AppendOnly(e.snap.files, Snaps(rest))
    ensures AppendOnly(f, Snaps([e] + rest))
  {
    var all := Snaps([e] + rest);
    assert all[0] == e.snap && all[1..] == Snaps(rest);
  }

  /** Files that share a key give it the same last fields. */
  ghost predicate FilesAgree(parse: Parser, files: map<string, string>) {
    forall p, q, k ::
      (Valued(Points(parse, Text(files, p)), k).Some? && Valued(Points(parse, Text(files, q)), k).Some?) ==>
        Valued(Points(parse, Text(files, p)), k) == Valued(Points(parse, Text(files, q)), k)
  }

  lemma SomewhereValued(parse: Parser, a: Db, b: Db, files: map<string, string>, k: (string, int))
    requires Reflects(parse, a, files) && Reflects(parse, b, files) && Lookup(a, k).Some?
    ensures Lookup(b, k).Some?
  {
    var p :| Valued(Points(parse, Text(files, p)), k) == Lookup(a, k);
  }

  lemma {:induction false} ReflectionIsUnique(parse: Parser, a: Db, b: Db, files: map<string, string>)
    requires Reflects(parse, a, files) && Reflects(parse, b, files) && FilesAgree(parse, files)
    ensures a == b
  {
    forall k ensures Lookup(a, k) == Lookup(b, k) {
      if Lookup(b, k).Some? {
        var q :| Valued(Points(parse, Text(files, q)), k) == Lookup(b, k);
        assert Lookup(a, k).Some?;
        var p :| Valued(Points(parse, Text(files, p)), k) == Lookup(a, k);
      } else if Lookup(a, k).Some? {
        SomewhereValued(parse, a, b, files, k);
      }
    }
    SameLookups(a, b);
  }

  /**
    Runs that died, wherever and however often, leave no trace once a run has finished:
    none at all if they died before the cursor was touched, and none in the store even
    if they lost the cursor, if files that share a key agree on it.
  */
  lemma CrashesLeaveNoTrace(parse: Parser, w: World, f: map<string, string>, es: seq<Event>)
    requires Synced(w.cursor, f) && AllWhole(f) && AppendOnly(f, Snaps(es))
    requires es != [] && es[|es| - 1].fate.Finished?
    ensures CursorKept(es) ==> Runs(parse, w, es) == Runs(parse, w, Finishes(es))
    ensures Reflects(parse, w.db, f) && FilesAgree(parse, es[|es| - 1].snap.files) ==>
              Runs(parse, w, es).db == Runs(parse, w, Finishes(es)).db
  {
    if CursorKept(es) {
      MendedAtTheEnd(parse, w, w, f, f, es);
    }
    if Reflects(parse, w.db, f) && FilesAgree(parse, es[|es| - 1].snap.files) {
      NoTraceInTheStore(parse, w, f, es);
    }
  }

  lemma NoTraceInTheStore(parse: Parser, w: World, f: map<string, string>, es: seq<Event>)
    requires Synced(w.cursor, f) && AllWhole(f) && AppendOnly(f, Snaps(es)) && Reflects(parse, w.db, f)
    requires es != [] && es[|es| - 1].fate.Finished? && FilesAgree(parse, es[|es| - 1].snap.files)
    ensures Runs(parse, w, es).db == Runs(parse, w, Finishes(es)).db
  {
    var done, last := Finishes(es), es[|es| - 1].snap.files;
    FinishesAppendOnly(f, f, es);
    ReflectsFinal(parse, w, w, f, f, es);
    ReflectsFinal(parse, w, w, f, f, done);
    ReflectionIsUnique(parse, Runs(parse, w, es).db, Runs(parse, w, done).db, last);
  }

  /**
    From an empty cursor and store, any history of runs over append-only transcripts
    that ends with a finished run stores exactly what one full re-read would, if files
    that share a key agree on it.
  */
  lemma {:induction false} HistoryEqualsOneRun(parse: Parser, es: seq<Event>)
    requires AppendOnly(map[], Snaps(es)) && es != [] && es[|es| - 1].fate.Finished?
    requires FilesAgree(parse, es[|es| - 1].snap.files)
    ensures Runs(parse, World(map[], map[]), es).db
         == Runs(parse, World(map[], map[]), [es[|es| - 1]]).db
  {
    var w, last := World(map[], map[]), es[|es| - 1];
    EmptyReflects(parse);
    ReflectsFinal(parse, w, w, map[], map[], es);
    LastIsAppendOnly(map[], es);
    ReflectsFinal(parse, w, w, map[], map[], [last]);
    ReflectionIsUnique(parse, Runs(parse, w, es).db, Runs(parse, w, [last]).db, last.snap.files);
  }

  lemma {:induction false} LastIsAppendOnly(f: map<string, string>, es: seq<Event>)
    requires AppendOnly(f, Snaps(es)) && es != []
    ensures AppendOnly(f, Snaps([es[|es| - 1]]))
    decreases |es|
  {
    var last, rest := es[|es| - 1], es[1..];
    assert Snaps(es)[0] == es[0].snap;
    assert Snaps(es)[1..] == Snaps(rest);
    var one := Snaps([last]);
    assert one == [last.snap] && one[1..] == [];
    if rest != [] {
      LastIsAppendOnly(es[0].snap.files, rest);
      GrownTwice(f, es[0].snap.files, last.snap.files);
    }
  }
}
