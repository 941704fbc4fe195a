/**
  The transcript collector (grafana/claude-usage-collector/collector.py): an incremental
  scan with one cursor per file, a chunked write, and a cursor saved after the write.

  A file is a string, an offset a number of characters. What the collector makes of one
  raw line (strip, decode, parse_line, build_line) is a parameter, `parse`.
*/
module Transcript {
  import opened Prelude

  const CHUNK: nat := 5000

  /** A stored point is identified by its series and its time; writing it again overwrites its fields. */
  datatype Point = Point(key: (string, int), fields: string)

  type Parser = string -> Option<Point>
  type Cursor = map<string, nat>
  type Db = map<(string, int), string>

  /** What one scan finds: the paths the glob lists, in order, and the files that can be opened. */
  datatype Snapshot = Snapshot(paths: seq<string>, files: map<string, string>)

  // ---- lines ----

  function LineEnd(s: string): (k: nat)
    requires s != ""
    ensures 0 < k <= |s|
  {
    if s[0] == '\n' || |s| == 1 then 1 else 1 + LineEnd(s[1..])
  }

  /** The lines of a text, terminators included; an unterminated rest is a line too. */
  function Lines(s: string): seq<string> {
    if s == "" then [] else [s[..LineEnd(s)]] + Lines(s[LineEnd(s)..])
  }

  function ParseAll(parse: Parser, lines: seq<string>): seq<Point> {
    if lines == [] then [] else Found(parse, lines[0]) + ParseAll(parse, lines[1..])
  }

  /** Nothing for a line that is blank, malformed or without usage. */
  function Found(parse: Parser, raw: string): seq<Point> {
    match parse(raw)
    case Some(p) => [p]
    case None => []
  }

  /** The points of a text. */
  function Points(parse: Parser, s: string): seq<Point> {
    ParseAll(parse, Lines(s))
  }

  // ---- one scan ----

  /** Where reading starts: at the cursor, or at the top of a file that has become shorter than it. */
  function Start(at: nat, size: nat): (start: nat)
    ensures start <= size
  {
    if at > size then 0 else at
  }

  function At(cursor: Cursor, path: string): nat {
    if path in cursor then cursor[path] else 0
  }

  function Unread(text: string, at: nat): string {
    text[Start(at, |text|)..]
  }

  /** The points a scan reads from one path. */
  function Fresh(parse: Parser, cursor: Cursor, files: map<string, string>, path: string): seq<Point> {
    if path !in files then []
    else Points(parse, Unread(files[path], At(cursor, path)))
  }

  function Gather(parse: Parser, cursor: Cursor, files: map<string, string>, paths: seq<string>): seq<Point> {
    if paths == [] then []
    else
      var n := |paths| - 1;
      Gather(parse, cursor, files, paths[..n]) + Fresh(parse, cursor, files, paths[n])
  }

  function Advance(cursor: Cursor, files: map<string, string>, paths: seq<string>): Cursor {
    if paths == [] then cursor
    else
      var n := |paths| - 1;
      var c := Advance(cursor, files, paths[..n]);
      if paths[n] in files then c[paths[n] := |files[paths[n]]|] else c
  }

  function Scanned(parse: Parser, cursor: Cursor, snap: Snapshot): seq<Point> {
    Gather(parse, cursor, snap.files, snap.paths)
  }

  function AfterScan(cursor: Cursor, snap: Snapshot): Cursor {
    Advance(cursor, snap.files, snap.paths)
  }

  lemma {:induction false} ParseAllOfConcat(parse: Parser, a: seq<string>, b: seq<string>)
    ensures ParseAll(parse, a + b) == ParseAll(parse, a) + ParseAll(parse, b)
  {
    if a == [] {
      assert a + b == b;
    } else {
      assert (a + b)[1..] == a[1..] + b;
      ParseAllOfConcat(parse, a[1..], b);
    }
  }

  lemma OneLine(parse: Parser, done: seq<Point>, rest: string)
    requires rest != ""
    ensures var k := LineEnd(rest);
            done + Points(parse, rest) == done + Found(parse, rest[..k]) + Points(parse, rest[k..])
  {
    var k := LineEnd(rest);
    assert Lines(rest)[0] == rest[..k] && Lines(rest)[1..] == Lines(rest[k..]);
  }

  /** Reads what is new in one file, line by line, and reports the offset reached. */
  method ScanFile(parse: Parser, text: string, at: nat) returns (points: seq<Point>, end: nat)
    ensures points == Points(parse, Unread(text, at))
    ensures end == |text|
  {
    points, end := [], if at > |text| then 0 else at;
    var rest := text[end..];
    while rest != ""
      invariant end + |rest| == |text|
      invariant points + Points(parse, rest) == Points(parse, Unread(text, at))
      decreases |rest|
    {
      var k := LineEnd(rest);
      OneLine(parse, points, rest);
      var found := parse(rest[..k]);
      if found.Some? {
        points := points + [found.value];
      } else {
        assert points + [] == points;
      }
      rest, end := rest[k..], end + k;
    }
  }

  /** The whole scan: `reset` ignores the cursor and starts every file from the top. */
  method Scan(parse: Parser, cursor: Cursor, snap: Snapshot, reset: bool)
    returns (points: seq<Point>, newCursor: Cursor)
    ensures points == Scanned(parse, if reset then map[] else cursor, snap)
    ensures newCursor == AfterScan(if reset then map[] else cursor, snap)
  {
    points := [];
    newCursor := if reset then map[] else cursor;
    ghost var from := newCursor;
    for i := 0 to |snap.paths|
      invariant points == Gather(parse, from, snap.files, snap.paths[..i])
      invariant newCursor == Advance(from, snap.files, snap.paths[..i])
    {
      var path := snap.paths[i];
      NextPath(parse, from, snap.files, snap.paths, i);
      if path in snap.files {
        var read, end := ScanFile(parse, snap.files[path], if reset then 0 else At(cursor, path));
        points := points + read;
        newCursor := newCursor[path := end];
      }
    }
    assert snap.paths[..|snap.paths|] == snap.paths;
  }

  lemma NextPath(parse: Parser, cursor: Cursor, files: map<string, string>, paths: seq<string>, i: nat)
    requires i < |paths|
    ensures var path, c := paths[i], Advance(cursor, files, paths[..i]);
            if path in files then
              && Gather(parse, cursor, files, paths[..i + 1])
                 == Gather(parse, cursor, files, paths[..i]) + Points(parse, Unread(files[path], At(cursor, path)))
              && Advance(cursor, files, paths[..i + 1]) == c[path := |files[path]|]
            else
              && Gather(parse, cursor, files, paths[..i + 1]) == Gather(parse, cursor, files, paths[..i])
              && Advance(cursor, files, paths[..i + 1]) == c
  {
    assert paths[..i + 1][..i] == paths[..i];
    var g := Gather(parse, cursor, files, paths[..i]);
    assert g + [] == g;
  }

  // ---- the store ----

  function Apply(db: Db, points: seq<Point>): Db {
    if points == [] then db
    else
      var n := |points| - 1;
      Apply(db, points[..n])[points[n].key := points[n].fields]
  }

  /** The server's reply to one chunk; a chunk can be stored although the reply is lost. */
  datatype Reply = Stored | StoredUnheard | Refused

  /** The k-th chunk is the first without a good reply. */
  predicate FirstBad(replies: nat -> Reply, k: nat) {
    !replies(k).Stored? && forall j: nat :: j < k ==> replies(j).Stored?
  }

  lemma {:induction false} ApplyOfConcat(db: Db, a: seq<Point>, b: seq<Point>)
    ensures Apply(db, a + b) == Apply(Apply(db, a), b)
    decreases |b|
  {
    if b == [] {
      assert a + b == a;
    } else {
      var n := |b| - 1;
      assert (a + b)[..|a + b| - 1] == a + b[..n];
      ApplyOfConcat(db, a, b[..n]);
    }
  }

  class Collector {
    var cursor: Cursor
    var db: Db

    constructor ()
      ensures cursor == map[] && db == map[]
    {
      cursor, db := map[], map[];
    }

    /** Writes chunk by chunk, and stops at the first chunk without a good reply. */
    method InfluxWrite(points: seq<Point>, replies: nat -> Reply) returns (written: nat, ok: bool)
      modifies this`db
      ensures written <= |points| && db == Apply(old(db), points[..written])
      ensures ok ==> written == |points|
      ensures ok <==> forall k: nat :: k * 5000 < |points| ==> replies(k).Stored?
      ensures forall k: nat :: FirstBad(replies, k) && k * 5000 < |points| ==>
                written == if replies(k).Refused? then k * 5000 else Min((k + 1) * 5000, |points|)
    {
      written, ok := 0, true;
      var i, chunk := 0, 0;
      assert points[..0] == [];
      while i < |points|
        invariant i == chunk * CHUNK
        invariant written == Min(i, |points|) && db == Apply(old(db), points[..written])
        invariant forall k: nat :: k < chunk ==> replies(k).Stored?
        decreases |points| - i
      {
        var next := Min(i + CHUNK, |points|);
        var reply := replies(chunk);
        if reply != Refused {
          ApplyOfConcat(old(db), points[..written], points[i..next]);
          assert points[..written] + points[i..next] == points[..next];
          db := Apply(db, points[i..next]);
          written := next;
        }
        if reply != Stored {
          assert chunk * CHUNK < |points|;
          ok := false;
          return;
        }
        i, chunk := i + CHUNK, chunk + 1;
      }
    }

    /** One run: scan, write, and only then save the cursor. */
    method Run(parse: Parser, snap: Snapshot, reset: bool, replies: nat -> Reply) returns (written: nat, ok: bool)
        modifies this
      ensures var start := if reset then map[] else old(cursor);
              var points := Scanned(parse, start, snap);
              && written <= |points| && db == Apply(old(db), points[..written])
              && (ok ==> written == |points|)
              && cursor == (if ok then AfterScan(start, snap) else old(cursor))
    {
      var points, newCursor := Scan(parse, cursor, snap, reset);
      written, ok := InfluxWrite(points, replies);
      if ok {
        cursor := newCursor;
      }
    }
  }
}
