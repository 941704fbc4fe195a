/**
  Exactly when the transcript collector agrees with one full re-read: which cuts of a
  text lose points, and which snapshots make the store depend on the order of arrival.
*/
module TranscriptLimits {
  import opened Prelude
  import opened Transcript
  import opened TranscriptRuns

  // ---- cuts ----

  lemma {:induction false} LineEndWithoutBreak(a: string, b: string)
    requires '\n' !in a && b != ""
    ensures LineEnd(a + b) == |a| + LineEnd(b)
  {
    if a == "" {
      assert a + b == b;
    } else {
      assert (a + b)[1..] == a[1..] + b && (a + b)[0] == a[0];
      LineEndWithoutBreak(a[1..], b);
    }
  }

  lemma {:induction false} LineEndIsAll(a: string)
    requires a != "" && LineEnd(a) == |a| && !Whole(a)
    ensures '\n' !in a
  {
    if |a| > 1 {
      assert a[1..][|a[1..]| - 1] == a[|a| - 1];
      LineEndIsAll(a[1..]);
      assert a == [a[0]] + a[1..];
    }
  }

  /** A cut that is not at a line boundary makes one line into two. */
  lemma {:induction false} LineCountOfConcat(a: string, b: string)
    ensures |Lines(a + b)| == |Lines(a)| + |Lines(b)| - if Whole(a) || b == "" then 0 else 1
    decreases |a|
  {
    if Whole(a) {
      LinesOfConcat(a, b);
    } else if b == "" {
      assert a + b == a;
    } else if LineEnd(a) < |a| {
      LineEndOfConcat(a, b);
      var line, rest := a[..LineEnd(a)], a[LineEnd(a)..];
      assert a == line + rest;
      Associate(line, rest, b);
      assert rest[|rest| - 1] == a[|a| - 1];
      LineCountOfConcat(rest, b);
      NextLine(a, line, rest);
      NextLine(a + b, line, rest + b);
    } else {
      OneLineCut(a, b);
    }
  }

  lemma OneLineCut(a: string, b: string)
    requires a != "" && LineEnd(a) == |a| && !Whole(a) && b != ""
    ensures |Lines(a)| == 1 && |Lines(a + b)| == |Lines(b)|
  {
    LineEndIsAll(a);
    LineEndWithoutBreak(a, b);
    var line, rest := b[..LineEnd(b)], b[LineEnd(b)..];
    assert b == line + rest;
    Associate(a, line, rest);
    NextLine(a + b, a + line, rest);
    NextLine(b, line, rest);
    assert a + "" == a;
    NextLine(a, a, "");
  }

  /** A parser that makes a point of every line. */
  function EveryLine(): Parser {
    raw => Some(Point((raw, 0), ""))
  }

  lemma {:induction false} EveryLineCounts(lines: seq<string>)
    ensures |ParseAll(EveryLine(), lines)| == |lines|
  {
    if lines != [] {
      EveryLineCounts(lines[1..]);
    }
  }

  /**
    Reading a text in two instalments loses nothing, whatever the lines mean, exactly if
    it is cut at a line boundary or nothing follows the cut.
  */
  lemma CutIsHarmlessExactly(a: string, b: string)
    ensures (forall parse: Parser :: Points(parse, a + b) == Points(parse, a) + Points(parse, b))
       <==> Whole(a) || b == ""
  {
    if Whole(a) || b == "" {
      forall parse: Parser ensures Points(parse, a + b) == Points(parse, a) + Points(parse, b) {
        HarmlessCut(parse, a, b);
      }
    } else {
      LineCountOfConcat(a, b);
      EveryLineCounts(Lines(a + b));
      EveryLineCounts(Lines(a));
      EveryLineCounts(Lines(b));
      assert |Points(EveryLine(), a + b)| != |Points(EveryLine(), a) + Points(EveryLine(), b)|;
    }
  }

  lemma HarmlessCut(parse: Parser, a: string, b: string)
    requires Whole(a) || b == ""
    ensures Points(parse, a + b) == Points(parse, a) + Points(parse, b)
  {
    if Whole(a) {
      PointsOfConcat(parse, a, b);
    } else {
      assert a + b == a;
      assert Points(parse, a) + [] == Points(parse, a);
    }
  }

  /** A line caught half-written, both halves malformed, is lost for good. */
  lemma TornLineIsLost(parse: Parser, x: string, y: string)
    requires x != "" && y != "" && '\n' !in x && LineEnd(y) == |y|
    requires parse(x) == None && parse(y) == None && parse(x + y).Some?
    ensures Points(parse, x) + Points(parse, y) == [] && |Points(parse, x + y)| == 1
  {
    LineEndWithoutBreak(x, y);
    LineEndOfUnbroken(x);
    SingleLine(parse, x);
    SingleLine(parse, y);
    SingleLine(parse, x + y);
  }

  lemma {:induction false} LineEndOfUnbroken(x: string)
    requires x != "" && '\n' !in x
    ensures LineEnd(x) == |x|
  {
    if |x| > 1 {
      LineEndOfUnbroken(x[1..]);
    }
  }

  lemma SingleLine(parse: Parser, line: string)
    requires line != "" && LineEnd(line) == |line|
    ensures Points(parse, line) == Found(parse, line)
  {
    assert line[..|line|] == line && line[|line|..] == "";
    OneLine(parse, [], line);
    Bracketing(Points(parse, line), Found(parse, line));
  }

  lemma Bracketing(a: seq<Point>, b: seq<Point>)
    requires [] + a == [] + b + []
    ensures a == b
  {
    assert [] + a == a && [] + b + [] == b;
  }

  // ---- rows of scans ----

  /** Files only grow; nothing is said about where their lines end. */
  ghost predicate OnlyGrowing(f: map<string, string>, snaps: seq<Snapshot>)
    decreases |snaps|
  {
    snaps == [] ||
    (Complete(snaps[0]) && Grown(f, snaps[0].files) && OnlyGrowing(snaps[0].files, snaps[1..]))
  }

  /** Each scan that was followed by a longer text had stopped at a line boundary. */
  predicate CutsHarmless(text: string, snaps: seq<Snapshot>, p: string)
    decreases |snaps|
  {
    snaps == [] ||
    (&& (Whole(text) || Text(snaps[0].files, p) == text)
     && CutsHarmless(Text(snaps[0].files, p), snaps[1..], p))
  }

  lemma NextPiece(parse: Parser, cursor: Cursor, f: map<string, string>, snap: Snapshot, p: string)
    returns (piece: string)
    requires Synced(cursor, f) && Grown(f, snap.files)
    ensures Text(snap.files, p) == Text(f, p) + piece
    ensures Fresh(parse, cursor, snap.files, p) == Points(parse, piece)
  {
    var before, after := Text(f, p), Text(snap.files, p);
    assert before <= after && At(cursor, p) == |before|;
    piece := after[|before|..];
    if p !in snap.files {
      assert piece == "";
    }
  }

  /** All that one scan contributes to the two inductions below. */
  lemma FirstScan(parse: Parser, cursor: Cursor, f: map<string, string>, snaps: seq<Snapshot>, p: string)
    returns (text: string, piece: string)
    requires Synced(cursor, f) && snaps != [] && OnlyGrowing(f, snaps)
    ensures var g, rest := snaps[0].files, snaps[1..];
            && Synced(AfterScan(cursor, snaps[0]), g) && OnlyGrowing(g, rest) && Final(f, snaps) == Final(g, rest)
            && text == Text(g, p) == Text(f, p) + piece
            && ReadOver(parse, cursor, snaps, p)
               == Points(parse, piece) + ReadOver(parse, AfterScan(cursor, snaps[0]), rest, p)
            && (CutsHarmless(Text(f, p), snaps, p) <==>
                  (Whole(Text(f, p)) || piece == "") && CutsHarmless(text, rest, p))
  {
    StaysSynced(cursor, f, snaps[0]);
    piece := NextPiece(parse, cursor, f, snaps[0], p);
    text := Text(snaps[0].files, p);
    assert piece == "" <==> |text| == |Text(f, p)|;
    if piece == "" { assert text == Text(f, p); }
  }

  lemma {:induction false} HarmlessScans(parse: Parser, cursor: Cursor, f: map<string, string>,
                                         snaps: seq<Snapshot>, p: string)
    requires Synced(cursor, f) && OnlyGrowing(f, snaps) && CutsHarmless(Text(f, p), snaps, p)
    ensures Points(parse, Text(f, p)) + ReadOver(parse, cursor, snaps, p) == Points(parse, Text(Final(f, snaps), p))
    decreases |snaps|
  {
    if snaps == [] {
      assert Points(parse, Text(f, p)) + [] == Points(parse, Text(f, p));
    } else {
      var text, piece := FirstScan(parse, cursor, f, snaps, p);
      HarmlessScans(parse, AfterScan(cursor, snaps[0]), snaps[0].files, snaps[1..], p);
      HarmlessCut(parse, Text(f, p), piece);
      AddUp(Points(parse, Text(f, p)), Points(parse, piece), Points(parse, text),
            ReadOver(parse, AfterScan(cursor, snaps[0]), snaps[1..], p), Points(parse, Text(Final(f, snaps), p)));
    }
  }

  /** The lines of a text and the points a row of scans then reads from it, one for each line it sees. */
  function Seen(cursor: Cursor, text: string, snaps: seq<Snapshot>, p: string): nat {
    |Lines(text)| + |ReadOver(EveryLine(), cursor, snaps, p)|
  }

  lemma SeenNext(cursor: Cursor, f: map<string, string>, snaps: seq<Snapshot>, p: string)
    returns (text: string, piece: string)
    requires Synced(cursor, f) && snaps != [] && OnlyGrowing(f, snaps)
    ensures var g, rest := snaps[0].files, snaps[1..];
            && Synced(AfterScan(cursor, snaps[0]), g) && OnlyGrowing(g, rest) && Final(f, snaps) == Final(g, rest)
            && text == Text(g, p)
            && Seen(cursor, Text(f, p), snaps, p) == Seen(AfterScan(cursor, snaps[0]), text, rest, p)
               + (if Whole(Text(f, p)) || piece == "" then 0 else 1)
            && (CutsHarmless(Text(f, p), snaps, p) <==>
                  (Whole(Text(f, p)) || piece == "") && CutsHarmless(text, rest, p))
  {
    text, piece := FirstScan(EveryLine(), cursor, f, snaps, p);
    LineCountOfConcat(Text(f, p), piece);
    EveryLineCounts(Lines(piece));
  }

  /** Instalments never see fewer lines than there are, and see more exactly if some cut did harm. */
  lemma {:induction false} ScansCount(cursor: Cursor, f: map<string, string>, snaps: seq<Snapshot>, p: string)
    requires Synced(cursor, f) && OnlyGrowing(f, snaps)
    ensures Seen(cursor, Text(f, p), snaps, p) >= |Lines(Text(Final(f, snaps), p))|
    ensures Seen(cursor, Text(f, p), snaps, p) == |Lines(Text(Final(f, snaps), p))| <==>
          CutsHarmless(Text(f, p), snaps, p)
    decreases |snaps|
  {
    if snaps != [] {
      var text, piece := SeenNext(cursor, f, snaps, p);
      ScansCount(AfterScan(cursor, snaps[0]), snaps[0].files, snaps[1..], p);
    }
  }

  /**
    For files that only grow: the outputs of a row of scans concatenate to one full
    re-read of a path, whatever its lines mean, exactly if each scan that was followed
    by a longer text had stopped at a line boundary.
  */
  lemma InstalmentsExactly(snaps: seq<Snapshot>, p: string)
    requires OnlyGrowing(map[], snaps)
    ensures (forall parse: Parser :: ReadOver(parse, map[], snaps, p) == Fresh(parse, map[], Final(map[], snaps), p))
       <==> CutsHarmless("", snaps, p)
  {
    if CutsHarmless("", snaps, p) {
      forall parse: Parser ensures ReadOver(parse, map[], snaps, p) == Fresh(parse, map[], Final(map[], snaps), p) {
        HarmlessScans(parse, map[], map[], snaps, p);
        FullRead(parse, Final(map[], snaps), p);
        assert [] + ReadOver(parse, map[], snaps, p) == ReadOver(parse, map[], snaps, p);
      }
    } else {
      ScansCount(map[], map[], snaps, p);
      FullRead(EveryLine(), Final(map[], snaps), p);
      EveryLineCounts(Lines(Text(Final(map[], snaps), p)));
      assert ReadOver(EveryLine(), map[], snaps, p) != Fresh(EveryLine(), map[], Final(map[], snaps), p);
    }
  }

  // ---- shared keys ----

  const NOTHING := World(map[], map[])

  /** A history of runs over append-only transcripts whose last run finishes on this snapshot. */
  ghost predicate EndsWith(es: seq<Event>, last: Snapshot) {
    AppendOnly(map[], Snaps(es)) && es != [] && es[|es| - 1] == Event(last, Finished)
  }

  ghost predicate LikeOneRun(parse: Parser, es: seq<Event>, last: Snapshot) {
    Runs(parse, NOTHING, es).db == Runs(parse, NOTHING, [Event(last, Finished)]).db
  }

  function Without(snap: Snapshot, s: string): Snapshot {
    Snapshot(snap.paths, snap.files - {s})
  }

  /** First all files but s, then all of them. */
  function LateArrival(last: Snapshot, s: string): seq<Event> {
    [Event(Without(last, s), Finished), Event(last, Finished)]
  }

  lemma LateArrivalIsHistory(last: Snapshot, s: string)
    requires Complete(last) && AllWhole(last.files)
    ensures EndsWith(LateArrival(last, s), last)
    ensures AppendOnly(map[], Snaps([Event(last, Finished)]))
  {
    var first, es := Without(last, s), LateArrival(last, s);
    forall p ensures Text(first.files, p) <= Text(last.files, p) && Whole(Text(first.files, p)) {}
    assert Snaps(es) == [first, last] && [first, last][1..] == [last] && [last][1..] == [];
    assert Snaps([Event(last, Finished)]) == [last];
    assert AppendOnly(first.files, [last]);
  }

  lemma OneRun(parse: Parser, w: World, e: Event)
    ensures Runs(parse, w, [e]) == Step(parse, w, e)
  {
    assert [e][1..] == [];
  }

  lemma TwoRuns(parse: Parser, w: World, d: Event, e: Event)
    ensures Runs(parse, w, [d, e]) == Step(parse, Step(parse, w, d), e)
  {
    assert [d, e][1..] == [e];
    OneRun(parse, Step(parse, w, d), e);
  }

  /** The file that arrives last has the last word on its keys. */
  lemma SharedKeyTellsTheOrder(parse: Parser, last: Snapshot, s: string, k: (string, int))
    requires Complete(last) && AllWhole(last.files) && Valued(Points(parse, Text(last.files, s)), k).Some?
    ensures EndsWith(LateArrival(last, s), last)
    ensures Lookup(Runs(parse, NOTHING, LateArrival(last, s)).db, k) == Valued(Points(parse, Text(last.files, s)), k)
  {
    LateArrivalIsHistory(last, s);
    var first, es := Without(last, s), LateArrival(last, s);
    TwoRuns(parse, NOTHING, es[0], es[1]);
    var w := Step(parse, NOTHING, es[0]);
    StaysSynced(map[], map[], first);
    forall p ensures Valued(Fresh(parse, w.cursor, last.files, p), k)
      == if p == s then Valued(Points(parse, Text(last.files, s)), k) else None
    {
      OnlyTheLatecomer(parse, w.cursor, last, s, p);
    }
    var points := Scanned(parse, w.cursor, last);
    ValuedInGather(parse, w.cursor, last.files, last.paths, k);
    assert s in last.paths;
    LastWriteWins(w.db, points, k);
  }

  lemma OnlyTheLatecomer(parse: Parser, cursor: Cursor, last: Snapshot, s: string, p: string)
    requires Synced(cursor, Without(last, s).files)
    ensures Fresh(parse, cursor, last.files, p) == if p == s then Points(parse, Text(last.files, s)) else []
  {
    var first := Without(last, s);
    assert At(cursor, p) == |Text(first.files, p)|;
    if p == s {
      FullRead(parse, last.files, s);
    } else {
      assert Text(first.files, p) == Text(last.files, p);
    }
  }

  /**
    For a complete snapshot of whole files: every append-only history of runs, crashes
    included, that ends with a finished run on it stores what one full re-read would if
    and only if files that share a key agree on its last fields.
  */
  lemma StoresLikeOneRunExactly(parse: Parser, last: Snapshot)
    requires Complete(last) && AllWhole(last.files)
    ensures (forall es :: EndsWith(es, last) ==> LikeOneRun(parse, es, last)) <==> FilesAgree(parse, last.files)
  {
    if FilesAgree(parse, last.files) {
      forall es | EndsWith(es, last) ensures LikeOneRun(parse, es, last) {
        HistoryEqualsOneRun(parse, es);
      }
    } else {
      var p, q, k :| Valued(Points(parse, Text(last.files, p)), k).Some? &&
            Valued(Points(parse, Text(last.files, q)), k).Some?
        && Valued(Points(parse, Text(last.files, p)), k) != Valued(Points(parse, Text(last.files, q)), k);
      SharedKeyTellsTheOrder(parse, last, p, k);
      SharedKeyTellsTheOrder(parse, last, q, k);
      assert !(LikeOneRun(parse, LateArrival(last, p), last) && LikeOneRun(parse, LateArrival(last, q), last));
    }
  }
}
