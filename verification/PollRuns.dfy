/**
  What the poll covers, and how often it writes.
*/
module PollRuns {
  import opened Prelude
  import opened Poll

  // ---- write-once ----

  /** The new keys are distinct, were not seen, and with the seen ones account for every finished run listed. */
  lemma {:induction false} NewKeysAreNew(seen: seq<Key>, runs: seq<Run>)
    ensures Distinct(NewKeys(seen, runs))
    ensures forall k :: k in NewKeys(seen, runs) ==>
              k !in seen && exists r :: r in runs && r.conclusion != "" && KeyOf(r) == k
    ensures forall r :: r in runs && r.conclusion != "" ==> KeyOf(r) in seen || KeyOf(r) in NewKeys(seen, runs)
    decreases |runs|
  {
    if runs != [] {
      var key := KeyOf(runs[0]);
      if runs[0].conclusion == "" || key in seen {
        NewKeysAreNew(seen, runs[1..]);
      } else {
        NewKeysAreNew(seen + [key], runs[1..]);
        assert runs[0] in runs && key in seen + [key];
      }
      assert forall r :: r in runs <==> r == runs[0] || r in runs[1..];
    }
  }

  datatype Beat = Beat(now: int, listed: seq<Listed>, fate: Fate)

  /** The document, every row, every red run of a posted message, and those that had a line in it. */
  datatype World = World(doc: Doc, rows: seq<Key>, posted: seq<Key>, named: set<Key>)

  function Step(w: World, b: Beat): World {
    var o := PollStep(w.doc, b.now, b.listed, b.fate);
    World(o.doc, w.rows + o.written, w.posted + o.posted, w.named + set k | k in MessageOf(o.posted).named)
  }

  function Polls(w: World, bs: seq<Beat>): World
    decreases |bs|
  {
    if bs == [] then w else Polls(Step(w, bs[0]), bs[1..])
  }

  const FRESH := World(Doc([], [], None), [], [], {})

  /** The saved list is the tail of everything written, and equal keys are more than the cap apart. */
  ghost predicate WriteOnce(w: World) {
    w.doc.seen == Last(w.rows, SEEN_CAP) && Spaced(w.rows, SEEN_CAP)
  }

  ghost predicate Spaced(rows: seq<Key>, cap: nat) {
    forall i, j :: 0 <= i < j < |rows| && rows[i] == rows[j] ==> j - i > cap
  }

  lemma SpacedAfter(rows: seq<Key>, added: seq<Key>, cap: nat)
    requires Spaced(rows, cap) && Distinct(added) && forall k :: k in added ==> k !in Last(rows, cap)
    ensures Spaced(rows + added, cap)
  {
    var more, tail := rows + added, Last(rows, cap);
    forall i | 0 <= i < |rows| && i >= |rows| - cap ensures more[i] in tail {
      assert tail[i - (|rows| - |tail|)] == rows[i];
    }
    forall j | |rows| <= j < |more| ensures more[j] in added {
      assert added[j - |rows|] == more[j];
    }
  }

  /** A poll that stops before its first save has not written anything. */
  predicate SavesWhatItWrites(w: World, b: Beat) {
    b.fate.DiesUnsaved? ==> PollStep(w.doc, b.now, b.listed, b.fate).written == []
  }

  lemma StepWriteOnceExactly(w: World, b: Beat)
    requires WriteOnce(w)
    ensures WriteOnce(Step(w, b)) <==> SavesWhatItWrites(w, b)
  {
    var added := NewKeys(w.doc.seen, AllRuns(b.listed));
    NewKeysAreNew(w.doc.seen, AllRuns(b.listed));
    SpacedAfter(w.rows, added, SEEN_CAP);
    LastOfLast(w.rows, added, SEEN_CAP);
    assert w.rows + [] == w.rows;
    if b.fate.DiesUnsaved? && added != [] {
      var more := w.rows + added;
      assert Last(more, SEEN_CAP)[|Last(more, SEEN_CAP)| - 1] == added[|added| - 1];
      assert added[|added| - 1] in Last(more, SEEN_CAP) && added[|added| - 1] !in w.doc.seen;
    }
  }

  lemma LastOfLast(rows: seq<Key>, added: seq<Key>, cap: nat)
    ensures Last(Last(rows, cap) + added, cap) == Last(rows + added, cap)
  {}

  /** Every poll that writes also saves. */
  predicate WritersSave(w: World, bs: seq<Beat>)
    decreases |bs|
  {
    bs == [] || (SavesWhatItWrites(w, bs[0]) && WritersSave(Step(w, bs[0]), bs[1..]))
  }

  /** Write-once after every poll of the history. */
  ghost predicate AlwaysOnce(w: World, bs: seq<Beat>)
    decreases |bs|
  {
    WriteOnce(w) && (bs != [] ==> AlwaysOnce(Step(w, bs[0]), bs[1..]))
  }

  /**
    Over any history of polls: the saved list stays the tail of all rows, and a key is
    written again only after more than four thousand other rows, exactly as long as
    every poll that writes also saves.
  */
  lemma {:induction false} RowsAreWrittenOnce(w: World, bs: seq<Beat>)
    requires WriteOnce(w)
    ensures AlwaysOnce(w, bs) <==> WritersSave(w, bs)
    ensures WritersSave(w, bs) ==> WriteOnce(Polls(w, bs))
    decreases |bs|
  {
    if bs != [] {
      StepWriteOnceExactly(w, bs[0]);
      if SavesWhatItWrites(w, bs[0]) {
        RowsAreWrittenOnce(Step(w, bs[0]), bs[1..]);
      } else {
        assert !WriteOnce(Step(w, bs[0])) && !AlwaysOnce(Step(w, bs[0]), bs[1..]);
      }
    }
  }

  /**
    The rows themselves: two polls of the same listings, whatever became of the second,
    repeat a key too early exactly if the first died after writing at least one and at
    most four thousand rows. Then they are all written twice.
  */
  lemma DyingDuplicatesExactly(w: World, b: Beat, again: Beat)
    requires WriteOnce(w) && again.listed == b.listed
    ensures var written := PollStep(w.doc, b.now, b.listed, b.fate).written;
            && (Spaced(Step(Step(w, b), again).rows, SEEN_CAP) <==> !(b.fate.DiesUnsaved? && 0 < |written| <= SEEN_CAP))
            && (b.fate.DiesUnsaved? ==> Step(Step(w, b), again).rows == w.rows + written + written)
  {
    var written := PollStep(w.doc, b.now, b.listed, b.fate).written;
    var v := Step(w, b);
    NewKeysAreNew(w.doc.seen, AllRuns(b.listed));
    SpacedAfter(w.rows, written, SEEN_CAP);
    if b.fate.DiesUnsaved? {
      assert v.doc == w.doc && v.rows == w.rows + written;
      TwiceSpaced(w.rows, written);
    } else {
      StepWriteOnceExactly(w, b);
      NewKeysAreNew(v.doc.seen, AllRuns(again.listed));
      SpacedAfter(v.rows, NewKeys(v.doc.seen, AllRuns(again.listed)), SEEN_CAP);
    }
  }

  lemma TwiceSpaced(rows: seq<Key>, written: seq<Key>)
    requires Spaced(rows + written, SEEN_CAP) && Distinct(written)
    requires forall k :: k in written ==> k !in Last(rows, SEEN_CAP)
    ensures Spaced(rows + written + written, SEEN_CAP) <==> !(0 < |written| <= SEEN_CAP)
  {
    var once, twice := rows + written, rows + written + written;
    if 0 < |written| <= SEEN_CAP {
      assert twice[|rows|] == written[0] == twice[|once|];
    } else if |written| > SEEN_CAP {
      forall i, j | |once| <= i < j < |twice| ensures twice[i] != twice[j] {
        assert written[i - |once|] != written[j - |once|];
      }
      forall i, j | 0 <= i < j < |twice| && twice[i] == twice[j] ensures j - i > SEEN_CAP {
        if j < |once| {
          assert once[i] == once[j];
        } else if i >= |rows| {
          assert written[i - |rows|] == written[j - |once|];
        }
      }
    } else {
      assert twice == once;
    }
  }

  // ---- coverage ----

  /**
    What the server lists for a repo at a poll: exactly its runs that have completed
    and were created in the window. (An attempt that is run again is no longer listed;
    the lemmas below are about attempts that are not.)
  */
  ghost predicate ServerLists(matches: seq<Run>, since: int, now: int, run: Run) {
    run in matches <==> run.created >= since && run.completed <= now
  }

  lemma {:induction false} RunsAreGathered(listed: seq<Listed>, i: nat, run: Run)
    requires i < |listed| && listed[i].runs.Some? && run in listed[i].runs.value
    ensures run in AllRuns(listed)
    decreases |listed|
  {
    if i < |listed| - 1 {
      RunsAreGathered(listed[..|listed| - 1], i, run);
    }
  }

  /**
    Coverage: a run completed within half an hour of its creation is a row after the
    first saved poll that follows its completion, if that poll lists its repo, within
    the page cap, less than seven days after creation.
  */
  lemma FirstPollCovers(w: World, b: Beat, i: nat, matches: seq<Run>, run: Run)
    requires WriteOnce(w) && !b.fate.DiesUnsaved?
    requires run.conclusion != "" && run.completed - run.created <= OVERLAP_MS
    requires run.completed <= b.now && (w.doc.lastPoll.Some? ==> w.doc.lastPoll.value < run.completed)
    requires b.now - run.created <= BACKFILL_MS
    requires ServerLists(matches, Since(w.doc, b.now), b.now, run)
    requires i < |b.listed| && b.listed[i].runs == Some(matches[..Min(MAX_RUN_PAGES * PER_PAGE, |matches|)])
    requires |matches| <= MAX_RUN_PAGES * PER_PAGE
    ensures KeyOf(run) in Step(w, b).rows
    ensures Step(w, b).doc.lastPoll == Some(b.now)
  {
    assert Since(w.doc, b.now) <= WindowStart(w.doc, b.now) <= run.created;
    assert matches[..|matches|] == matches;
    RunsAreGathered(b.listed, i, run);
    NewKeysAreNew(w.doc.seen, AllRuns(b.listed));
    if KeyOf(run) in w.doc.seen {
      assert KeyOf(run) in w.rows;
    }
  }

  // ---- the whole of coverage ----

  predicate ListsRepo(b: Beat, name: string) {
    exists i :: 0 <= i < |b.listed| && b.listed[i].repo.name == name && b.listed[i].runs.Some?
  }

  /**
    A poll and the server agree about a run: a poll that lists its repo, within the page
    cap, shows it exactly if it has completed and was created in the window; one that
    does not list the repo does not show it; and no other run has its key.
  */
  predicate Shows(w: World, b: Beat, name: string, run: Run) {
    && (run in AllRuns(b.listed) <==>
          ListsRepo(b, name) && run.created >= Since(w.doc, b.now) && run.completed <= b.now)
    && forall r :: r in AllRuns(b.listed) && KeyOf(r) == KeyOf(run) ==> r == run
  }

  lemma {:induction false} AllRunsAreListed(listed: seq<Listed>, run: Run)
    requires run in AllRuns(listed)
    ensures exists i :: 0 <= i < |listed| && run in RunsOf(listed[i])
    decreases |listed|
  {
    var n := |listed| - 1;
    if run in RunsOf(listed[n]) {
    } else {
      AllRunsAreListed(listed[..n], run);
      var i :| 0 <= i < n && run in RunsOf(listed[..n][i]);
      assert listed[i] == listed[..n][i];
    }
  }

  /** A listing within the page cap shows what the server holds, if keys are unique across the listings. */
  lemma WithinCapShows(w: World, b: Beat, name: string, i: nat, matches: seq<Run>, run: Run)
    requires i < |b.listed| && b.listed[i].repo.name == name
    requires |matches| <= MAX_RUN_PAGES * PER_PAGE
    requires b.listed[i].runs == Some(matches[..Min(MAX_RUN_PAGES * PER_PAGE, |matches|)])
    requires ServerLists(matches, Since(w.doc, b.now), b.now, run)
    requires forall j, r :: 0 <= j < |b.listed| && r in RunsOf(b.listed[j]) && KeyOf(r) == KeyOf(run) ==>
          j == i && r == run
    ensures Shows(w, b, name, run)
  {
    assert matches[..|matches|] == matches;
    forall r | r in AllRuns(b.listed) && KeyOf(r) == KeyOf(run) ensures r == run && run in matches {
      AllRunsAreListed(b.listed, r);
    }
    if run in matches {
      RunsAreGathered(b.listed, i, run);
    }
  }

  /** Everything on the saved list is a row. */
  ghost predicate SeenAreRows(w: World) {
    forall k :: k in w.doc.seen ==> k in w.rows
  }

  lemma StepSeenAreRows(w: World, b: Beat)
    requires SeenAreRows(w)
    ensures SeenAreRows(Step(w, b))
    ensures forall k :: k in w.rows ==> k in Step(w, b).rows
  {
    var all := w.doc.seen + NewKeys(w.doc.seen, AllRuns(b.listed));
    forall k | k in Last(all, SEEN_CAP) ensures k in all {
      var i :| 0 <= i < |Last(all, SEEN_CAP)| && Last(all, SEEN_CAP)[i] == k;
      assert all[|all| - |Last(all, SEEN_CAP)| + i] == k;
    }
  }

  /**
    One poll, saved or not, writes an unwritten run exactly if it lists its repo
    after completion with the run in its window.
  */
  lemma CoveredExactly(w: World, b: Beat, name: string, run: Run)
    requires SeenAreRows(w) && KeyOf(run) !in w.rows && run.conclusion != "" && Shows(w, b, name, run)
    ensures KeyOf(run) in Step(w, b).rows <==>
              ListsRepo(b, name) && run.completed <= b.now && run.created >= Since(w.doc, b.now)
  {
    NewKeysAreNew(w.doc.seen, AllRuns(b.listed));
    assert KeyOf(run) !in w.doc.seen;
  }

  /** The saved cursor lies in the past of a positive clock. */
  predicate InOrder(w: World, now: int) {
    now > 0 && (w.doc.lastPoll.Some? ==> w.doc.lastPoll.value <= now)
  }

  /** The window never reaches further back than before. */
  lemma SinceMoves(w: World, b: Beat, later: int)
    requires InOrder(w, b.now) && b.now <= later
    ensures InOrder(Step(w, b), later) && Since(w.doc, b.now) <= Since(Step(w, b).doc, later)
  {
    assert WindowStart(w.doc, b.now) <= WindowStart(Step(w, b).doc, later);
  }

  /** A history whose clock does not run backwards and whose polls and server agree about the run. */
  predicate Agree(w: World, bs: seq<Beat>, name: string, run: Run)
    decreases |bs|
  {
    bs == [] ||
    (&& InOrder(w, bs[0].now) && Shows(w, bs[0], name, run)
     && (|bs| > 1 ==> bs[0].now <= bs[1].now)
     && Agree(Step(w, bs[0]), bs[1..], name, run))
  }

  /** The first poll that lists the repo once the run has completed still has the run in its window. */
  predicate FirstListingCovers(w: World, bs: seq<Beat>, name: string, run: Run)
    decreases |bs|
  {
    bs != [] &&
    if ListsRepo(bs[0], name) && run.completed <= bs[0].now then run.created >= Since(w.doc, bs[0].now)
    else FirstListingCovers(Step(w, bs[0]), bs[1..], name, run)
  }

  lemma {:induction false} NeverOutOfWindow(w: World, bs: seq<Beat>, name: string, run: Run)
    requires SeenAreRows(w) && KeyOf(run) !in w.rows && run.conclusion != "" && Agree(w, bs, name, run)
    requires bs != [] ==> run.created < Since(w.doc, bs[0].now)
    ensures KeyOf(run) !in Polls(w, bs).rows
    decreases |bs|
  {
    if bs != [] {
      CoveredExactly(w, bs[0], name, run);
      StepSeenAreRows(w, bs[0]);
      if |bs| > 1 {
        SinceMoves(w, bs[0], bs[1].now);
      }
      NeverOutOfWindow(Step(w, bs[0]), bs[1..], name, run);
    }
  }

  lemma {:induction false} RowsStay(w: World, bs: seq<Beat>, key: Key)
    requires key in w.rows
    ensures key in Polls(w, bs).rows
    decreases |bs|
  {
    if bs != [] {
      RowsStay(Step(w, bs[0]), bs[1..], key);
    }
  }

  /**
    Over any history: a completed run is ever written if and only if the first poll
    that lists its repo after its completion has the run's creation in its window. A
    run missed there is missed for good, whatever its length and whatever the gaps.
  */
  lemma {:induction false} EverWrittenExactly(w: World, bs: seq<Beat>, name: string, run: Run)
    requires SeenAreRows(w) && KeyOf(run) !in w.rows && run.conclusion != "" && Agree(w, bs, name, run)
    ensures KeyOf(run) in Polls(w, bs).rows <==> FirstListingCovers(w, bs, name, run)
    decreases |bs|
  {
    if bs != [] {
      var v := Step(w, bs[0]);
      CoveredExactly(w, bs[0], name, run);
      StepSeenAreRows(w, bs[0]);
      if KeyOf(run) in v.rows {
        RowsStay(v, bs[1..], KeyOf(run));
      } else if ListsRepo(bs[0], name) && run.completed <= bs[0].now {
        NeverOutOfWindow(w, bs, name, run);
      } else {
        EverWrittenExactly(v, bs[1..], name, run);
      }
    }
  }

  /** Every poll comes within five minutes of the last saved one. */
  predicate Regular(w: World, bs: seq<Beat>)
    decreases |bs|
  {
    bs == [] ||
    (&& w.doc.lastPoll.Some? && w.doc.lastPoll.value > 0 && bs[0].now - w.doc.lastPoll.value <= 5 * 60_000
     && Regular(Step(w, bs[0]), bs[1..]))
  }

  /** So with regular polls a run that takes 35 minutes from creation to completion is never written. */
  lemma {:induction false} LongRunsAreNeverListed(w: World, bs: seq<Beat>, name: string, run: Run)
    requires SeenAreRows(w) && KeyOf(run) !in w.rows && run.conclusion != "" && Agree(w, bs, name, run)
    requires Regular(w, bs) && run.completed - run.created >= 35 * 60_000 + 1000
    ensures !FirstListingCovers(w, bs, name, run) && KeyOf(run) !in Polls(w, bs).rows
    decreases |bs|
  {
    if bs != [] {
      if run.completed <= bs[0].now {
        assert run.created + 1000 <= WindowStart(w.doc, bs[0].now);
      }
      CoveredExactly(w, bs[0], name, run);
      StepSeenAreRows(w, bs[0]);
      LongRunsAreNeverListed(Step(w, bs[0]), bs[1..], name, run);
    }
    EverWrittenExactly(w, bs, name, run);
  }

  // ---- alerts ----

  lemma {:induction false} MarkAdds(alerted: seq<Key>, keys: seq<Key>)
    ensures forall k :: k in Mark(alerted, keys) <==> k in alerted || k in keys
    decreases |keys|
  {
    if keys != [] {
      MarkAdds(if keys[0] in alerted then alerted else alerted + [keys[0]], keys[1..]);
      assert forall k :: k in keys <==> k == keys[0] || k in keys[1..];
    }
  }

  /** The red runs that a poll finds. */
  function Red(w: World, b: Beat): seq<Key> {
    AllRed(w.doc.alerted, b.listed)
  }

  predicate CanPost(b: Beat) {
    b.fate.AllWell? || b.fate.SecondSaveFails?
  }

  ghost predicate AlertedWerePosted(w: World) {
    forall k :: k in w.doc.alerted ==> k in w.posted
  }

  /** Whatever failed in between, a key is in the saved alert list only if its alert was posted. */
  lemma {:induction false} AlertedOnlyAfterPosted(w: World, bs: seq<Beat>)
    requires AlertedWerePosted(w)
    ensures AlertedWerePosted(Polls(w, bs))
    decreases |bs|
  {
    if bs != [] {
      MarkAdds(w.doc.alerted, Red(w, bs[0]));
      AlertedOnlyAfterPosted(Step(w, bs[0]), bs[1..]);
    }
  }

  // ---- one poll, in plain terms ----

  /** The key of a run: its id, and its attempt, or 1 if it has none. */
  predicate Keyed(run: Run, key: Key) {
    key.0 == run.id && (if run.attempt == 0 then key.1 == 1 else key.1 == run.attempt)
  }

  /** A finished run of the listing has the key. */
  ghost predicate Finished(runs: seq<Run>, key: Key) {
    exists run :: run in runs && run.conclusion != "" && Keyed(run, key)
  }

  /** A run of the listing that failed on the repo's default branch, or on main if it has none, has the key. */
  ghost predicate FailedOnDefault(l: Listed, key: Key) {
    exists run :: run in RunsOf(l) && run.conclusion == "failure" && Keyed(run, key) &&
      (l.repo.defaultBranch == Some(run.branch) || (l.repo.defaultBranch.None? && run.branch == "main"))
  }

  lemma {:induction false} RedKeysFailed(alerted: seq<Key>, repo: Repo, runs: seq<Run>)
    ensures forall k :: k in RedKeys(alerted, repo, runs) <==>
                        k !in alerted && FailedOnDefault(Listed(repo, Some(runs)), k)
  {
    if runs != [] {
      var n := |runs| - 1;
      RedKeysFailed(alerted, repo, runs[..n]);
      assert forall r :: r in runs <==> r in runs[..n] || r == runs[n];
      var all, some := Listed(repo, Some(runs)), Listed(repo, Some(runs[..n]));
      assert Keyed(runs[n], KeyOf(runs[n]));
      assert forall k :: FailedOnDefault(all, k) <==>
                         FailedOnDefault(some, k) || (k == KeyOf(runs[n]) && IsRed(repo, runs[n]));
    }
  }

  lemma {:induction false} AllRedFailed(alerted: seq<Key>, listed: seq<Listed>)
    ensures forall k :: k in AllRed(alerted, listed) <==>
                        k !in alerted && exists l :: l in listed && FailedOnDefault(l, k)
  {
    if listed != [] {
      var n := |listed| - 1;
      AllRedFailed(alerted, listed[..n]);
      RedKeysFailed(alerted, listed[n].repo, RunsOf(listed[n]));
      assert forall k :: FailedOnDefault(Listed(listed[n].repo, Some(RunsOf(listed[n]))), k) <==>
                         FailedOnDefault(listed[n], k);
      assert forall l :: l in listed <==> l in listed[..n] || l == listed[n];
    }
  }

  /**
    What one poll writes and keeps: a row for each finished run listed whose key is not
    in the seen list, each once; and, unless it dies first, its own time and the last
    four thousand keys.
  */
  lemma PollWrites(doc: Doc, now: int, listed: seq<Listed>, fate: Fate)
    ensures var o := PollStep(doc, now, listed, fate);
            && Distinct(o.written)
            && (forall k :: k in o.written <==> k !in doc.seen && Finished(AllRuns(listed), k))
            && (fate.DiesUnsaved? ==> o.doc == doc)
            && (!fate.DiesUnsaved? ==> o.doc.lastPoll == Some(now) && IsTail(o.doc.seen, doc.seen + o.written, 4000))
  {
    var runs, written := AllRuns(listed), NewKeys(doc.seen, AllRuns(listed));
    NewKeysAreNew(doc.seen, runs);
    forall k ensures k in written <==> k !in doc.seen && Finished(runs, k) {
      if k in written {
        var r :| r in runs && r.conclusion != "" && KeyOf(r) == k;
        assert Keyed(r, k);
      }
      if Finished(runs, k) {
        var r :| r in runs && r.conclusion != "" && Keyed(r, k);
        assert KeyOf(r) == k;
      }
    }
  }

  /** The last keys of a list, as many as fit. */
  ghost predicate IsTail(kept: seq<Key>, all: seq<Key>, cap: nat) {
    |kept| == (if |all| <= cap then |all| else cap) && kept == all[|all| - |kept|..]
  }

  /**
    What one poll posts: exactly if it gets that far, one message about the runs that
    failed on a default branch and are not in the alert list, the first ten of them
    named and the others counted. And what it then saves: all of them, if they fit.
  */
  lemma PollPosts(doc: Doc, now: int, listed: seq<Listed>, fate: Fate)
    ensures var o, can := PollStep(doc, now, listed, fate), fate.AllWell? || fate.SecondSaveFails?;
            var message := MessageOf(o.posted);
            && (forall k :: k in o.posted <==>
                  can && k !in doc.alerted && exists l :: l in listed && FailedOnDefault(l, k))
            && message.named == o.posted[..if |o.posted| <= 10 then |o.posted| else 10]
            && |message.named| + message.more == |o.posted|
            && (!fate.DiesUnsaved? ==> |o.doc.alerted| <= 500)
            && (|doc.alerted| + |o.posted| <= 500 ==>
                  forall k :: k in o.doc.alerted <==> k in doc.alerted || (fate.AllWell? && k in o.posted))
  {
    var red := AllRed(doc.alerted, listed);
    AllRedFailed(doc.alerted, listed);
    MarkAppends(doc.alerted, red);
    MarkAdds(doc.alerted, red);
  }

  lemma SinceExactly(doc: Doc, now: int)
    ensures var last, floor := doc.lastPoll, now - 604_800_000;
            var start := if last == None || last == Some(0) || last.value - 1_800_000 < floor then floor
                         else last.value - 1_800_000;
            Since(doc, now) % 1000 == 0 && Since(doc, now) <= start < Since(doc, now) + 1000
  {}

  // ---- runs listed once ----

  function Keys(runs: seq<Run>): seq<Key> {
    seq(|runs|, i requires 0 <= i < |runs| => KeyOf(runs[i]))
  }

  /** Every run of the poll is listed once. */
  predicate ListedOnce(b: Beat) {
    Distinct(Keys(AllRuns(b.listed)))
  }

  lemma KeysOfConcat(some: seq<Run>, more: seq<Run>)
    requires Distinct(Keys(some + more))
    ensures Keys(some + more) == Keys(some) + Keys(more)
    ensures Distinct(Keys(some)) && Distinct(Keys(more)) && forall k :: k in Keys(some) ==> k !in Keys(more)
  {
    var all := Keys(some + more);
    assert all == Keys(some) + Keys(more);
    assert forall i :: 0 <= i < |some| ==> Keys(some)[i] == all[i];
    assert forall i :: 0 <= i < |more| ==> Keys(more)[i] == all[|some| + i];
  }

  lemma DistinctConcat(some: seq<Key>, more: seq<Key>)
    requires Distinct(some) && Distinct(more) && forall k :: k in some ==> k !in more
    ensures Distinct(some + more)
  {
    var all := some + more;
    forall i, j | 0 <= i < j < |all| ensures all[i] != all[j] {
      if i < |some| <= j {
        assert some[i] in some && more[j - |some|] in more;
      }
    }
  }

  lemma {:induction false} RedKeysAreKeys(alerted: seq<Key>, repo: Repo, runs: seq<Run>)
    requires Distinct(Keys(runs))
    ensures Distinct(RedKeys(alerted, repo, runs))
    ensures forall k :: k in RedKeys(alerted, repo, runs) ==> k in Keys(runs)
  {
    if runs != [] {
      var n := |runs| - 1;
      assert runs == runs[..n] + [runs[n]] && Keys([runs[n]]) == [KeyOf(runs[n])];
      KeysOfConcat(runs[..n], [runs[n]]);
      RedKeysAreKeys(alerted, repo, runs[..n]);
      DistinctConcat(RedKeys(alerted, repo, runs[..n]),
                     if IsRed(repo, runs[n]) && KeyOf(runs[n]) !in alerted then [KeyOf(runs[n])] else []);
    }
  }

  lemma {:induction false} RedIsDistinct(alerted: seq<Key>, listed: seq<Listed>)
    requires Distinct(Keys(AllRuns(listed)))
    ensures Distinct(AllRed(alerted, listed))
    ensures forall k :: k in AllRed(alerted, listed) ==> k in Keys(AllRuns(listed))
  {
    if listed != [] {
      var n := |listed| - 1;
      KeysOfConcat(AllRuns(listed[..n]), RunsOf(listed[n]));
      RedIsDistinct(alerted, listed[..n]);
      RedKeysAreKeys(alerted, listed[n].repo, RunsOf(listed[n]));
      DistinctConcat(AllRed(alerted, listed[..n]), RedKeys(alerted, listed[n].repo, RunsOf(listed[n])));
    }
  }

  // ---- a message has ten lines ----

  /** The red runs a poll finds before the j-th run of its i-th listing. */
  function Rank(alerted: seq<Key>, listed: seq<Listed>, i: nat, j: nat): nat
    requires i < |listed| && listed[i].runs.Some? && j < |listed[i].runs.value|
  {
    |AllRed(alerted, listed[..i])| + |RedKeys(alerted, listed[i].repo, listed[i].runs.value[..j])|
  }

  lemma {:induction false} RedAtRank(alerted: seq<Key>, repo: Repo, runs: seq<Run>, j: nat)
    requires j < |runs| && IsRed(repo, runs[j]) && KeyOf(runs[j]) !in alerted
    ensures var r := |RedKeys(alerted, repo, runs[..j])|;
            r < |RedKeys(alerted, repo, runs)| && RedKeys(alerted, repo, runs)[r] == KeyOf(runs[j])
    decreases |runs|
  {
    var n := |runs| - 1;
    if j < n {
      RedAtRank(alerted, repo, runs[..n], j);
      assert runs[..n][..j] == runs[..j];
    }
  }

  lemma {:induction false} AllRedGrows(alerted: seq<Key>, listed: seq<Listed>, i: nat)
    requires i <= |listed|
    ensures AllRed(alerted, listed[..i]) <= AllRed(alerted, listed)
    decreases |listed|
  {
    var n := |listed| - 1;
    if i <= n {
      AllRedGrows(alerted, listed[..n], i);
      assert listed[..n][..i] == listed[..i];
    } else {
      assert listed[..i] == listed;
    }
  }

  lemma AllRedAtRank(alerted: seq<Key>, listed: seq<Listed>, i: nat, j: nat)
    requires i < |listed| && listed[i].runs.Some? && j < |listed[i].runs.value|
    requires var run := listed[i].runs.value[j]; IsRed(listed[i].repo, run) && KeyOf(run) !in alerted
    ensures var red, r := AllRed(alerted, listed), Rank(alerted, listed, i, j);
            r < |red| && red[r] == KeyOf(listed[i].runs.value[j])
  {
    var before, here := AllRed(alerted, listed[..i]), RedKeys(alerted, listed[i].repo, listed[i].runs.value);
    AllRedGrows(alerted, listed, i + 1);
    OneMoreListing([], alerted, listed, i);
    RedAtRank(alerted, listed[i].repo, listed[i].runs.value, j);
    AtOffset(before, here, AllRed(alerted, listed), Rank(alerted, listed, i, j) - |before|);
  }

  lemma AtOffset(before: seq<Key>, here: seq<Key>, all: seq<Key>, r: nat)
    requires before + here <= all && r < |here|
    ensures |before| + r < |all| && all[|before| + r] == here[r]
  {
    assert all[|before| + r] == (before + here)[|before| + r];
  }

  /**
    So a red run that was never posted is posted by the next poll that lists it and can
    post; and if each run is listed once, it is named there exactly if fewer than ten
    red runs come before it.
  */
  lemma FailedPostStaysEligible(w: World, b: Beat, i: nat, j: nat)
    requires i < |b.listed| && b.listed[i].runs.Some? && j < |b.listed[i].runs.value|
    requires var run := b.listed[i].runs.value[j];
             AlertedWerePosted(w) && KeyOf(run) !in w.posted && IsRed(b.listed[i].repo, run)
    ensures var key := KeyOf(b.listed[i].runs.value[j]);
            && (key in Step(w, b).posted <==> CanPost(b))
            && (ListedOnce(b) ==>
                  (key in MessageOf(PollStep(w.doc, b.now, b.listed, b.fate).posted).named <==>
                     CanPost(b) && Rank(w.doc.alerted, b.listed, i, j) < ALERT_MAX_LINES))
  {
    AllRedAtRank(w.doc.alerted, b.listed, i, j);
    FirstTen(Red(w, b), Rank(w.doc.alerted, b.listed, i, j));
    if ListedOnce(b) {
      RedIsDistinct(w.doc.alerted, b.listed);
    }
  }

  lemma FirstTen(red: seq<Key>, r: nat)
    requires r < |red|
    ensures red[r] in red && (r < ALERT_MAX_LINES ==> red[r] in MessageOf(red).named)
    ensures Distinct(red) && r >= ALERT_MAX_LINES ==> red[r] !in MessageOf(red).named
  {
    var named := First(red, ALERT_MAX_LINES);
    if r < ALERT_MAX_LINES {
      assert named[r] == red[r];
    } else if Distinct(red) {
      assert forall m :: 0 <= m < |named| ==> named[m] == red[m] != red[r];
    }
  }

  lemma {:induction false} RedIsNotAlerted(alerted: seq<Key>, listed: seq<Listed>)
    ensures forall k :: k in AllRed(alerted, listed) ==> k !in alerted
  {
    if listed != [] {
      RedIsNotAlerted(alerted, listed[..|listed| - 1]);
      RedKeysAreNotAlerted(alerted, listed[|listed| - 1].repo, RunsOf(listed[|listed| - 1]));
    }
  }

  lemma {:induction false} RedKeysAreNotAlerted(alerted: seq<Key>, repo: Repo, runs: seq<Run>)
    ensures forall k :: k in RedKeys(alerted, repo, runs) ==> k !in alerted
  {
    if runs != [] {
      RedKeysAreNotAlerted(alerted, repo, runs[..|runs| - 1]);
    }
  }

  lemma {:induction false} MarkAppends(alerted: seq<Key>, keys: seq<Key>)
    ensures alerted <= Mark(alerted, keys) && |Mark(alerted, keys)| <= |alerted| + |keys|
    ensures Distinct(keys) && (forall k :: k in keys ==> k !in alerted) ==> Mark(alerted, keys) == alerted + keys
    decreases |keys|
  {
    if keys != [] {
      var more := if keys[0] in alerted then alerted else alerted + [keys[0]];
      MarkAppends(more, keys[1..]);
      if Distinct(keys) && forall k :: k in keys ==> k !in alerted {
        assert forall k :: k in keys[1..] ==> k in keys && k != keys[0];
        assert (alerted + [keys[0]]) + keys[1..] == alerted + keys;
      }
    }
  }

  lemma TailKeeps(all: seq<Key>, cap: nat, p: nat)
    requires p < |all| && |all| - p <= cap
    ensures var tail := Last(all, cap); var q := p - (|all| - |tail|); 0 <= q < |tail| && tail[q] == all[p]
  {}

  /** How far a key is from the end of the alert list. */
  ghost predicate HeldBehind(w: World, key: Key, n: int) {
    exists q :: 0 <= q < |w.doc.alerted| && w.doc.alerted[q] == key && |w.doc.alerted| - q <= n
  }

  /** The alert list of a poll, before it is cut to its cap. */
  lemma NextList(w: World, b: Beat) returns (all: seq<Key>)
    ensures w.doc.alerted <= all && |all| <= |w.doc.alerted| + |Step(w, b).posted| - |w.posted|
    ensures Step(w, b).doc.alerted == all || Step(w, b).doc.alerted == Last(all, ALERTED_CAP)
    ensures forall k :: k in all <==> k in w.doc.alerted || (b.fate.AllWell? && k in Red(w, b))
  {
    all := w.doc.alerted;
    if b.fate.AllWell? && Red(w, b) != [] {
      MarkAppends(all, Red(w, b));
      MarkAdds(all, Red(w, b));
      all := Mark(all, Red(w, b));
    }
  }

  /** It loses a key only after as many were posted as it has room for. */
  lemma StaysListed(w: World, b: Beat, p: nat)
    requires p < |w.doc.alerted|
    requires |w.doc.alerted| - p + |Step(w, b).posted| - |w.posted| <= ALERTED_CAP
    ensures HeldBehind(Step(w, b), w.doc.alerted[p], |w.doc.alerted| - p + |Step(w, b).posted| - |w.posted|)
  {
    var all := NextList(w, b);
    TailKeeps(all, ALERTED_CAP, p);
    var next := Step(w, b).doc.alerted;
    assert next[p - (|all| - |next|)] == all[p];
  }

  /** A poll does not name what it finds in the alert list. */
  lemma ListedIsNotNamed(w: World, b: Beat, k: Key)
    requires k in w.doc.alerted
    ensures k in Step(w, b).named <==> k in w.named
  {
    RedIsNotAlerted(w.doc.alerted, b.listed);
    assert forall x :: x in First(Red(w, b), ALERT_MAX_LINES) ==> x in Red(w, b);
  }

  /**
    A run that was saved as alerted without a line of its own gets none later: it stays
    unnamed until as many further runs were posted as the alert list has room for.
  */
  lemma {:induction false} UnnamedStaysUnnamed(w: World, bs: seq<Beat>, p: nat)
    requires p < |w.doc.alerted|
    requires |w.doc.alerted| - p + |Polls(w, bs).posted| - |w.posted| <= ALERTED_CAP
    ensures var v, k := Polls(w, bs), w.doc.alerted[p]; k in v.doc.alerted && (k in v.named <==> k in w.named)
    decreases |bs|
  {
    if bs != [] {
      var v := Step(w, bs[0]);
      PostedGrows(v, bs[1..]);
      ListedIsNotNamed(w, bs[0], w.doc.alerted[p]);
      StaysListed(w, bs[0], p);
      var q: nat :| q < |v.doc.alerted| && v.doc.alerted[q] == w.doc.alerted[p]
                    && |v.doc.alerted| - q <= |w.doc.alerted| - p + |v.posted| - |w.posted|;
      UnnamedStaysUnnamed(v, bs[1..], q);
    }
  }

  lemma {:induction false} PostedGrows(w: World, bs: seq<Beat>)
    ensures |w.posted| <= |Polls(w, bs).posted|
    decreases |bs|
  {
    if bs != [] {
      PostedGrows(Step(w, bs[0]), bs[1..]);
    }
  }

  /** Some poll of the history posts the run and saves. */
  predicate SavedIn(w: World, bs: seq<Beat>, k: Key)
    decreases |bs|
  {
    bs != [] && ((bs[0].fate.AllWell? && k in Red(w, bs[0])) || SavedIn(Step(w, bs[0]), bs[1..], k))
  }

  /** A poll posts the run among its first ten, and no poll before has posted it and saved. */
  predicate NamedUntilSaved(w: World, bs: seq<Beat>, k: Key)
    decreases |bs|
  {
    bs != [] &&
    (|| (CanPost(bs[0]) && k in First(Red(w, bs[0]), ALERT_MAX_LINES))
     || (!(bs[0].fate.AllWell? && k in Red(w, bs[0])) && NamedUntilSaved(Step(w, bs[0]), bs[1..], k)))
  }

  lemma {:induction false} NamedStays(w: World, bs: seq<Beat>, k: Key)
    requires k in w.named
    ensures k in Polls(w, bs).named
    decreases |bs|
  {
    if bs != [] {
      NamedStays(Step(w, bs[0]), bs[1..], k);
    }
  }

  lemma NewInTail(was: seq<Key>, all: seq<Key>, next: seq<Key>, cap: nat, k: Key) returns (p: nat)
    requires was <= all && k !in was && k in all && |all| - |was| <= cap
    requires next == all || next == Last(all, cap)
    ensures p < |next| && next[p] == k && |next| - p <= |all| - |was|
  {
    var i: nat :| i < |all| && all[i] == k;
    assert forall m :: 0 <= m < |was| ==> was[m] == all[m];
    assert |was| <= i;
    TailKeeps(all, cap, i);
    p := i - (|all| - |next|);
  }

  lemma SavedHere(w: World, b: Beat, k: Key) returns (p: nat)
    requires k !in w.doc.alerted && b.fate.AllWell? && k in Red(w, b)
    requires |Step(w, b).posted| - |w.posted| <= ALERTED_CAP
    ensures p < |Step(w, b).doc.alerted| && Step(w, b).doc.alerted[p] == k
    ensures |Step(w, b).doc.alerted| - p <= |Step(w, b).posted| - |w.posted|
  {
    var all := NextList(w, b);
    p := NewInTail(w.doc.alerted, all, Step(w, b).doc.alerted, ALERTED_CAP, k);
  }

  lemma NotSavedHere(w: World, b: Beat, k: Key)
    requires k !in w.doc.alerted && !(b.fate.AllWell? && k in Red(w, b))
    ensures k !in Step(w, b).doc.alerted
  {
    var all := NextList(w, b);
    assert forall x :: x in Last(all, ALERTED_CAP) ==> x in all;
  }

  lemma NamedHere(w: World, b: Beat, k: Key)
    ensures k in Step(w, b).named <==>
              k in w.named || (CanPost(b) && k in First(Red(w, b), ALERT_MAX_LINES))
  {}

  /**
    Over any history that posts no more than the list has room for, the runs saved as
    alerted are exactly those that a saving poll posted.
  */
  lemma {:induction false} SavedExactly(w: World, bs: seq<Beat>, k: Key)
    requires k !in w.doc.alerted && |Polls(w, bs).posted| - |w.posted| <= ALERTED_CAP
    ensures k in Polls(w, bs).doc.alerted <==> SavedIn(w, bs, k)
    decreases |bs|
  {
    if bs != [] {
      PostedGrows(Step(w, bs[0]), bs[1..]);
      if bs[0].fate.AllWell? && k in Red(w, bs[0]) {
        var p := SavedHere(w, bs[0], k);
        UnnamedStaysUnnamed(Step(w, bs[0]), bs[1..], p);
      } else {
        NotSavedHere(w, bs[0], k);
        SavedExactly(Step(w, bs[0]), bs[1..], k);
      }
    }
  }

  /** Of these, exactly those were ever named that a post had among its first ten, up to and including the saved one. */
  lemma {:induction false} NamedExactly(w: World, bs: seq<Beat>, k: Key)
    requires k !in w.doc.alerted && k !in w.named && |Polls(w, bs).posted| - |w.posted| <= ALERTED_CAP
    ensures k in Polls(w, bs).named <==> NamedUntilSaved(w, bs, k)
    decreases |bs|
  {
    if bs != [] {
      PostedGrows(Step(w, bs[0]), bs[1..]);
      NamedHere(w, bs[0], k);
      if bs[0].fate.AllWell? && k in Red(w, bs[0]) {
        var p := SavedHere(w, bs[0], k);
        UnnamedStaysUnnamed(Step(w, bs[0]), bs[1..], p);
      } else if k in Step(w, bs[0]).named {
        NamedStays(Step(w, bs[0]), bs[1..], k);
      } else {
        NotSavedHere(w, bs[0], k);
        NamedExactly(Step(w, bs[0]), bs[1..], k);
      }
    }
  }

  lemma {:induction false} AllAreRed(repo: Repo, runs: seq<Run>)
    requires forall r :: r in runs ==> IsRed(repo, r)
    ensures RedKeys([], repo, runs) == Keys(runs)
  {
    if runs != [] {
      AllAreRed(repo, runs[..|runs| - 1]);
      assert Keys(runs) == Keys(runs[..|runs| - 1]) + [KeyOf(runs[|runs| - 1])];
    }
  }

  lemma FirstPollOfRed(repo: Repo, runs: seq<Run>, now: int)
    requires 0 < |runs| <= ALERTED_CAP && Distinct(Keys(runs)) && forall r :: r in runs ==> IsRed(repo, r)
    ensures var w := Step(FRESH, Beat(now, [Listed(repo, Some(runs))], AllWell));
            && w.doc.alerted == w.posted == Keys(runs)
            && w.named == set k | k in First(Keys(runs), ALERT_MAX_LINES)
  {
    var listed, red := [Listed(repo, Some(runs))], Keys(runs);
    AllAreRed(repo, runs);
    assert listed[..0] == [] && AllRed([], []) == [] && [] + red == red;
    assert AllRed([], listed) == red;
    MarkAppends([], red);
  }

  /**
    Such runs exist: of a first poll that finds more than ten red runs, the eleventh and
    all after it are saved as alerted without a line, and never get one while they
    are in the list.
  */
  lemma EleventhIsNeverNamed(repo: Repo, runs: seq<Run>, now: int, j: nat, bs: seq<Beat>)
    requires ALERT_MAX_LINES <= j < |runs| <= ALERTED_CAP
    requires Distinct(Keys(runs)) && forall r :: r in runs ==> IsRed(repo, r)
    ensures var w, key := Step(FRESH, Beat(now, [Listed(repo, Some(runs))], AllWell)), KeyOf(runs[j]);
            && key in w.doc.alerted && key in w.posted && key !in w.named
            && (|Polls(w, bs).posted| <= ALERTED_CAP + j ==>
                  key in Polls(w, bs).doc.alerted && key !in Polls(w, bs).named)
  {
    var red, w := Keys(runs), Step(FRESH, Beat(now, [Listed(repo, Some(runs))], AllWell));
    FirstPollOfRed(repo, runs, now);
    assert forall m :: 0 <= m < ALERT_MAX_LINES ==> First(red, ALERT_MAX_LINES)[m] == red[m] != red[j];
    if |Polls(w, bs).posted| <= ALERTED_CAP + j {
      UnnamedStaysUnnamed(w, bs, j);
    }
  }

  // ---- post-once ----

  /** The alert list is the tail of everything posted, and equal keys are more than its cap apart. */
  ghost predicate PostOnce(w: World) {
    w.doc.alerted == Last(w.posted, ALERTED_CAP) && Spaced(w.posted, ALERTED_CAP)
  }

  predicate SavesWhatItPosts(w: World, b: Beat) {
    b.fate.SecondSaveFails? ==> Red(w, b) == []
  }

  lemma StepPostOnceExactly(w: World, b: Beat)
    requires PostOnce(w) && ListedOnce(b)
    ensures PostOnce(Step(w, b)) <==> SavesWhatItPosts(w, b)
  {
    var red := Red(w, b);
    RedIsNotAlerted(w.doc.alerted, b.listed);
    RedIsDistinct(w.doc.alerted, b.listed);
    MarkAppends(w.doc.alerted, red);
    SpacedAfter(w.posted, red, ALERTED_CAP);
    LastOfLast(w.posted, red, ALERTED_CAP);
    assert w.posted + [] == w.posted;
    if b.fate.SecondSaveFails? && red != [] {
      var tail := Last(w.posted + red, ALERTED_CAP);
      assert tail[|tail| - 1] == red[|red| - 1];
      assert red[|red| - 1] in tail && red[|red| - 1] !in w.doc.alerted;
    }
  }

  predicate PostersSave(w: World, bs: seq<Beat>)
    decreases |bs|
  {
    bs == [] || (SavesWhatItPosts(w, bs[0]) && PostersSave(Step(w, bs[0]), bs[1..]))
  }

  ghost predicate AlwaysPostOnce(w: World, bs: seq<Beat>)
    decreases |bs|
  {
    PostOnce(w) && (bs != [] ==> AlwaysPostOnce(Step(w, bs[0]), bs[1..]))
  }

  /**
    Over any history whose polls list each run once: the alert list stays the tail of
    all posted runs, and a run is posted again only after more than five hundred others,
    exactly as long as every poll that posts also saves.
  */
  lemma {:induction false} AlertsArePostedOnce(w: World, bs: seq<Beat>)
    requires PostOnce(w) && forall b :: b in bs ==> ListedOnce(b)
    ensures AlwaysPostOnce(w, bs) <==> PostersSave(w, bs)
    ensures PostersSave(w, bs) ==> PostOnce(Polls(w, bs))
    decreases |bs|
  {
    if bs != [] {
      StepPostOnceExactly(w, bs[0]);
      if SavesWhatItPosts(w, bs[0]) {
        AlertsArePostedOnce(Step(w, bs[0]), bs[1..]);
      } else {
        assert !PostOnce(Step(w, bs[0])) && !AlwaysPostOnce(Step(w, bs[0]), bs[1..]);
      }
    }
  }
}
