/**
  The CI poll (workers/cicd-collector/src/index.js): a cursor with an overlap window,
  a bounded list of the rows already written, and an alert list that advances only
  after the alert was posted.

  Times are milliseconds. A poll reads its state document once, writes rows as it
  goes, saves, and only then posts alerts; the fates below are the places where it
  can stop.
*/
module Poll {
  import opened Prelude

  const OVERLAP_MS: int := 30 * 60_000
  const BACKFILL_MS: int := 7 * 86_400_000
  const PER_PAGE: nat := 100
  const MAX_RUN_PAGES: nat := 5
  const SEEN_CAP: nat := 4000
  const ALERTED_CAP: nat := 500
  const ALERT_MAX_LINES: nat := 10

  /** A workflow run as listed; attempt 0 stands for an absent attempt, "" for no conclusion. */
  datatype Run = Run(id: nat, attempt: nat, conclusion: string, branch: string, created: int, completed: int)

  datatype Repo = Repo(name: string, defaultBranch: Option<string>)

  type Key = (nat, nat)

  function KeyOf(run: Run): Key {
    (run.id, if run.attempt == 0 then 1 else run.attempt)
  }

  datatype Doc = Doc(seen: seq<Key>, alerted: seq<Key>, lastPoll: Option<int>)

  // ---- the window ----

  function WindowStart(doc: Doc, now: int): int {
    var floor := now - BACKFILL_MS;
    if doc.lastPoll.None? || doc.lastPoll.value == 0 then floor
    else Max(doc.lastPoll.value - OVERLAP_MS, floor)
  }

  /** The start as sent to the API: whole seconds. */
  function Since(doc: Doc, now: int): int {
    WindowStart(doc, now) / 1000 * 1000
  }

  // ---- one repo's listing ----

  function PageOf(matches: seq<Run>, page: nat): seq<Run> {
    var lo := Min(page * PER_PAGE, |matches|);
    matches[lo..Min(lo + PER_PAGE, |matches|)]
  }

  /**
    All completed runs since the window start, page by page; `matches` is what the
    server holds, `answers(k)` whether it answers for page k (counted from 0).
  */
  method ListCompletedRuns(matches: seq<Run>, answers: nat -> bool) returns (runs: Option<seq<Run>>)
    ensures runs.Some? ==> runs.value == if |matches| <= 500 then matches else matches[..500]
    ensures runs.Some? <==> forall k :: 0 <= k < 5 && k * 100 <= |matches| ==> answers(k)
  {
    var all: seq<Run> := [];
    for page := 0 to MAX_RUN_PAGES
      invariant page * PER_PAGE <= |matches| && all == matches[..page * PER_PAGE]
      invariant forall k :: 0 <= k < page ==> answers(k)
    {
      if !answers(page) {
        return None;
      }
      var batch := PageOf(matches, page);
      assert all + batch == matches[..Min((page + 1) * PER_PAGE, |matches|)];
      all := all + batch;
      if |batch| < PER_PAGE {
        break;
      }
    }
    runs := Some(all);
  }

  // ---- the gates ----

  /** The keys a sequence of listed runs adds to the seen list: finished, and not there yet. */
  function NewKeys(seen: seq<Key>, runs: seq<Run>): seq<Key>
    decreases |runs|
  {
    if runs == [] then []
    else if runs[0].conclusion == "" || KeyOf(runs[0]) in seen then NewKeys(seen, runs[1..])
    else [KeyOf(runs[0])] + NewKeys(seen + [KeyOf(runs[0])], runs[1..])
  }

  predicate IsRed(repo: Repo, run: Run) {
    run.conclusion == "failure" && run.branch == if repo.defaultBranch.Some? then repo.defaultBranch.value else "main"
  }

  /** The red default-branch runs of one listing that were never alerted. */
  function RedKeys(alerted: seq<Key>, repo: Repo, runs: seq<Run>): seq<Key> {
    if runs == [] then []
    else
      var run := runs[|runs| - 1];
      RedKeys(alerted, repo, runs[..|runs| - 1]) +
      if IsRed(repo, run) && KeyOf(run) !in alerted then [KeyOf(run)] else []
  }

  /** What one repo contributed: its listing, or nothing if the listing failed. */
  datatype Listed = Listed(repo: Repo, runs: Option<seq<Run>>)

  function AllRuns(listed: seq<Listed>): seq<Run> {
    if listed == [] then []
    else AllRuns(listed[..|listed| - 1]) + RunsOf(listed[|listed| - 1])
  }

  function RunsOf(l: Listed): seq<Run> {
    if l.runs.Some? then l.runs.value else []
  }

  function AllRed(alerted: seq<Key>, listed: seq<Listed>): seq<Key> {
    if listed == [] then []
    else
      var last := listed[|listed| - 1];
      AllRed(alerted, listed[..|listed| - 1]) + RedKeys(alerted, last.repo, RunsOf(last))
  }

  /** slice(-cap). */
  function Last(keys: seq<Key>, cap: nat): seq<Key> {
    if |keys| <= cap then keys else keys[|keys| - cap..]
  }

  /** markAlerted, one key after the other. */
  function Mark(alerted: seq<Key>, keys: seq<Key>): seq<Key>
    decreases |keys|
  {
    if keys == [] then alerted
    else Mark(if keys[0] in alerted then alerted else alerted + [keys[0]], keys[1..])
  }

  // ---- one poll ----

  datatype Fate = DiesUnsaved | AlertFails | SecondSaveFails | AllWell

  /** The alert message: a line for each of the first ten runs, and a count of the others. */
  datatype Message = Message(named: seq<Key>, more: nat)

  function First(keys: seq<Key>, n: nat): seq<Key> {
    keys[..Min(n, |keys|)]
  }

  function MessageOf(failures: seq<Key>): Message {
    Message(First(failures, ALERT_MAX_LINES), |failures| - |First(failures, ALERT_MAX_LINES)|)
  }

  /**
    A poll leaves a document behind, the rows it wrote, and the red runs whose message
    it posted, each named in it or only counted.
  */
  datatype Outcome = Outcome(doc: Doc, written: seq<Key>, posted: seq<Key>)

  function PollStep(doc: Doc, now: int, listed: seq<Listed>, fate: Fate): Outcome {
    var written := NewKeys(doc.seen, AllRuns(listed));
    var red := AllRed(doc.alerted, listed);
    if fate.DiesUnsaved? then Outcome(doc, written, [])
    else
      var saved := Doc(Last(doc.seen + written, SEEN_CAP), Last(doc.alerted, ALERTED_CAP), Some(now));
      if red == [] || fate.AlertFails? then Outcome(saved, written, [])
      else if fate.SecondSaveFails? then Outcome(saved, written, red)
      else Outcome(saved.(alerted := Last(Mark(doc.alerted, red), ALERTED_CAP)), written, red)
  }

  lemma {:induction false} NewKeysOfConcat(seen: seq<Key>, some: seq<Run>, more: seq<Run>)
    ensures NewKeys(seen, some + more) == NewKeys(seen, some) + NewKeys(seen + NewKeys(seen, some), more)
    decreases |some|
  {
    if some == [] {
      assert some + more == more && seen + [] == seen;
    } else {
      assert (some + more)[1..] == some[1..] + more;
      var key := KeyOf(some[0]);
      if some[0].conclusion == "" || key in seen {
        NewKeysOfConcat(seen, some[1..], more);
      } else {
        NewKeysOfConcat(seen + [key], some[1..], more);
        assert seen + ([key] + NewKeys(seen + [key], some[1..])) == (seen + [key]) + NewKeys(seen + [key], some[1..]);
      }
    }
  }

  lemma NewKeysOfOneMore(seen: seq<Key>, runs: seq<Run>, i: nat)
    requires i < |runs|
    ensures var added := NewKeys(seen, runs[..i]);
            NewKeys(seen, runs[..i + 1]) ==
            if runs[i].conclusion == "" || KeyOf(runs[i]) in seen + added then added else added + [KeyOf(runs[i])]
  {
    assert runs[..i + 1] == runs[..i] + [runs[i]];
    NewKeysOfConcat(seen, runs[..i], [runs[i]]);
    assert [runs[i]][1..] == [];
  }

  lemma OneMoreListing(seen: seq<Key>, alerted: seq<Key>, listed: seq<Listed>, i: nat)
    requires i < |listed|
    ensures var added := NewKeys(seen, AllRuns(listed[..i]));
            NewKeys(seen, AllRuns(listed[..i + 1])) == added + NewKeys(seen + added, RunsOf(listed[i]))
    ensures AllRed(alerted, listed[..i + 1]) ==
            AllRed(alerted, listed[..i]) + RedKeys(alerted, listed[i].repo, RunsOf(listed[i]))
  {
    assert listed[..i + 1][..i] == listed[..i];
    NewKeysOfConcat(seen, AllRuns(listed[..i]), RunsOf(listed[i]));
  }

  /** The collector: its state document, and the dataset it appends to. */
  class Collector {
    var doc: Doc
    var rows: seq<Key>

    constructor ()
      ensures doc == Doc([], [], None) && rows == []
    {
      doc, rows := Doc([], [], None), [];
    }

    /** Write the rows of one listing that are not in the seen list yet. */
    method WriteRuns(repo: Repo, runs: seq<Run>, seen: seq<Key>, alerted: seq<Key>)
      returns (added: seq<Key>, red: seq<Key>)
      modifies this`rows
      ensures added == NewKeys(seen, runs) && red == RedKeys(alerted, repo, runs)
      ensures rows == old(rows) + added
    {
      added, red := [], [];
      for i := 0 to |runs|
        invariant added == NewKeys(seen, runs[..i])
        invariant rows == old(rows) + added
        invariant red == RedKeys(alerted, repo, runs[..i])
      {
        var run := runs[i];
        assert runs[..i + 1][..i] == runs[..i];
        NewKeysOfOneMore(seen, runs, i);
        var key := KeyOf(run);
        if run.conclusion != "" {
          if IsRed(repo, run) && key !in alerted {
            red := red + [key];
          }
          if key !in seen + added {
            rows := rows + [key];
            added := added + [key];
          }
        }
      }
      assert runs[..|runs|] == runs;
    }

    /** Write the rows of every listing that succeeded, and collect the red runs. */
    method WriteAll(listed: seq<Listed>, seen: seq<Key>, alerted: seq<Key>)
      returns (added: seq<Key>, failures: seq<Key>)
      modifies this`rows
      ensures added == NewKeys(seen, AllRuns(listed)) && failures == AllRed(alerted, listed)
      ensures rows == old(rows) + added
    {
      added, failures := [], [];
      for i := 0 to |listed|
        invariant added == NewKeys(seen, AllRuns(listed[..i]))
        invariant rows == old(rows) + added
        invariant failures == AllRed(alerted, listed[..i])
      {
        OneMoreListing(seen, alerted, listed, i);
        var more: seq<Key>, red: seq<Key> := [], [];
        if listed[i].runs.Some? {
          more, red := WriteRuns(listed[i].repo, listed[i].runs.value, seen + added, alerted);
        }
        Associate(old(rows), added, more);
        added, failures := added + more, failures + red;
      }
      assert listed[..|listed|] == listed;
    }

    method MarkAll(alerted: seq<Key>, keys: seq<Key>) returns (marked: seq<Key>)
      ensures marked == Mark(alerted, keys)
    {
      marked := alerted;
      for i := 0 to |keys|
        invariant Mark(marked, keys[i..]) == Mark(alerted, keys)
      {
        assert keys[i..][0] == keys[i] && keys[i..][1..] == keys[i + 1..];
        if keys[i] !in marked {
          marked := marked + [keys[i]];
        }
      }
    }

    method RunPoll(now: int, listed: seq<Listed>, fate: Fate) returns (message: Option<Message>)
      modifies this
      ensures var o := PollStep(old(doc), now, listed, fate);
              && doc == o.doc && rows == old(rows) + o.written
              && message == if o.posted == [] then None else Some(MessageOf(o.posted))
    {
      message := None;
      var seen, alerted := doc.seen, doc.alerted;
      var added, failures := WriteAll(listed, seen, alerted);
      if fate.DiesUnsaved? {
        return;
      }
      doc := Doc(Last(seen + added, SEEN_CAP), Last(alerted, ALERTED_CAP), Some(now));
      if failures == [] || fate.AlertFails? {
        return;
      }
      message := Some(MessageOf(failures));
      alerted := MarkAll(alerted, failures);
      if fate.SecondSaveFails? {
        return;
      }
      doc := doc.(alerted := Last(alerted, ALERTED_CAP));
    }
  }
}
