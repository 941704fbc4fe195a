/**
  The watcher over any run of polls, in closed form: what it tracks and what it sends is
  read off the last three answers, and polls without an answer neither count nor reset.
*/
module WatcherRuns {
  import opened Prelude
  import opened Watcher

  type Polls = seq<Option<Services>>

  function AfterPolls(polls: Polls): State {
    if polls == [] then FRESH
    else AfterPoll(AfterPolls(polls[..|polls| - 1]), polls[|polls| - 1])
  }

  /** The answers among the polls. */
  function Answers(polls: Polls): seq<Services> {
    if polls == [] then []
    else
      var n := |polls| - 1;
      Answers(polls[..n]) + (if polls[n].Some? then [polls[n].value] else [])
  }

  /** What the answer `back` before the last one says about a name; None too if there was none. */
  function Reported(answers: seq<Services>, back: nat, name: string): Option<Status> {
    if back < |answers| then Get(answers[|answers| - 1 - back], name) else None
  }

  /** Tracked DOWN: the last answer says DOWN and the one before did not say UP. */
  predicate DebouncedDown(answers: seq<Services>, name: string) {
    Debounced(Reported(answers, 0, name), Reported(answers, 1, name))
  }

  predicate Debounced(last: Option<Status>, before: Option<Status>) {
    last == Some(DOWN) && before != Some(UP)
  }

  /** All of a slot that matters, in terms of the last two answers. */
  predicate Explains(last: Option<Status>, before: Option<Status>, slot: Slot) {
    && (slot.status.Some? <==> last.Some?)
    && (slot.status == Some(DOWN) <==> Debounced(last, before))
    && (slot.status == Some(UP) && last == Some(DOWN) ==> slot.count == Some(1))
    && (last != Some(DOWN) ==> slot.count == None)
  }

  lemma ReportedNext(answers: seq<Services>, answer: Services, name: string)
    ensures Reported(answers + [answer], 0, name) == Get(answer, name)
    ensures Reported(answers + [answer], 1, name) == Reported(answers, 0, name)
    ensures Reported(answers + [answer], 2, name) == Reported(answers, 1, name)
  {}

  lemma StepExplained(last: Option<Status>, before: Option<Status>, slot: Slot, now: Option<Status>)
    requires Explains(last, before, slot)
    ensures Explains(now, last, NextSlot(slot, now))
  {
    match last {
      case None =>
      case Some(UP) =>
      case Some(DOWN) =>
    }
  }

  lemma {:induction false} SlotExplained(polls: Polls, name: string)
    ensures AfterPolls(polls).initialised <==> Answers(polls) != []
    ensures Explains(Reported(Answers(polls), 0, name), Reported(Answers(polls), 1, name),
          SlotOf(AfterPolls(polls), name))
    decreases |polls|
  {
    if polls != [] {
      var n := |polls| - 1;
      var before, answers := AfterPolls(polls[..n]), Answers(polls[..n]);
      SlotExplained(polls[..n], name);
      if polls[n].Some? {
        var answer := polls[n].value;
        if before.initialised {
          SlotsMove(before, answer, name);
          StepExplained(Reported(answers, 0, name), Reported(answers, 1, name), SlotOf(before, name), Get(answer,
                name));
        }
        ReportedNext(answers, answer, name);
      } else {
        assert answers + [] == answers;
      }
    }
  }

  /**
    After any run of polls: tracked are exactly the names of the last answer, and a
    name is tracked DOWN exactly if that answer says DOWN and the answer before it did
    not say UP.
  */
  lemma TrackedInClosedForm(polls: Polls)
    requires Answers(polls) != []
    ensures var s, answers := AfterPolls(polls), Answers(polls);
            && s.services.Keys == answers[|answers| - 1].Keys
            && forall n :: n in s.services ==> (s.services[n] == DOWN <==> DebouncedDown(answers, n))
  {
    var s, answers := AfterPolls(polls), Answers(polls);
    forall n ensures n in s.services <==> n in answers[|answers| - 1] {
      SlotExplained(polls, n);
    }
    forall n | n in s.services ensures s.services[n] == DOWN <==> DebouncedDown(answers, n) {
      SlotExplained(polls, n);
    }
  }

  /**
    The notes about a name, each exactly when: DOWN at the second DOWN answer in a row
    after an UP one; UP when it appears UP or ends a tracked DOWN; disappeared when the
    last answer still had it. The first answer sends none.
  */
  lemma NotesInClosedForm(polls: Polls, answer: Services, name: string)
    ensures var s, a := AfterPolls(polls), Answers(polls);
            && (Sends(s, Some(answer), ServiceDown(name)) <==>
                  && Get(answer, name) == Some(DOWN)
                  && Reported(a, 0, name) == Some(DOWN) && Reported(a, 1, name) == Some(UP))
            && (Sends(s, Some(answer), ServiceUp(name)) <==>
                  && a != [] && Get(answer, name) == Some(UP)
                  && (Reported(a, 0, name).None? || DebouncedDown(a, name)))
            && (Sends(s, Some(answer), Disappeared(name)) <==>
                  Reported(a, 0, name).Some? && Get(answer, name).None?)
  {
    SlotExplained(polls, name);
  }

  /** Polls without an answer change neither what is tracked nor what the next answer sends about a name. */
  lemma SilenceIsNeutral(polls: Polls, name: string)
    ensures Answers(polls + [None]) == Answers(polls)
    ensures SlotOf(AfterPolls(polls + [None]), name) == SlotOf(AfterPolls(polls), name)
  {
    assert (polls + [None])[..|polls|] == polls;
    assert Answers(polls) + [] == Answers(polls);
  }

  /** A service that no answer ever reports UP is never announced as down, however long it stays DOWN. */
  lemma NeverUpNeverAnnounced(polls: Polls, i: nat, name: string)
    requires i < |polls|
    requires forall j :: 0 <= j < |polls| && polls[j].Some? ==> Get(polls[j].value, name) != Some(UP)
    ensures !Sends(AfterPolls(polls[..i]), polls[i], ServiceDown(name))
  {
    if polls[i].Some? {
      AnswersArePolled(polls[..i]);
      NotesInClosedForm(polls[..i], polls[i].value, name);
    }
  }

  lemma {:induction false} AnswersArePolled(polls: Polls)
    ensures forall k :: 0 <= k < |Answers(polls)| ==> Some(Answers(polls)[k]) in polls
    decreases |polls|
  {
    if polls != [] {
      var n := |polls| - 1;
      AnswersArePolled(polls[..n]);
      assert polls == polls[..n] + [polls[n]];
    }
  }

  /** The notes about the server itself that a run of polls sends, in order. */
  ghost function ServerNotes(polls: Polls): seq<Note> {
    if polls == [] then []
    else
      var n := |polls| - 1;
      var before, s := ServerNotes(polls[..n]), AfterPolls(polls[..n]);
      if Sends(s, polls[n], Unreachable) then before + [Unreachable]
      else if Sends(s, polls[n], Recovered) then before + [Recovered]
      else before
  }

  /**
    In every run the server's notes alternate, starting with unreachable; the last one
    is unreachable exactly if the last poll had no answer, so each is sent at the first
    poll of its stretch.
  */
  lemma {:induction false} OutageNotesAlternate(polls: Polls)
    ensures forall i :: 0 <= i < |ServerNotes(polls)| ==>
              ServerNotes(polls)[i] == if i % 2 == 0 then Unreachable else Recovered
    ensures |ServerNotes(polls)| % 2 == 1 <==> polls != [] && polls[|polls| - 1].None?
    ensures AfterPolls(polls).alerted <==> polls != [] && polls[|polls| - 1].None?
    decreases |polls|
  {
    if polls != [] {
      OutageNotesAlternate(polls[..|polls| - 1]);
    }
  }
}
