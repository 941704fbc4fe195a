/**
  The deployment-status watcher (discord-collectors/watcher.py): parsing one answer, and
  the debounced state machine that turns answers into notes.
*/
module Watcher {
  import opened Prelude

  datatype Status = UP | DOWN

  type Services = map<string, Status>

  datatype Note =
    | ServiceUp(name: string)
    | ServiceDown(name: string)
    | Disappeared(name: string)
    | Unreachable
    | Recovered

  // ---- one answer ----

  /** A listed deployment; entries that are no objects, or have no name, are skipped. */
  datatype Entry = NotAnObject | Entry(name: string, up: bool)

  predicate Names(entry: Entry, name: string) {
    entry.Entry? && entry.name == name && name != ""
  }

  /** Every named deployment is reported once, and an UP entry wins over any number of DOWN ones. */
  method ParseServices(entries: seq<Entry>) returns (services: Services)
    ensures forall n :: n in services <==> n != "" && exists up :: Entry(n, up) in entries
    ensures forall n :: n in services ==> (services[n] == UP <==> Entry(n, true) in entries)
  {
    services := map[];
    for i := 0 to |entries|
      invariant forall n :: n in services <==> exists j :: 0 <= j < i && Names(entries[j], n)
      invariant forall n :: n in services ==>
                  (services[n] == UP <==> exists j :: 0 <= j < i && Names(entries[j], n) && entries[j].up)
    {
      var entry := entries[i];
      if entry.Entry? && entry.name != "" {
        if entry.name in services && services[entry.name] == UP {
          continue;
        }
        services := services[entry.name := if entry.up then UP else DOWN];
      }
    }
  }

  // ---- one name ----

  /** What the watcher holds for one name. */
  datatype Slot = Slot(status: Option<Status>, count: Option<nat>)

  const NOTHING := Slot(None, None)

  /** The slot after an answer that reports `now` for its name. */
  function NextSlot(slot: Slot, now: Option<Status>): Slot {
    match (slot.status, now)
    case (None, None) => slot
    case (None, Some(UP)) => slot.(status := Some(UP))
    case (None, Some(DOWN)) => Slot(Some(DOWN), Some(1))
    case (Some(_), None) => NOTHING
    case (Some(UP), Some(UP)) => slot.(count := None)
    case (Some(UP), Some(DOWN)) =>
      var c := (if slot.count.Some? then slot.count.value else 0) + 1;
      if c >= 2 then Slot(Some(DOWN), None) else slot.(count := Some(c))
    case (Some(DOWN), Some(UP)) => Slot(Some(UP), None)
    case (Some(DOWN), Some(DOWN)) => slot
  }

  /** The note sent about one name, if any. */
  function NoteFor(name: string, slot: Slot, now: Option<Status>): Option<Note> {
    match (slot.status, now)
    case (None, Some(UP)) => Some(ServiceUp(name))
    case (Some(_), None) => Some(Disappeared(name))
    case (Some(UP), Some(DOWN)) => if NextSlot(slot, now).status == Some(DOWN) then Some(ServiceDown(name)) else None
    case (Some(DOWN), Some(UP)) => Some(ServiceUp(name))
    case _ => None
  }

  // ---- the whole watcher ----

  datatype State = State(services: Services, counter: map<string, nat>, alerted: bool, initialised: bool)

  const FRESH := State(map[], map[], false, false)

  function Get<T>(m: map<string, T>, name: string): Option<T> {
    if name in m then Some(m[name]) else None
  }

  function SlotOf(s: State, name: string): Slot {
    Slot(Get(s.services, name), Get(s.counter, name))
  }

  function NextOf(s: State, answer: Services, name: string): Slot {
    NextSlot(SlotOf(s, name), Get(answer, name))
  }

  /** The state after a poll; None is a poll without an answer. */
  function AfterPoll(s: State, poll: Option<Services>): State {
    match poll
    case None => s.(alerted := true)
    case Some(answer) =>
      if !s.initialised then State(answer, map[], false, true)
      else
        State(
          map n | n in answer && NextOf(s, answer, n).status.Some? :: NextOf(s, answer, n).status.value,
          map n | n in s.counter.Keys + answer.Keys &&
                NextOf(s, answer, n).count.Some? :: NextOf(s, answer, n).count.value,
          false, true)
  }

  /** The notes a poll sends. */
  ghost predicate Sends(s: State, poll: Option<Services>, note: Note) {
    match note
    case Unreachable => poll.None? && !s.alerted
    case Recovered => poll.Some? && s.alerted
    case _ =>
      && poll.Some? && s.initialised
      && NoteFor(note.name, SlotOf(s, note.name), Get(poll.value, note.name)) == Some(note)
  }

  /** Every slot moves by NextSlot. */
  lemma SlotsMove(s: State, answer: Services, name: string)
    requires s.initialised
    ensures SlotOf(AfterPoll(s, Some(answer)), name) == NextOf(s, answer, name)
  {}

  lemma SameSlots(a: State, b: State)
    requires forall n :: SlotOf(a, n) == SlotOf(b, n)
    requires a.alerted == b.alerted && a.initialised == b.initialised
    ensures a == b
  {
    forall n ensures (n in a.services <==> n in b.services) && (n in a.services ==> a.services[n] == b.services[n]) {
      assert SlotOf(a, n) == SlotOf(b, n);
    }
    forall n ensures (n in a.counter <==> n in b.counter) && (n in a.counter ==> a.counter[n] == b.counter[n]) {
      assert SlotOf(a, n) == SlotOf(b, n);
    }
    assert a.services == b.services && a.counter == b.counter;
  }

  /** The three loops over names: those that are new, those that are gone, those that stay. */
  datatype Pass = New | Gone | Kept

  function PassOf(known: Services, answer: Services, name: string): Option<Pass> {
    if name in answer then Some(if name in known then Kept else New)
    else if name in known then Some(Gone)
    else None
  }

  lemma DistinctConcat<T>(a: seq<T>, b: seq<T>)
    requires Distinct(a) && Distinct(b) && forall x :: x in a ==> x !in b
    ensures Distinct(a + b)
  {
    forall i, j | 0 <= i < j < |a + b| ensures (a + b)[i] != (a + b)[j] {
      if i < |a| <= j {
        assert (a + b)[i] in a && (a + b)[j] in b;
      }
    }
  }

  predicate Picked(pass: Pass, known: Services, answer: Services, name: string) {
    PassOf(known, answer, name) == Some(pass)
  }

  /** s is `was` with the picked names among `done` moved on. */
  ghost predicate Moved(was: State, s: State, pass: Pass, known: Services, answer: Services, done: seq<string>) {
    forall n :: SlotOf(s, n) ==
      if n in done && Picked(pass, known, answer, n) then NextOf(was, answer, n) else SlotOf(was, n)
  }

  ghost predicate Noted(was: State, notes: seq<Note>, pass: Pass, known: Services, answer: Services,
                        done: seq<string>) {
    forall note :: note in notes <==> NotedBy(was, note, pass, known, answer, done)
  }

  ghost predicate NotedBy(was: State, note: Note, pass: Pass, known: Services, answer: Services, done: seq<string>) {
    && (note.ServiceUp? || note.ServiceDown? || note.Disappeared?)
    && note.name in done && Picked(pass, known, answer, note.name)
    && NoteFor(note.name, SlotOf(was, note.name), Get(answer, note.name)) == Some(note)
  }

  lemma OneMoreMoved(was: State, s: State, t: State, pass: Pass, known: Services, answer: Services,
                     done: seq<string>, name: string)
    requires Moved(was, s, pass, known, answer, done) && name !in done
    requires forall n :: n != name ==> SlotOf(t, n) == SlotOf(s, n)
    requires SlotOf(t, name) == if Picked(pass, known, answer, name) then NextOf(s, answer, name) else SlotOf(s, name)
    ensures Moved(was, t, pass, known, answer, done + [name])
  {
    forall n ensures SlotOf(t, n) ==
      if n in done + [name] && Picked(pass, known, answer, n) then NextOf(was, answer, n) else SlotOf(was, n)
    {
      assert n in done + [name] <==> n in done || n == name;
    }
  }

  lemma OneMoreNoted(was: State, notes: seq<Note>, more: seq<Note>, pass: Pass, known: Services, answer: Services,
                     done: seq<string>, name: string)
    requires Noted(was, notes, pass, known, answer, done) && Distinct(notes) && name !in done
    requires more == if !Picked(pass, known, answer, name) then []
                     else match NoteFor(name, SlotOf(was, name), Get(answer, name))
                          case None => []
                          case Some(note) => [note]
    ensures Noted(was, notes + more, pass, known, answer, done + [name]) && Distinct(notes + more)
  {
    forall note ensures note in notes + more <==> NotedBy(was, note, pass, known, answer, done + [name]) {
      assert note in notes + more <==> note in notes || note in more;
    }
    if more != [] {
      assert more[0] !in notes by { assert !NotedBy(was, more[0], pass, known, answer, done); }
    }
  }

  /** The three passes together move every slot once and send every note. */
  lemma ThreePasses(was: State, s1: State, s2: State, s3: State, answer: Services, order: seq<string>)
    requires was.initialised && s3.initialised && !s3.alerted
    requires forall n :: n in was.services || n in answer ==> n in order
    requires Moved(was, s1, New, was.services, answer, order)
    requires Moved(s1, s2, Gone, was.services, answer, order)
    requires Moved(s2, s3, Kept, was.services, answer, order)
    ensures s3 == AfterPoll(was, Some(answer))
    ensures forall n :: Picked(Gone, was.services, answer, n) ==> SlotOf(s1, n) == SlotOf(was, n)
    ensures forall n :: Picked(Kept, was.services, answer, n) ==> SlotOf(s2, n) == SlotOf(was, n)
  {
    forall n ensures SlotOf(s3, n) == SlotOf(AfterPoll(was, Some(answer)), n)
      && (Picked(Gone, was.services, answer, n) ==> SlotOf(s1, n) == SlotOf(was, n))
      && (Picked(Kept, was.services, answer, n) ==> SlotOf(s2, n) == SlotOf(was, n))
    {
      SlotsMove(was, answer, n);
      if n !in was.services && n !in answer {
        assert NextOf(was, answer, n) == SlotOf(was, n);
      }
    }
    SameSlots(s3, AfterPoll(was, Some(answer)));
  }

  /** Slots and notes about names do not depend on the unreachable flag. */
  lemma FlagApart(was: State, s0: State, s1: State, news: seq<Note>, known: Services, answer: Services,
                  order: seq<string>)
    requires s0 == was.(alerted := false)
    requires Moved(s0, s1, New, known, answer, order) && Noted(s0, news, New, known, answer, order)
    ensures Moved(was, s1, New, known, answer, order) && Noted(was, news, New, known, answer, order)
  {
    assert forall n :: SlotOf(s0, n) == SlotOf(was, n);
    forall note ensures note in news <==> NotedBy(was, note, New, known, answer, order) {
      assert NotedBy(was, note, New, known, answer, order) <==> NotedBy(s0, note, New, known, answer, order);
    }
  }

  lemma ThreeNotes(was: State, s1: State, s2: State, first: seq<Note>, news: seq<Note>, gone: seq<Note>,
                   kept: seq<Note>,
                   answer: Services, order: seq<string>)
    requires was.initialised && first == (if was.alerted then [Recovered] else [])
    requires forall n :: n in was.services || n in answer ==> n in order
    requires Noted(was, news, New, was.services, answer, order)
    requires Noted(s1, gone, Gone, was.services, answer, order)
    requires Noted(s2, kept, Kept, was.services, answer, order)
    requires forall n :: Picked(Gone, was.services, answer, n) ==> SlotOf(s1, n) == SlotOf(was, n)
    requires forall n :: Picked(Kept, was.services, answer, n) ==> SlotOf(s2, n) == SlotOf(was, n)
    ensures forall note :: note in first + news + gone + kept <==> Sends(was, Some(answer), note)
  {
    forall note ensures note in first + news + gone + kept <==> Sends(was, Some(answer), note) {
      assert note in first + news + gone + kept <==> note in first || note in news || note in gone || note in kept;
    }
  }

  /** The passes pick different names, so no note is sent twice. */
  lemma DistinctTogether(was: State, s1: State, s2: State, first: seq<Note>, news: seq<Note>, gone: seq<Note>,
                         kept: seq<Note>, answer: Services, order: seq<string>)
    requires first == (if was.alerted then [Recovered] else [])
    requires Noted(was, news, New, was.services, answer, order) && Distinct(news)
    requires Noted(s1, gone, Gone, was.services, answer, order) && Distinct(gone)
    requires Noted(s2, kept, Kept, was.services, answer, order) && Distinct(kept)
    ensures Distinct(first + news + gone + kept)
  {
    DistinctConcat(first, news);
    DistinctConcat(first + news, gone);
    DistinctConcat(first + news + gone, kept);
  }

  class WatcherState {
    var services: Services
    var counter: map<string, nat>
    var serverUnreachableAlerted: bool
    var initialised: bool

    constructor ()
      ensures View() == FRESH
    {
      services, counter, serverUnreachableAlerted, initialised := map[], map[], false, false;
    }

    function View(): State
      reads this
    {
      State(services, counter, serverUnreachableAlerted, initialised)
    }

    /** The fields of one name move by NextSlot, those of all others stay. */
    method Update(name: string, answer: Services) returns (note: Option<Note>)
      requires name in services || name in answer
      modifies this`services, this`counter
      ensures SlotOf(View(), name) == old(NextOf(View(), answer, name))
      ensures forall n :: n != name ==> SlotOf(View(), n) == old(SlotOf(View(), n))
      ensures note == old(NoteFor(name, SlotOf(View(), name), Get(answer, name)))
      ensures name !in answer ==> name !in services && name !in counter && note == Some(Disappeared(name))
      ensures name in answer && name !in old(services) ==>
                && services == old(services)[name := answer[name]]
                && counter == (if answer[name] == UP then old(counter) else old(counter)[name := 1])
                && note == (if answer[name] == UP then Some(ServiceUp(name)) else None)
      ensures name in answer && name in old(services) && old(services)[name] == answer[name] ==>
                && services == old(services) && note == None
                && counter == if answer[name] == UP then old(counter) - {name} else old(counter)
      ensures name in answer && name in old(services) && old(services)[name] == DOWN && answer[name] == UP ==>
                && services == old(services)[name := UP] && counter == old(counter) - {name}
                && note == Some(ServiceUp(name))
      ensures name in answer && name in old(services) && old(services)[name] == UP && answer[name] == DOWN ==>
                if name !in old(counter) || old(counter)[name] == 0
                then services == old(services) && counter == old(counter)[name := 1] && note == None
                else
                  && services == old(services)[name := DOWN] && counter == old(counter) - {name}
                  && note == Some(ServiceDown(name))
    {
      note := None;
      if name !in services {
        services := services[name := answer[name]];
        if answer[name] == UP {
          note := Some(ServiceUp(name));
        } else {
          counter := counter[name := 1];
        }
      } else if name !in answer {
        note := Some(Disappeared(name));
        services := services - {name};
        counter := counter - {name};
      } else if services[name] == UP && answer[name] == DOWN {
        counter := counter[name := (if name in counter then counter[name] else 0) + 1];
        if counter[name] >= 2 {
          note := Some(ServiceDown(name));
          services := services[name := DOWN];
          counter := counter - {name};
        }
      } else if services[name] == UP {
        counter := counter - {name};
      } else if answer[name] == UP {
        note := Some(ServiceUp(name));
        services := services[name := UP];
        counter := counter - {name};
      }
    }

    /** Every name of one pass, in the order given. */
    method RunPass(pass: Pass, known: Services, answer: Services, order: seq<string>) returns (notes: seq<Note>)
      requires Distinct(order)
      requires forall n :: Picked(pass, known, answer, n) ==> (n in services <==> n in known)
      modifies this`services, this`counter
      ensures Moved(old(View()), View(), pass, known, answer, order)
      ensures Noted(old(View()), notes, pass, known, answer, order) && Distinct(notes)
    {
      notes := [];
      ghost var was := View();
      for i := 0 to |order|
        invariant Moved(was, View(), pass, known, answer, order[..i])
        invariant Noted(was, notes, pass, known, answer, order[..i]) && Distinct(notes)
      {
        var name := order[i];
        ghost var before := View();
        assert order[..i + 1] == order[..i] + [name];
        assert SlotOf(before, name) == SlotOf(was, name);
        var more := [];
        if PassOf(known, answer, name) == Some(pass) {
          var note := Update(name, answer);
          if note.Some? {
            more := [note.value];
          }
        }
        OneMoreMoved(was, before, View(), pass, known, answer, order[..i], name);
        OneMoreNoted(was, notes, more, pass, known, answer, order[..i], name);
        notes := notes + more;
      }
      assert order[..|order|] == order;
    }

    /** One poll; the three sets of names are walked in an arbitrary order. */
    method Process(poll: Option<Services>, order: seq<string>) returns (notes: seq<Note>)
      requires Distinct(order)
      requires forall n :: n in services || (poll.Some? && n in poll.value) ==> n in order
      modifies this
      ensures View() == old(AfterPoll(View(), poll))
      ensures forall note :: note in notes <==> old(Sends(View(), poll, note))
      ensures Distinct(notes)
    {
      notes := [];
      if poll.None? {
        if !serverUnreachableAlerted {
          notes := [Unreachable];
          serverUnreachableAlerted := true;
        }
        return;
      }
      ghost var was := View();
      if serverUnreachableAlerted {
        notes := [Recovered];
        serverUnreachableAlerted := false;
      }
      if !initialised {
        services, counter, initialised := poll.value, map[], true;
        return;
      }
      var known := services;
      ghost var s0 := View();
      var news := RunPass(New, known, poll.value, order);
      ghost var s1 := View();
      var gone := RunPass(Gone, known, poll.value, order);
      ghost var s2 := View();
      var kept := RunPass(Kept, known, poll.value, order);
      FlagApart(was, s0, s1, news, known, poll.value, order);
      ThreePasses(was, s1, s2, View(), poll.value, order);
      ThreeNotes(was, s1, s2, notes, news, gone, kept, poll.value, order);
      DistinctTogether(was, s1, s2, notes, news, gone, kept, poll.value, order);
      notes := notes + news + gone + kept;
    }
  }
}
