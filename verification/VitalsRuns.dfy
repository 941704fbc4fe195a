/**
  What the alert gate says over whole histories of beats.
*/
module VitalsRuns {
  import opened Prelude
  import opened Vitals

  const EMPTY := Gate(map[], map[])

  datatype Input = Input(obs: seq<Obs>, now: int)

  ghost predicate Orderly(beats: seq<Input>) {
    forall i, j :: 0 <= i < j < |beats| ==> Day(beats[i].now) <= Day(beats[j].now)
  }

  function Then(before: Result, r: Result): Result {
    Result(before.alerts + r.alerts, before.clears + r.clears, r.next)
  }

  /** The gate as it is, over a history. */
  function Pruned(g: Gate, beats: seq<Input>): Result {
    if beats == [] then Result([], [], g)
    else
      var before, last := Pruned(g, beats[..|beats| - 1]), beats[|beats| - 1];
      Then(before, Beat(before.next, last.obs, last.now))
  }

  /** A gate that forgets nothing. */
  function Unpruned(g: Gate, beats: seq<Input>): Result {
    if beats == [] then Result([], [], g)
    else
      var before, last := Unpruned(g, beats[..|beats| - 1]), beats[|beats| - 1];
      Then(before, ObserveAll(before.next, last.obs, last.now))
  }

  // ---- pruning is invisible ----

  /** `p` agrees with `f` on everything that can still matter today. */
  ghost predicate Sim(p: Gate, f: Gate, today: int) {
    && p.active == f.active
    && (forall k :: k in f.alerted ==> f.alerted[k] <= today)
    && (forall k :: k in p.alerted ==> k in f.alerted && p.alerted[k] == f.alerted[k])
    && (forall k :: k in f.alerted && f.alerted[k] == today ==> k in p.alerted)
  }

  lemma {:induction false} ObserveAllSim(p: Gate, f: Gate, obs: seq<Obs>, now: int)
    requires Sim(p, f, Day(now))
    ensures var rp, rf := ObserveAll(p, obs, now), ObserveAll(f, obs, now);
            rp.alerts == rf.alerts && rp.clears == rf.clears && Sim(rp.next, rf.next, Day(now))
  {
    if obs != [] {
      ObserveAllSim(p, f, obs[..|obs| - 1], now);
    }
  }

  /** For any history in which days do not run backwards: dropping old days changes no alert and no clear. */
  lemma {:induction false} PrunedRefinesUnpruned(g: Gate, beats: seq<Input>)
    requires Orderly(beats) && g == EMPTY
    ensures Pruned(g, beats).alerts == Unpruned(g, beats).alerts
    ensures Pruned(g, beats).clears == Unpruned(g, beats).clears
    ensures beats != [] ==> Sim(Pruned(g, beats).next, Unpruned(g, beats).next, Day(beats[|beats| - 1].now))
    ensures beats == [] ==> Pruned(g, beats) == Unpruned(g, beats) == Result([], [], g)
  {
    if beats != [] {
      var n := |beats| - 1;
      PrunedRefinesUnpruned(g, beats[..n]);
      var p, f := Pruned(g, beats[..n]).next, Unpruned(g, beats[..n]).next;
      assert Sim(p, f, Day(beats[n].now));
      ObserveAllSim(p, f, beats[n].obs, beats[n].now);
    }
  }

  // ---- what the gate says, without a gate ----

  /** One observation of a history, with the time of its beat. */
  datatype Item = Item(obs: Obs, now: int)

  function ItemsOf(obs: seq<Obs>, now: int): seq<Item> {
    seq(|obs|, i requires 0 <= i < |obs| => Item(obs[i], now))
  }

  function Items(beats: seq<Input>): seq<Item> {
    if beats == [] then []
    else Items(beats[..|beats| - 1]) + ItemsOf(beats[|beats| - 1].obs, beats[|beats| - 1].now)
  }

  predicate Breaches(x: Item, key: string) {
    x.obs.key == key && x.obs.state.Breach?
  }

  predicate Clears(x: Item, key: string) {
    x.obs.key == key && x.obs.state.Clear?
  }

  /** The first breach of its signal on its UTC day. */
  ghost predicate FirstOfDay(items: seq<Item>, i: nat)
    requires i < |items|
  {
    && items[i].obs.state.Breach?
    && forall j :: 0 <= j < i ==> !(Breaches(items[j], items[i].obs.key) && Day(items[j].now) == Day(items[i].now))
  }

  /** Before position i the signal breached at j and has not cleared since. */
  ghost predicate OpenSince(items: seq<Item>, i: nat, key: string, j: nat)
    requires i <= |items|
  {
    && j < i && Breaches(items[j], key)
    && forall m :: j < m < i ==> !Clears(items[m], key)
  }

  ghost predicate Open(items: seq<Item>, i: nat, key: string)
    requires i <= |items|
  {
    exists j :: OpenSince(items, i, key, j)
  }

  ghost function ExpectedAlerts(items: seq<Item>): seq<Alert> {
    if items == [] then []
    else
      var i := |items| - 1;
      ExpectedAlerts(items[..i]) +
      if FirstOfDay(items, i) then [Alert(items[i].obs.key, items[i].obs.state.text)] else []
  }

  ghost function ExpectedClears(items: seq<Item>): seq<Recovery> {
    if items == [] then []
    else
      var i := |items| - 1;
      ExpectedClears(items[..i]) +
      if items[i].obs.state.Clear? && Open(items, i, items[i].obs.key)
      then [Recovery(items[i].obs.key, items[i].obs.state.clearText)] else []
  }

  ghost predicate OrderlyItems(items: seq<Item>) {
    forall i, j :: 0 <= i < j < |items| ==> Day(items[i].now) <= Day(items[j].now)
  }

  /** The gate's memory, read off the history. */
  ghost predicate Remembers(g: Gate, items: seq<Item>) {
    && (forall k, j :: 0 <= j < |items| && Breaches(items[j], k) ==>
          k in g.alerted && Day(items[j].now) <= g.alerted[k])
    && (forall k :: k in g.alerted ==>
          exists j :: 0 <= j < |items| && Breaches(items[j], k) && Day(items[j].now) == g.alerted[k])
    && (forall k :: k in g.active <==> Open(items, |items|, k))
  }

  lemma OpenAfter(items: seq<Item>, x: Item, k: string)
    ensures Open(items + [x], |items| + 1, k) <==> Breaches(x, k) || (Open(items, |items|, k) && !Clears(x, k))
  {
    var more, n := items + [x], |items|;
    forall j: nat | j < n ensures OpenSince(more, n + 1, k, j) <==> OpenSince(items, n, k, j) && !Clears(x, k) {
      assert more[n] == x;
      assert forall m :: j < m < n ==> more[m] == items[m];
    }
    assert OpenSince(more, n + 1, k, n) <==> Breaches(x, k);
    if Open(more, n + 1, k) {
      var j: nat :| OpenSince(more, n + 1, k, j);
      assert j < n ==> OpenSince(items, n, k, j);
    }
    if Open(items, n, k) {
      var j: nat :| OpenSince(items, n, k, j);
      assert !Clears(x, k) ==> OpenSince(more, n + 1, k, j);
    }
  }

  lemma OpenPrefix(items: seq<Item>, more: seq<Item>, i: nat, k: string)
    requires i <= |items| && items <= more
    ensures Open(items, i, k) <==> Open(more, i, k)
  {
    forall j ensures OpenSince(items, i, k, j) <==> OpenSince(more, i, k, j) {}
  }

  lemma AlertsAfter(g: Gate, items: seq<Item>, x: Item)
    requires Remembers(g, items) && OrderlyItems(items + [x])
    ensures FirstOfDay(items + [x], |items|) <==>
            x.obs.state.Breach? && !(x.obs.key in g.alerted && g.alerted[x.obs.key] == Day(x.now))
  {
    var more := items + [x];
    assert forall j :: 0 <= j < |items| ==> more[j] == items[j];
    assert more[|items|] == x;
    if x.obs.key in g.alerted && g.alerted[x.obs.key] == Day(x.now) {
      var j :| 0 <= j < |items| && Breaches(items[j], x.obs.key) && Day(items[j].now) == g.alerted[x.obs.key];
      assert Breaches(more[j], more[|items|].obs.key);
    } else if x.obs.state.Breach? {
      forall j | 0 <= j < |items| && Breaches(more[j], x.obs.key) ensures Day(more[j].now) != Day(x.now) {
        assert Breaches(items[j], x.obs.key);
        var j2 :| 0 <= j2 < |items| && Breaches(items[j2], x.obs.key) && Day(items[j2].now) == g.alerted[x.obs.key];
        assert Day(more[j2].now) <= Day(more[|items|].now);
      }
    }
  }

  lemma BreachesAfter(items: seq<Item>, x: Item)
    ensures var more := items + [x];
            && more[|items|] == x && (forall j :: 0 <= j < |items| ==> more[j] == items[j])
  {}

  /** The stored day is the last day of a breach: none is later ... */
  lemma DayIsLast(g: Gate, items: seq<Item>, x: Item, k: string, j: nat)
    requires Remembers(g, items) && OrderlyItems(items + [x])
    requires j <= |items| && Breaches((items + [x])[j], k)
    ensures var next := Observe(g, x.obs, x.now).next; k in next.alerted && Day((items + [x])[j].now) <= next.alerted[k]
  {
    var more := items + [x];
    BreachesAfter(items, x);
    if j < |items| {
      assert Breaches(items[j], k);
      assert Day(more[j].now) <= Day(more[|items|].now);
    }
  }

  /** ... and some breach has it. */
  lemma DayIsBreach(g: Gate, items: seq<Item>, x: Item, k: string)
    requires Remembers(g, items) && k in Observe(g, x.obs, x.now).next.alerted
    ensures var more, next := items + [x], Observe(g, x.obs, x.now).next;
            exists j :: 0 <= j < |more| && Breaches(more[j], k) && Day(more[j].now) == next.alerted[k]
  {
    var more := items + [x];
    BreachesAfter(items, x);
    if Breaches(x, k) {
      assert Breaches(more[|items|], k);
    } else {
      var j :| 0 <= j < |items| && Breaches(items[j], k) && Day(items[j].now) == g.alerted[k];
      assert Breaches(more[j], k);
    }
  }

  lemma ObserveRemembers(g: Gate, items: seq<Item>, x: Item)
    requires Remembers(g, items) && OrderlyItems(items + [x])
    ensures Remembers(Observe(g, x.obs, x.now).next, items + [x])
  {
    var more, next := items + [x], Observe(g, x.obs, x.now).next;
    forall k, j | 0 <= j < |more| && Breaches(more[j], k)
      ensures k in next.alerted && Day(more[j].now) <= next.alerted[k]
    {
      DayIsLast(g, items, x, k, j);
    }
    forall k | k in next.alerted
      ensures exists j :: 0 <= j < |more| && Breaches(more[j], k) && Day(more[j].now) == next.alerted[k]
    {
      DayIsBreach(g, items, x, k);
    }
    forall k ensures k in next.active <==> Open(more, |more|, k) {
      OpenAfter(items, x, k);
    }
  }

  /** One observation says what the history so far expects. */
  lemma ObserveIsExpected(g: Gate, items: seq<Item>, x: Item)
    requires Remembers(g, items) && OrderlyItems(items + [x])
    ensures var r, more := Observe(g, x.obs, x.now), items + [x];
            && Remembers(r.next, more)
            && ExpectedAlerts(more) == ExpectedAlerts(items) + r.alerts
            && ExpectedClears(more) == ExpectedClears(items) + r.clears
  {
    var more := items + [x];
    assert more[..|more| - 1] == items;
    ObserveRemembers(g, items, x);
    AlertsAfter(g, items, x);
    OpenPrefix(items, more, |items|, x.obs.key);
  }

  /** A beat of the unpruned gate, item by item. */
  lemma {:induction false} BeatIsExpected(g: Gate, items: seq<Item>, obs: seq<Obs>, now: int)
    requires Remembers(g, items) && OrderlyItems(items + ItemsOf(obs, now))
    ensures var r, more := ObserveAll(g, obs, now), items + ItemsOf(obs, now);
            && Remembers(r.next, more)
            && ExpectedAlerts(more) == ExpectedAlerts(items) + r.alerts
            && ExpectedClears(more) == ExpectedClears(items) + r.clears
  {
    if obs == [] {
      assert items + ItemsOf(obs, now) == items;
    } else {
      var n := |obs| - 1;
      var before, x := items + ItemsOf(obs[..n], now), Item(obs[n], now);
      LastItem(items, obs, now);
      BeatIsExpected(g, items, obs[..n], now);
      var r := ObserveAll(g, obs[..n], now);
      ObserveIsExpected(r.next, before, x);
      ObserveAllEnds(g, obs, now, Observe(r.next, x.obs, now), ExpectedAlerts(items), ExpectedClears(items));
    }
  }

  lemma ObserveAllEnds(g: Gate, obs: seq<Obs>, now: int, last: Result, alerts: seq<Alert>, clears: seq<Recovery>)
    requires obs != [] && last == Observe(ObserveAll(g, obs[..|obs| - 1], now).next, obs[|obs| - 1], now)
    ensures var r, all := ObserveAll(g, obs[..|obs| - 1], now), ObserveAll(g, obs, now);
            && all.next == last.next
            && alerts + all.alerts == (alerts + r.alerts) + last.alerts
            && clears + all.clears == (clears + r.clears) + last.clears
  {
    var r := ObserveAll(g, obs[..|obs| - 1], now);
    Associate(alerts, r.alerts, last.alerts);
    Associate(clears, r.clears, last.clears);
  }

  lemma LastItem(items: seq<Item>, obs: seq<Obs>, now: int)
    requires obs != []
    ensures var before := items + ItemsOf(obs[..|obs| - 1], now);
            && items + ItemsOf(obs, now) == before + [Item(obs[|obs| - 1], now)]
            && (OrderlyItems(items + ItemsOf(obs, now)) ==> OrderlyItems(before))
  {
    var before, more := items + ItemsOf(obs[..|obs| - 1], now), items + ItemsOf(obs, now);
    assert more == before + [Item(obs[|obs| - 1], now)];
    assert forall i :: 0 <= i < |before| ==> before[i] == more[i];
  }

  lemma {:induction false} ItemsOrderly(beats: seq<Input>)
    requires Orderly(beats)
    ensures OrderlyItems(Items(beats))
    ensures forall x :: x in Items(beats) ==> exists b :: b in beats && x.now == b.now
  {
    if beats != [] {
      var n := |beats| - 1;
      ItemsOrderly(beats[..n]);
      forall x | x in Items(beats) ensures exists b :: b in beats && x.now == b.now {
        if x in Items(beats[..n]) {
          var b :| b in beats[..n] && x.now == b.now;
        } else {
          assert beats[n] in beats && x.now == beats[n].now;
        }
      }
      var past := Items(beats[..n]);
      forall i, j | 0 <= i < j < |Items(beats)|
        ensures Day(Items(beats)[i].now) <= Day(Items(beats)[j].now)
      {
        if i < |past| <= j {
          assert Items(beats)[i] == past[i] && past[i] in past;
          var b :| b in beats[..n] && past[i].now == b.now;
        }
      }
    }
  }

  /**
    What is said, in closed form: an alert for exactly the first breach of each signal
    on each UTC day, a recovery line for exactly the clears of an open episode, in the
    order they were observed. With PrunedRefinesUnpruned this is what the real gate says.
  */
  lemma {:induction false} GateInClosedForm(beats: seq<Input>)
    requires Orderly(beats)
    ensures var r := Unpruned(EMPTY, beats);
            && r.alerts == ExpectedAlerts(Items(beats)) && r.clears == ExpectedClears(Items(beats))
            && Remembers(r.next, Items(beats))
  {
    if beats == [] {
      assert forall k :: !Open([], 0, k);
    } else {
      var n := |beats| - 1;
      GateInClosedForm(beats[..n]);
      ItemsOrderly(beats);
      BeatIsExpected(Unpruned(EMPTY, beats[..n]).next, Items(beats[..n]), beats[n].obs, beats[n].now);
    }
  }

  // ---- what the document holds ----

  /** `p` has of `f` all of today and yesterday, and nothing else than `f` has. */
  ghost predicate TwoDays(p: Gate, f: Gate, today: int) {
    && p.active == f.active
    && (forall k :: k in f.alerted ==> f.alerted[k] <= today)
    && (forall k :: k in p.alerted ==> k in f.alerted && p.alerted[k] == f.alerted[k])
    && (forall k :: k in f.alerted && f.alerted[k] >= today - 1 ==> k in p.alerted)
  }

  lemma {:induction false} ObserveAllTwoDays(p: Gate, f: Gate, obs: seq<Obs>, now: int)
    requires TwoDays(p, f, Day(now))
    ensures TwoDays(ObserveAll(p, obs, now).next, ObserveAll(f, obs, now).next, Day(now))
  {
    if obs != [] {
      ObserveAllTwoDays(p, f, obs[..|obs| - 1], now);
    }
  }

  lemma {:induction false} PrunedHasTwoDays(beats: seq<Input>)
    requires Orderly(beats) && beats != []
    ensures var p, f, today := Pruned(EMPTY, beats).next, Unpruned(EMPTY, beats).next, Day(beats[|beats| - 1].now);
            TwoDays(p, f, today) && forall k :: k in p.alerted ==> p.alerted[k] >= today - 1
  {
    var n := |beats| - 1;
    var p, f := Pruned(EMPTY, beats[..n]).next, Unpruned(EMPTY, beats[..n]).next;
    if n > 0 {
      PrunedHasTwoDays(beats[..n]);
      assert Day(beats[..n][n - 1].now) <= Day(beats[n].now);
    }
    ObserveAllTwoDays(p, f, beats[n].obs, beats[n].now);
    PruneKeepsTwoDays(ObserveAll(p, beats[n].obs, beats[n].now).next, beats[n].now);
  }

  /** The signal breached today or yesterday. */
  ghost predicate BreachedLately(items: seq<Item>, key: string, today: int) {
    exists j :: 0 <= j < |items| && Breaches(items[j], key) && today - 1 <= Day(items[j].now)
  }

  /**
    The stored document, after any beats: a day for exactly the signals that breached
    today or yesterday, and an episode for exactly those that breached and have not
    cleared since.
  */
  lemma DocumentInClosedForm(beats: seq<Input>)
    requires Orderly(beats) && beats != []
    ensures var g, items, today := Pruned(EMPTY, beats).next, Items(beats), Day(beats[|beats| - 1].now);
            && (forall k :: k in g.alerted <==> BreachedLately(items, k, today))
            && (forall k :: k in g.active <==> Open(items, |items|, k))
  {
    PrunedHasTwoDays(beats);
    GateInClosedForm(beats);
    var g, f, items := Pruned(EMPTY, beats).next, Unpruned(EMPTY, beats).next, Items(beats);
    forall k ensures k in g.alerted <==> BreachedLately(items, k, Day(beats[|beats| - 1].now)) {
      if k in g.alerted {
        var j :| 0 <= j < |items| && Breaches(items[j], k) && Day(items[j].now) == f.alerted[k];
      }
    }
  }

  // ---- a network that fails ----

  datatype Try = Try(input: Input, net: Network)

  /** The lane after some tries: its document, the beats it persisted, and everything the channel got. */
  datatype Lane = Lane(gate: Gate, kept: seq<Input>, announced: set<(string, int)>, said: Result)

  function Days(alerts: seq<Alert>, day: int): set<(string, int)> {
    set a | a in alerts :: (a.key, day)
  }

  /** Whether a try persists: it saves, and it had nothing to post or could post it. */
  predicate Persists(g: Gate, t: Try) {
    var r := Beat(g, t.input.obs, t.input.now);
    t.net.AllWell? || (t.net.PostFails? && r.alerts == [] && r.clears == [])
  }

  function LaneStep(l: Lane, t: Try): Lane {
    var (gate, posted) := VitalsBeat(l.gate, t.input.obs, t.input.now, t.net);
    var r := Beat(l.gate, t.input.obs, t.input.now);
    Lane(gate,
         if Persists(l.gate, t) then l.kept + [t.input] else l.kept,
         if posted.Some? then l.announced + Days(posted.value.alerts, Day(t.input.now)) else l.announced,
         if Persists(l.gate, t) then Then(l.said, r) else l.said)
  }

  function LaneRun(ts: seq<Try>): Lane {
    if ts == [] then Lane(EMPTY, [], {}, Result([], [], EMPTY))
    else LaneStep(LaneRun(ts[..|ts| - 1]), ts[|ts| - 1])
  }

  /**
    A beat whose post or save failed leaves no trace in the document: it is that of a
    gate that saw only the beats that persisted. What a beat posted before its save
    failed was heard all the same; LaneInClosedForm says what.
  */
  lemma {:induction false} FailedBeatsVanish(ts: seq<Try>)
    ensures var l := LaneRun(ts);
            l.said == Pruned(EMPTY, l.kept) && l.gate == l.said.next
  {
    if ts != [] {
      var l := LaneRun(ts[..|ts| - 1]);
      var t := ts[|ts| - 1];
      FailedBeatsVanish(ts[..|ts| - 1]);
      assert (l.kept + [t.input])[..|l.kept|] == l.kept;
    }
  }

  ghost predicate OrderlyTries(ts: seq<Try>) {
    forall i, j :: 0 <= i < j < |ts| ==> Day(ts[i].input.now) <= Day(ts[j].input.now)
  }

  lemma {:induction false} KeptOrderly(ts: seq<Try>)
    requires OrderlyTries(ts)
    ensures Orderly(LaneRun(ts).kept)
    ensures forall b :: b in LaneRun(ts).kept ==> exists t :: t in ts && t.input == b
  {
    if ts != [] {
      var n := |ts| - 1;
      var kept := LaneRun(ts[..n]).kept;
      KeptOrderly(ts[..n]);
      assert forall t :: t in ts[..n] ==> t in ts;
      assert ts[n] in ts;
      forall i | 0 <= i < |kept| ensures Day(kept[i].now) <= Day(ts[n].input.now) {
        assert kept[i] in kept;
        var t :| t in ts[..n] && t.input == kept[i];
      }
    }
  }

  /**
    What the persisted beats said, read off their observations: an alert at the first
    breach of a signal on a day, a recovery at the clears of an open episode.
  */
  lemma PersistedInClosedForm(ts: seq<Try>)
    requires OrderlyTries(ts)
    ensures var l := LaneRun(ts);
            l.said.alerts == ExpectedAlerts(Items(l.kept)) && l.said.clears == ExpectedClears(Items(l.kept))
  {
    KeptOrderly(ts);
    FailedBeatsVanish(ts);
    PrunedRefinesUnpruned(EMPTY, LaneRun(ts).kept);
    GateInClosedForm(LaneRun(ts).kept);
  }

  /** What the channel receives at the i-th try. */
  function Heard(ts: seq<Try>, i: nat): Option<Posted>
    requires i < |ts|
  {
    VitalsBeat(LaneRun(ts[..i]).gate, ts[i].input.obs, ts[i].input.now, ts[i].net).1
  }

  function AlertsOf(posted: Option<Posted>): seq<Alert> {
    if posted.Some? then posted.value.alerts else []
  }

  function ClearsOf(posted: Option<Posted>): seq<Recovery> {
    if posted.Some? then posted.value.clears else []
  }

  lemma BeatAddsItsLines(g: Gate, kept: seq<Input>, t: Input)
    requires Orderly(kept + [t]) && g == Pruned(EMPTY, kept).next
    ensures var r := Beat(g, t.obs, t.now);
            && ExpectedAlerts(Items(kept + [t])) == ExpectedAlerts(Items(kept)) + r.alerts
            && ExpectedClears(Items(kept + [t])) == ExpectedClears(Items(kept)) + r.clears
  {
    var all := kept + [t];
    assert all[..|kept|] == kept && all[|all| - 1] == t;
    assert Orderly(kept) by {
      assert forall i :: 0 <= i < |kept| ==> all[i] == kept[i];
    }
    PrunedRefinesUnpruned(EMPTY, kept);
    PrunedRefinesUnpruned(EMPTY, all);
    GateInClosedForm(kept);
    GateInClosedForm(all);
  }

  /**
    What the channel hears, try by try, with posts and saves failing anywhere: unless
    its post fails, exactly the alerts and recoveries that this beat adds to the closed
    form of the beats persisted before it, whether or not its own save then fails.
  */
  lemma LaneInClosedForm(ts: seq<Try>, i: nat)
    requires OrderlyTries(ts) && i < |ts|
    ensures var kept, said := LaneRun(ts[..i]).kept, Heard(ts, i);
            if ts[i].net.PostFails? then said == None
            else
              && ExpectedAlerts(Items(kept + [ts[i].input])) == ExpectedAlerts(Items(kept)) + AlertsOf(said)
              && ExpectedClears(Items(kept + [ts[i].input])) == ExpectedClears(Items(kept)) + ClearsOf(said)
  {
    FailedBeatsVanish(ts[..i]);
    KeptAndNextOrderly(ts, i);
    BeatAddsItsLines(LaneRun(ts[..i]).gate, LaneRun(ts[..i]).kept, ts[i].input);
    HeardIsBeat(LaneRun(ts[..i]).gate, ts[i]);
  }

  lemma KeptAndNextOrderly(ts: seq<Try>, i: nat)
    requires OrderlyTries(ts) && i < |ts|
    ensures Orderly(LaneRun(ts[..i]).kept + [ts[i].input])
  {
    var kept := LaneRun(ts[..i]).kept;
    KeptOrderly(ts[..i]);
    forall j | 0 <= j < |kept| ensures Day(kept[j].now) <= Day(ts[i].input.now) {
      assert kept[j] in kept;
      var t :| t in ts[..i] && t.input == kept[j];
    }
  }

  lemma HeardIsBeat(g: Gate, t: Try)
    ensures var r, said := Beat(g, t.input.obs, t.input.now), VitalsBeat(g, t.input.obs, t.input.now, t.net).1;
            if t.net.PostFails? then said == None
            else AlertsOf(said) == r.alerts && ClearsOf(said) == r.clears
  {}

  // ---- how often the channel hears of a breach ----

  predicate BreachedIn(obs: seq<Obs>, key: string) {
    exists o :: o in obs && o.key == key && o.state.Breach?
  }

  predicate Mentions(alerts: seq<Alert>, key: string) {
    exists a :: a in alerts && a.key == key
  }

  /** The i-th try posts an alert for the signal. */
  predicate Announces(ts: seq<Try>, i: nat, key: string)
    requires i < |ts|
  {
    Mentions(AlertsOf(Heard(ts, i)), key)
  }

  predicate Announced(g: Gate, key: string, day: int) {
    key in g.alerted && g.alerted[key] == day
  }

  lemma MentionsMore(alerts: seq<Alert>, last: seq<Alert>, key: string)
    ensures Mentions(alerts + last, key) <==> Mentions(alerts, key) || Mentions(last, key)
  {
    if Mentions(alerts, key) {
      var a :| a in alerts && a.key == key;
      assert a in alerts + last;
    }
    if Mentions(last, key) {
      var a :| a in last && a.key == key;
      assert a in alerts + last;
    }
  }

  /** A beat mentions a signal exactly if it breaches and today is not stored yet; afterwards today is. */
  lemma {:induction false} ObserveAllAnnounces(g: Gate, obs: seq<Obs>, now: int, key: string)
    ensures var r := ObserveAll(g, obs, now);
            && (Mentions(r.alerts, key) <==> BreachedIn(obs, key) && !Announced(g, key, Day(now)))
            && (Announced(r.next, key, Day(now)) <==> BreachedIn(obs, key) || Announced(g, key, Day(now)))
  {
    if obs != [] {
      var n := |obs| - 1;
      var before := ObserveAll(g, obs[..n], now);
      ObserveAllAnnounces(g, obs[..n], now, key);
      BreachedInMore(obs, key);
      ObserveAnnounces(before.next, obs[n], now, key);
      MentionsMore(before.alerts, Observe(before.next, obs[n], now).alerts, key);
    }
  }

  lemma BreachedInMore(obs: seq<Obs>, key: string)
    requires obs != []
    ensures var last := obs[|obs| - 1];
            BreachedIn(obs, key) <==> BreachedIn(obs[..|obs| - 1], key) || (last.key == key && last.state.Breach?)
  {
    if BreachedIn(obs, key) {
      var o :| o in obs && o.key == key && o.state.Breach?;
      assert o in obs[..|obs| - 1] || o == obs[|obs| - 1];
    }
    if BreachedIn(obs[..|obs| - 1], key) {
      var o :| o in obs[..|obs| - 1] && o.key == key && o.state.Breach?;
      assert o in obs;
    }
    assert obs[|obs| - 1] in obs;
  }

  lemma ObserveAnnounces(g: Gate, o: Obs, now: int, key: string)
    ensures var r, now' := Observe(g, o, now), Day(now);
            && (Mentions(r.alerts, key) <==> o.key == key && o.state.Breach? && !Announced(g, key, now'))
            && (Announced(r.next, key, now') <==> (o.key == key && o.state.Breach?) || Announced(g, key, now'))
  {
    if o.state.Breach? {
      assert Alert(o.key, o.state.text) in [Alert(o.key, o.state.text)];
    }
  }

  lemma BeatAnnounces(g: Gate, obs: seq<Obs>, now: int, key: string)
    ensures var r := Beat(g, obs, now);
            && (Mentions(r.alerts, key) <==> BreachedIn(obs, key) && !Announced(g, key, Day(now)))
            && (Announced(r.next, key, Day(now)) <==> BreachedIn(obs, key) || Announced(g, key, Day(now)))
  {
    ObserveAllAnnounces(g, obs, now, key);
  }

  /** Some try before the n-th posted the signal's alert on this day and then saved. */
  predicate SavedAnnouncement(ts: seq<Try>, n: nat, key: string, day: int)
    requires n <= |ts|
  {
    exists i :: 0 <= i < n && Announces(ts, i, key) && !ts[i].net.SaveFails? && Day(ts[i].input.now) == day
  }

  lemma OneMoreTry(ts: seq<Try>, n: nat, key: string, day: int)
    requires n < |ts|
    ensures SavedAnnouncement(ts, n + 1, key, day) <==>
              SavedAnnouncement(ts, n, key, day) ||
              (Announces(ts, n, key) && !ts[n].net.SaveFails? && Day(ts[n].input.now) == day)
  {}

  /** On any day, the stored gate knows of exactly the announcements that were also saved. */
  lemma {:induction false} GateKnowsSaved(ts: seq<Try>, n: nat, key: string, day: int)
    requires OrderlyTries(ts) && n <= |ts|
    requires forall i :: 0 <= i < n ==> Day(ts[i].input.now) <= day
    ensures Announced(LaneRun(ts[..n]).gate, key, day) <==> SavedAnnouncement(ts, n, key, day)
  {
    if n > 0 {
      var t, before := ts[n - 1], LaneRun(ts[..n - 1]);
      GateKnowsSaved(ts, n - 1, key, day);
      assert ts[..n][..n - 1] == ts[..n - 1] && ts[..n][n - 1] == t;
      OneMoreTry(ts, n - 1, key, day);
      if Day(t.input.now) == day {
        BeatAnnounces(before.gate, t.input.obs, t.input.now, key);
        TryKnows(before.gate, t, key);
      } else {
        EarlierDay(ts, n, key, day);
      }
    }
  }

  /** One try on the day itself. */
  lemma TryKnows(g: Gate, t: Try, key: string)
    ensures var (next, posted) := VitalsBeat(g, t.input.obs, t.input.now, t.net);
            var day := Day(t.input.now);
            && (Announced(next, key, day) <==>
                  Announced(g, key, day) || (Mentions(AlertsOf(posted), key) && !t.net.SaveFails?))
            && (Mentions(AlertsOf(posted), key) <==>
                  BreachedIn(t.input.obs, key) && !t.net.PostFails? && !Announced(g, key, day))
  {
    BeatAnnounces(g, t.input.obs, t.input.now, key);
    var r := Beat(g, t.input.obs, t.input.now);
    if Mentions(r.alerts, key) {
      assert r.alerts != [];
    }
  }

  /** Before the day has come, nothing is known of it. */
  lemma EarlierDay(ts: seq<Try>, n: nat, key: string, day: int)
    requires OrderlyTries(ts) && 0 < n <= |ts| && Day(ts[n - 1].input.now) < day
    ensures !SavedAnnouncement(ts, n, key, day)
    ensures !Announced(LaneRun(ts[..n]).gate, key, day)
  {
    NoFutureDays(ts, n, key);
  }

  lemma {:induction false} NoFutureDays(ts: seq<Try>, n: nat, key: string)
    requires OrderlyTries(ts) && n <= |ts|
    ensures var g := LaneRun(ts[..n]).gate;
            key in g.alerted ==> n > 0 && g.alerted[key] <= Day(ts[n - 1].input.now)
  {
    if n > 0 {
      NoFutureDays(ts, n - 1, key);
      assert ts[..n][..n - 1] == ts[..n - 1] && ts[..n][n - 1] == ts[n - 1];
      TryDays(LaneRun(ts[..n - 1]).gate, ts[n - 1], key);
    }
  }

  lemma TryDays(g: Gate, t: Try, key: string)
    requires key in g.alerted ==> g.alerted[key] <= Day(t.input.now)
    ensures var next := VitalsBeat(g, t.input.obs, t.input.now, t.net).0;
            key in next.alerted ==> next.alerted[key] <= Day(t.input.now)
  {
    ObserveAllDays(g, t.input.obs, t.input.now, key);
  }

  lemma {:induction false} ObserveAllDays(g: Gate, obs: seq<Obs>, now: int, key: string)
    requires key in g.alerted ==> g.alerted[key] <= Day(now)
    ensures var next := ObserveAll(g, obs, now).next; key in next.alerted ==> next.alerted[key] <= Day(now)
  {
    if obs != [] {
      ObserveAllDays(g, obs[..|obs| - 1], now, key);
    }
  }

  /**
    When the channel hears of a breach: a try announces a signal if and only if it
    breaches, the post gets through, and no earlier try of the same UTC day announced
    it and then saved.
  */
  lemma AnnouncedExactly(ts: seq<Try>, j: nat, key: string)
    requires OrderlyTries(ts) && j < |ts|
    ensures Announces(ts, j, key) <==>
              && BreachedIn(ts[j].input.obs, key) && !ts[j].net.PostFails?
              && !SavedAnnouncement(ts, j, key, Day(ts[j].input.now))
  {
    GateKnowsSaved(ts, j, key, Day(ts[j].input.now));
    TryKnows(LaneRun(ts[..j]).gate, ts[j], key);
  }

  /**
    So once per UTC day is kept exactly as far as saves succeed: of two tries on one day
    that announce a signal, the first failed to save; and after a failed save the next
    breach of the day that gets through is announced again.
  */
  lemma OnceUnlessSaveFailed(ts: seq<Try>, i: nat, j: nat, key: string)
    requires OrderlyTries(ts) && i < j < |ts| && Day(ts[i].input.now) == Day(ts[j].input.now)
    requires Announces(ts, i, key)
    ensures Announces(ts, j, key) ==> ts[i].net.SaveFails?
    ensures ts[i].net.SaveFails? && BreachedIn(ts[j].input.obs, key) && !ts[j].net.PostFails?
            && (forall m :: i < m < j ==> !Announces(ts, m, key))
            ==> Announces(ts, j, key)
  {
    AnnouncedExactly(ts, j, key);
    NotSavedSince(ts, i, j, key);
  }

  lemma NotSavedSince(ts: seq<Try>, i: nat, j: nat, key: string)
    requires OrderlyTries(ts) && i < j < |ts| && Day(ts[i].input.now) == Day(ts[j].input.now)
    requires Announces(ts, i, key)
    ensures ts[i].net.SaveFails? && (forall m :: i < m < j ==> !Announces(ts, m, key)) ==>
              !SavedAnnouncement(ts, j, key, Day(ts[j].input.now))
  {
    AnnouncedExactly(ts, i, key);
    var day := Day(ts[j].input.now);
    forall m | 0 <= m < i ensures !(Announces(ts, m, key) && !ts[m].net.SaveFails? && Day(ts[m].input.now) == day) {}
  }

  /** Every stored day, and the first day of every open episode, was announced in the channel. */
  ghost predicate Backed(g: Gate, announced: set<(string, int)>) {
    && (forall k :: k in g.alerted ==> (k, g.alerted[k]) in announced)
    && (forall k :: k in g.active ==> (k, Day(g.active[k])) in announced)
  }

  lemma {:induction false} BeatIsBacked(g: Gate, obs: seq<Obs>, now: int, announced: set<(string, int)>)
    requires Backed(g, announced)
    ensures var r := ObserveAll(g, obs, now); Backed(r.next, announced + Days(r.alerts, Day(now)))
  {
    if obs != [] {
      var before := ObserveAll(g, obs[..|obs| - 1], now);
      var x := obs[|obs| - 1];
      BeatIsBacked(g, obs[..|obs| - 1], now, announced);
      var r := ObserveAll(g, obs, now);
      var was, all := announced + Days(before.alerts, Day(now)), announced + Days(r.alerts, Day(now));
      assert forall a :: a in before.alerts ==> a in r.alerts;
      assert was <= all;
      if x.state.Breach? {
        if !(x.key in before.next.alerted && before.next.alerted[x.key] == Day(now)) {
          assert Alert(x.key, x.state.text) in r.alerts;
        }
        assert (x.key, Day(now)) in all;
      }
    }
  }

  /** A day is stored only after a post carrying that announcement succeeded, whatever failed in between. */
  lemma {:induction false} StoredOnlyAfterPosted(ts: seq<Try>)
    ensures Backed(LaneRun(ts).gate, LaneRun(ts).announced)
  {
    if ts != [] {
      var l := LaneRun(ts[..|ts| - 1]);
      var t := ts[|ts| - 1];
      StoredOnlyAfterPosted(ts[..|ts| - 1]);
      BeatIsBacked(l.gate, t.input.obs, t.input.now, l.announced);
      var r := Beat(l.gate, t.input.obs, t.input.now);
      if r.alerts == [] {
        assert Days(r.alerts, Day(t.input.now)) == {};
      }
    }
  }

  // ---- how often the channel hears of a recovery ----

  predicate BreachAt(obs: seq<Obs>, i: nat, key: string)
    requires i < |obs|
  {
    obs[i].key == key && obs[i].state.Breach?
  }

  predicate ClearAt(obs: seq<Obs>, i: nat, key: string)
    requires i < |obs|
  {
    obs[i].key == key && obs[i].state.Clear?
  }

  predicate ClearedIn(obs: seq<Obs>, key: string) {
    exists i :: 0 <= i < |obs| && ClearAt(obs, i, key)
  }

  /** The beat breaches the signal and does not clear it afterwards. */
  predicate LeavesOpen(obs: seq<Obs>, key: string) {
    exists i :: 0 <= i < |obs| && BreachAt(obs, i, key) && forall m :: i < m < |obs| ==> !ClearAt(obs, m, key)
  }

  /** The beat breaches the signal and clears it afterwards. */
  predicate BreachThenClear(obs: seq<Obs>, key: string) {
    exists i, j :: 0 <= i < j < |obs| && BreachAt(obs, i, key) && ClearAt(obs, j, key)
  }

  predicate MentionsRecovery(clears: seq<Recovery>, key: string) {
    exists c :: c in clears && c.key == key
  }

  /** The i-th try posts a recovery line for the signal. */
  predicate Recovers(ts: seq<Try>, i: nat, key: string)
    requires i < |ts|
  {
    MentionsRecovery(ClearsOf(Heard(ts, i)), key)
  }

  lemma ClearedInMore(obs: seq<Obs>, o: Obs, key: string)
    ensures ClearedIn(obs + [o], key) <==> ClearedIn(obs, key) || (o.key == key && o.state.Clear?)
  {
    var all := obs + [o];
    assert forall i :: 0 <= i < |obs| ==> ClearAt(all, i, key) == ClearAt(obs, i, key);
    assert ClearAt(all, |obs|, key) <==> o.key == key && o.state.Clear?;
  }

  lemma LeavesOpenMore(obs: seq<Obs>, o: Obs, key: string)
    ensures LeavesOpen(obs + [o], key) <==>
              (o.key == key && o.state.Breach?) || (LeavesOpen(obs, key) && !(o.key == key && o.state.Clear?))
  {
    var all := obs + [o];
    assert forall i :: 0 <= i < |obs| ==> BreachAt(all, i, key) == BreachAt(obs, i, key);
    assert forall i :: 0 <= i < |obs| ==> ClearAt(all, i, key) == ClearAt(obs, i, key);
    assert BreachAt(all, |obs|, key) <==> o.key == key && o.state.Breach?;
    assert ClearAt(all, |obs|, key) <==> o.key == key && o.state.Clear?;
    if LeavesOpen(all, key) && !BreachAt(all, |obs|, key) {
      var i :| 0 <= i < |all| && BreachAt(all, i, key) && forall m :: i < m < |all| ==> !ClearAt(all, m, key);
      assert BreachAt(obs, i, key) && forall m :: i < m < |obs| ==> !ClearAt(obs, m, key);
    }
    if LeavesOpen(obs, key) && !ClearAt(all, |obs|, key) {
      var i :| 0 <= i < |obs| && BreachAt(obs, i, key) && forall m :: i < m < |obs| ==> !ClearAt(obs, m, key);
      assert BreachAt(all, i, key);
    }
  }

  lemma BreachThenClearMore(obs: seq<Obs>, o: Obs, key: string)
    ensures BreachThenClear(obs + [o], key) <==>
              BreachThenClear(obs, key) || (LeavesOpen(obs, key) && o.key == key && o.state.Clear?)
  {
    var all := obs + [o];
    assert forall i :: 0 <= i < |obs| ==> BreachAt(all, i, key) == BreachAt(obs, i, key);
    assert forall i :: 0 <= i < |obs| ==> ClearAt(all, i, key) == ClearAt(obs, i, key);
    assert ClearAt(all, |obs|, key) <==> o.key == key && o.state.Clear?;
    if BreachThenClear(all, key) && !BreachThenClear(obs, key) {
      var i, j :| 0 <= i < j < |all| && BreachAt(all, i, key) && ClearAt(all, j, key);
      assert forall m :: i < m < |obs| ==> !ClearAt(obs, m, key);
    }
    if BreachThenClear(obs, key) {
      var i, j :| 0 <= i < j < |obs| && BreachAt(obs, i, key) && ClearAt(obs, j, key);
      assert BreachAt(all, i, key) && ClearAt(all, j, key);
    }
  }

  lemma BreachAtIsBreachedIn(obs: seq<Obs>, key: string)
    ensures (LeavesOpen(obs, key) || BreachThenClear(obs, key)) <==> BreachedIn(obs, key)
    decreases |obs|
  {
    if obs != [] {
      var n := |obs| - 1;
      assert obs == obs[..n] + [obs[n]];
      BreachAtIsBreachedIn(obs[..n], key);
      BreachedInMore(obs, key);
      LeavesOpenMore(obs[..n], obs[n], key);
      BreachThenClearMore(obs[..n], obs[n], key);
    }
  }

  lemma RecoveryMore(clears: seq<Recovery>, last: seq<Recovery>, key: string)
    ensures MentionsRecovery(clears + last, key) <==> MentionsRecovery(clears, key) || MentionsRecovery(last, key)
  {
    if MentionsRecovery(clears, key) {
      var c :| c in clears && c.key == key;
      assert c in clears + last;
    }
    if MentionsRecovery(last, key) {
      var c :| c in last && c.key == key;
      assert c in clears + last;
    }
  }

  /** A beat ends the episode it finds if it clears the signal, and any it opens and closes itself. */
  lemma {:induction false} ObserveAllRecovers(g: Gate, obs: seq<Obs>, now: int, key: string)
    ensures var r, open := ObserveAll(g, obs, now), key in g.active;
            && (MentionsRecovery(r.clears, key) <==> (open && ClearedIn(obs, key)) || BreachThenClear(obs, key))
            && (key in r.next.active <==> LeavesOpen(obs, key) || (open && !ClearedIn(obs, key)))
            && (key in r.next.active ==>
                  r.next.active[key] == if open && !ClearedIn(obs, key) then g.active[key] else now)
  {
    if obs != [] {
      var n := |obs| - 1;
      var before := ObserveAll(g, obs[..n], now);
      assert obs == obs[..n] + [obs[n]];
      ObserveAllRecovers(g, obs[..n], now, key);
      ClearedInMore(obs[..n], obs[n], key);
      LeavesOpenMore(obs[..n], obs[n], key);
      BreachThenClearMore(obs[..n], obs[n], key);
      RecoveryMore(before.clears, Observe(before.next, obs[n], now).clears, key);
      ObserveRecovers(before.next, obs[n], now, key);
    }
  }

  lemma ObserveRecovers(g: Gate, o: Obs, now: int, key: string)
    ensures var r, open, clears := Observe(g, o, now), key in g.active, o.key == key && o.state.Clear?;
            && (MentionsRecovery(r.clears, key) <==> open && clears)
            && (key in r.next.active <==> (o.key == key && o.state.Breach?) || (open && !clears))
            && (key in r.next.active ==> r.next.active[key] == if open then g.active[key] else now)
  {
    if o.state.Clear? {
      assert Recovery(o.key, o.state.clearText) in [Recovery(o.key, o.state.clearText)];
    }
  }

  // ---- episodes of the beats that persisted ----

  /** The i-th beat breaches the signal without clearing it afterwards, and no later one clears it. */
  predicate OpenFrom(beats: seq<Input>, i: nat, key: string)
    requires i < |beats|
  {
    LeavesOpen(beats[i].obs, key) && forall m :: i < m < |beats| ==> !ClearedIn(beats[m].obs, key)
  }

  predicate OpenIn(beats: seq<Input>, key: string) {
    exists i :: 0 <= i < |beats| && OpenFrom(beats, i, key)
  }

  /** The episode that is open at the end began in the i-th beat. */
  predicate BeganIn(beats: seq<Input>, i: nat, key: string)
    requires i < |beats|
  {
    OpenFrom(beats, i, key) && (OpenIn(beats[..i], key) ==> ClearedIn(beats[i].obs, key))
  }

  lemma OpenInMore(beats: seq<Input>, key: string)
    requires beats != []
    ensures var n := |beats| - 1;
            OpenIn(beats, key) <==>
              LeavesOpen(beats[n].obs, key) || (OpenIn(beats[..n], key) && !ClearedIn(beats[n].obs, key))
  {
    var n := |beats| - 1;
    assert OpenFrom(beats, n, key) <==> LeavesOpen(beats[n].obs, key);
    forall i | 0 <= i < n
      ensures OpenFrom(beats, i, key) <==> OpenFrom(beats[..n], i, key) && !ClearedIn(beats[n].obs, key)
    {
      assert forall m :: i < m < n ==> beats[..n][m] == beats[m];
    }
  }

  /** The document has an open episode exactly if the beats leave one open. */
  lemma {:induction false} GateKnowsOpen(beats: seq<Input>, key: string)
    ensures key in Pruned(EMPTY, beats).next.active <==> OpenIn(beats, key)
  {
    if beats != [] {
      var n := |beats| - 1;
      GateKnowsOpen(beats[..n], key);
      OpenInMore(beats, key);
      ObserveAllRecovers(Pruned(EMPTY, beats[..n]).next, beats[n].obs, beats[n].now, key);
    }
  }

  lemma {:induction false} EpisodeStart(beats: seq<Input>, key: string) returns (s: nat)
    requires OpenIn(beats, key)
    ensures s < |beats| && BeganIn(beats, s, key)
    decreases |beats|
  {
    var n := |beats| - 1;
    OpenInMore(beats, key);
    if OpenIn(beats[..n], key) && !ClearedIn(beats[n].obs, key) {
      s := EpisodeStart(beats[..n], key);
      assert beats[..n][..s] == beats[..s];
      assert forall m :: s < m < n ==> beats[..n][m] == beats[m];
    } else {
      s := n;
    }
  }

  /** An episode that began in the last beat is dated by it. */
  lemma StartIsStored(beats: seq<Input>, key: string)
    requires beats != [] && BeganIn(beats, |beats| - 1, key)
    ensures var g := Pruned(EMPTY, beats).next;
            key in g.active && g.active[key] == beats[|beats| - 1].now
  {
    var n := |beats| - 1;
    GateKnowsOpen(beats[..n], key);
    ObserveAllRecovers(Pruned(EMPTY, beats[..n]).next, beats[n].obs, beats[n].now, key);
  }

  // ---- recoveries in the channel ----

  /** One try: when it posts a recovery, and what it leaves open. */
  lemma TryRecovers(g: Gate, t: Try, key: string)
    ensures var (next, posted) := VitalsBeat(g, t.input.obs, t.input.now, t.net);
            var obs, open := t.input.obs, key in g.active;
            && (MentionsRecovery(ClearsOf(posted), key) <==>
                  !t.net.PostFails? && ((open && ClearedIn(obs, key)) || BreachThenClear(obs, key)))
            && (key in next.active <==>
                  if t.net.SaveFails? || (t.net.PostFails? && !Persists(g, t)) then open
                  else LeavesOpen(obs, key) || (open && !ClearedIn(obs, key)))
            && (Persists(g, t) && open && ClearedIn(obs, key) ==> t.net.AllWell?)
  {
    ObserveAllRecovers(g, t.input.obs, t.input.now, key);
    var r := Beat(g, t.input.obs, t.input.now);
    if MentionsRecovery(r.clears, key) {
      assert r.clears != [];
    }
  }

  /**
    When the channel hears of a recovery: a try posts one for a signal if and only if
    the post gets through and the beat clears an episode that the beats persisted before
    left open, or one that it opened itself.
  */
  lemma RecoveredExactly(ts: seq<Try>, j: nat, key: string)
    requires j < |ts|
    ensures var obs := ts[j].input.obs;
            Recovers(ts, j, key) <==>
              && !ts[j].net.PostFails?
              && ((OpenIn(LaneRun(ts[..j]).kept, key) && ClearedIn(obs, key)) || BreachThenClear(obs, key))
  {
    FailedBeatsVanish(ts[..j]);
    GateKnowsOpen(LaneRun(ts[..j]).kept, key);
    TryRecovers(LaneRun(ts[..j]).gate, ts[j], key);
  }

  /** The document has an open episode of the signal before the n-th try. */
  predicate Active(ts: seq<Try>, n: nat, key: string)
    requires n <= |ts|
  {
    key in LaneRun(ts[..n]).gate.active
  }

  lemma LaneAfter(ts: seq<Try>, n: nat)
    requires n < |ts|
    ensures LaneRun(ts[..n + 1]) == LaneStep(LaneRun(ts[..n]), ts[n])
  {
    assert ts[..n + 1][..n] == ts[..n];
  }

  /** A try without a breach of the signal. */
  lemma QuietTry(ts: seq<Try>, n: nat, key: string)
    requires n < |ts| && !BreachedIn(ts[n].input.obs, key)
    ensures Recovers(ts, n, key) <==> Active(ts, n, key) && ClearedIn(ts[n].input.obs, key) && !ts[n].net.PostFails?
    ensures Active(ts, n + 1, key) <==> Active(ts, n, key) && (Recovers(ts, n, key) ==> ts[n].net.SaveFails?)
  {
    LaneAfter(ts, n);
    BreachAtIsBreachedIn(ts[n].input.obs, key);
    TryRecovers(LaneRun(ts[..n]).gate, ts[n], key);
  }

  /** Some try from i on and before j posted a recovery of the signal and then saved. */
  predicate SavedRecovery(ts: seq<Try>, i: nat, j: nat, key: string)
    requires j <= |ts|
  {
    exists m :: i <= m < j && Recovers(ts, m, key) && !ts[m].net.SaveFails?
  }

  lemma OneMoreRecovery(ts: seq<Try>, i: nat, n: nat, key: string)
    requires i <= n < |ts|
    ensures SavedRecovery(ts, i, n + 1, key) <==>
              SavedRecovery(ts, i, n, key) || (Recovers(ts, n, key) && !ts[n].net.SaveFails?)
  {}

  /** Without a breach the episode stays open exactly until a recovery of it is saved. */
  lemma {:induction false} ActiveUntilSaved(ts: seq<Try>, i: nat, j: nat, key: string)
    requires i <= j < |ts| && Active(ts, i, key)
    requires forall m :: i <= m < j ==> !BreachedIn(ts[m].input.obs, key)
    ensures Active(ts, j, key) <==> !SavedRecovery(ts, i, j, key)
    decreases j
  {
    if i < j {
      ActiveUntilSaved(ts, i, j - 1, key);
      QuietTry(ts, j - 1, key);
      OneMoreRecovery(ts, i, j - 1, key);
    }
  }

  /**
    So one line per episode is kept exactly as far as saves succeed: once a recovery was
    heard, and until the signal breaches again, a try posts another one if and only if
    it clears the signal, its post gets through, and every one before failed to save.
  */
  lemma OneRecoveryUnlessSaveFailed(ts: seq<Try>, i: nat, j: nat, key: string)
    requires i < j < |ts| && Recovers(ts, i, key)
    requires forall m :: i <= m <= j ==> !BreachedIn(ts[m].input.obs, key)
    ensures Recovers(ts, j, key) ==> ts[i].net.SaveFails?
    ensures Recovers(ts, j, key) <==>
              ClearedIn(ts[j].input.obs, key) && !ts[j].net.PostFails? && !SavedRecovery(ts, i, j, key)
  {
    QuietTry(ts, i, key);
    QuietTry(ts, j, key);
    ActiveUntilSaved(ts, i, j, key);
  }

  // ---- what a recovery line ends ----

  lemma {:induction false} AnnouncedAt(ts: seq<Try>, key: string, day: int) returns (a: nat)
    requires (key, day) in LaneRun(ts).announced
    ensures a < |ts| && Announces(ts, a, key) && Day(ts[a].input.now) == day
  {
    assert ts != [];
    var n := |ts| - 1;
    if (key, day) in LaneRun(ts[..n]).announced {
      a := AnnouncedAt(ts[..n], key, day);
      assert ts[..n][..a] == ts[..a];
    } else {
      a := n;
    }
  }

  lemma StoredWasAnnounced(ts: seq<Try>, n: nat, key: string, day: int) returns (a: nat)
    requires n <= |ts|
    requires var g := LaneRun(ts[..n]).gate;
             Announced(g, key, day) || (key in g.active && Day(g.active[key]) == day)
    ensures a < n && Announces(ts, a, key) && Day(ts[a].input.now) == day
  {
    StoredOnlyAfterPosted(ts[..n]);
    a := AnnouncedAt(ts[..n], key, day);
    assert ts[..n][..a] == ts[..a];
  }

  /** A breach that gets through has been announced that day, now or before. */
  lemma BreachWasAnnounced(ts: seq<Try>, j: nat, key: string) returns (a: nat)
    requires j < |ts| && BreachedIn(ts[j].input.obs, key) && !ts[j].net.PostFails?
    ensures a <= j && Announces(ts, a, key) && Day(ts[a].input.now) == Day(ts[j].input.now)
  {
    TryKnows(LaneRun(ts[..j]).gate, ts[j], key);
    if Announced(LaneRun(ts[..j]).gate, key, Day(ts[j].input.now)) {
      a := StoredWasAnnounced(ts, j, key, Day(ts[j].input.now));
    } else {
      a := j;
    }
  }

  /** The try that persisted the s-th kept beat. */
  lemma {:induction false} KeptAt(ts: seq<Try>, n: nat, s: nat) returns (b: nat)
    requires n <= |ts| && s < |LaneRun(ts[..n]).kept|
    ensures b < n && ts[b].input == LaneRun(ts[..n]).kept[s]
    ensures LaneRun(ts[..b]).kept == LaneRun(ts[..n]).kept[..s]
    ensures LaneRun(ts[..b + 1]).kept == LaneRun(ts[..n]).kept[..s + 1]
  {
    assert n > 0;
    LaneAfter(ts, n - 1);
    var before, after := LaneRun(ts[..n - 1]).kept, LaneRun(ts[..n]).kept;
    if s < |before| {
      b := KeptAt(ts, n - 1, s);
      assert after[..s] == before[..s] && after[..s + 1] == before[..s + 1];
    } else {
      b := n - 1;
      assert after[..s] == before && after[..s + 1] == after;
    }
  }

  lemma EpisodeWasAnnounced(ts: seq<Try>, j: nat, key: string) returns (b: nat, a: nat)
    requires j < |ts| && OpenIn(LaneRun(ts[..j]).kept, key)
    ensures a <= b < j && Announces(ts, a, key) && Day(ts[a].input.now) == Day(ts[b].input.now)
    ensures var kept, s := LaneRun(ts[..j]).kept, |LaneRun(ts[..b]).kept|;
            s < |kept| && kept[s] == ts[b].input && BeganIn(kept, s, key)
  {
    var kept := LaneRun(ts[..j]).kept;
    var s := EpisodeStart(kept, key);
    b := KeptAt(ts, j, s);
    assert kept[..s + 1][..s] == kept[..s];
    StartIsStored(kept[..s + 1], key);
    FailedBeatsVanish(ts[..b + 1]);
    a := StoredWasAnnounced(ts, b + 1, key, Day(ts[b].input.now));
  }

  /**
    Every recovery line in the channel ends an episode whose first day was announced
    there: the episode began in the beat that try b persisted, or in this very beat.
  */
  lemma RecoveryWasAnnounced(ts: seq<Try>, j: nat, key: string) returns (b: nat, a: nat)
    requires j < |ts| && Recovers(ts, j, key)
    ensures a <= b <= j && Announces(ts, a, key) && Day(ts[a].input.now) == Day(ts[b].input.now)
    ensures var kept, s := LaneRun(ts[..j]).kept, |LaneRun(ts[..b]).kept|;
            if b < j then s < |kept| && kept[s] == ts[b].input && BeganIn(kept, s, key)
            else !OpenIn(kept, key) && BreachThenClear(ts[j].input.obs, key)
  {
    RecoveredExactly(ts, j, key);
    if OpenIn(LaneRun(ts[..j]).kept, key) {
      b, a := EpisodeWasAnnounced(ts, j, key);
    } else {
      b := j;
      BreachAtIsBreachedIn(ts[j].input.obs, key);
      a := BreachWasAnnounced(ts, j, key);
    }
  }

  lemma OneObservation(g: Gate, o: Obs, now: int)
    ensures ObserveAll(g, [o], now) == Observe(g, o, now)
  {
    assert [o][..0] == [];
    assert ObserveAll(g, [], now) == Result([], [], g);
  }

  /** One episode, two recovery lines: the save after the first failed. */
  lemma TwoRecoveriesOneEpisode(key: string, text: string, back: string)
    ensures var ts := [Try(Input([Obs(key, Breach(text))], 0), AllWell),
                       Try(Input([Obs(key, Clear(back))], 1), SaveFails),
                       Try(Input([Obs(key, Clear(back))], 2), AllWell)];
            && Heard(ts, 0) == Some(Posted([Alert(key, text)], []))
            && Heard(ts, 1) == Heard(ts, 2) == Some(Posted([], [Recovery(key, back)]))
  {
    var ts := [Try(Input([Obs(key, Breach(text))], 0), AllWell),
               Try(Input([Obs(key, Clear(back))], 1), SaveFails),
               Try(Input([Obs(key, Clear(back))], 2), AllWell)];
    var empty, open := EMPTY, Gate(map[key := 0], map[key := 0]);
    OneObservation(empty, Obs(key, Breach(text)), 0);
    OneObservation(open, Obs(key, Clear(back)), 1);
    OneObservation(open, Obs(key, Clear(back)), 2);
    assert ts[..0] == [];
    LaneAfter(ts, 0);
    assert LaneRun(ts[..1]).gate == open;
    LaneAfter(ts, 1);
  }

  // ---- hysteresis ----

  predicate InBand(row: Option<DiskRow>, cfg: Config) {
    row.Some? && row.value.usedRatio.Some? && cfg.diskClearRatio <= row.value.usedRatio.value <= cfg.diskAlertRatio
  }

  lemma {:induction false} UnknownSaysNothing(g: Gate, obs: seq<Obs>, now: int)
    requires forall o :: o in obs ==> o.state.Unknown?
    ensures ObserveAll(g, obs, now) == Result([], [], g)
  {
    if obs != [] {
      UnknownSaysNothing(g, obs[..|obs| - 1], now);
      assert obs[|obs| - 1] in obs;
    }
  }

  /** Disk ratios inside the band say nothing, whatever the gate remembers and however long they stay there. */
  lemma {:induction false} BandIsQuiet(g: Gate, disks: seq<seq<DiskRow>>, cfg: Config, beats: seq<Input>)
    requires |beats| == |disks|
    requires forall i :: 0 <= i < |beats| ==>
               && |beats[i].obs| == |cfg.mounts|
               && forall m :: 0 <= m < |cfg.mounts| ==>
                    && beats[i].obs[m] == DiskObs(disks[i], cfg, cfg.mounts[m])
                    && InBand(LastRow(disks[i], cfg.host, cfg.mounts[m]), cfg)
    ensures var r := Pruned(g, beats); r.alerts == [] && r.clears == [] && r.next.active == g.active
  {
    if beats != [] {
      var n := |beats| - 1;
      BandIsQuiet(g, disks[..n], cfg, beats[..n]);
      UnknownSaysNothing(Pruned(g, beats[..n]).next, beats[n].obs, beats[n].now);
    }
  }
}
