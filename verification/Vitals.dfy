/**
  The host-vitals alert gate (workers/cicd-collector/src/vitals.js): at most one saved
  announcement per signal and UTC day, at most one saved recovery per episode, a
  document that stays small.
*/
module Vitals {
  import opened Prelude
  import Tags

  const DAY_MS: int := 86_400_000

  /** The UTC day of an instant; two instants have the same ISO date exactly if they share it. */
  function Day(ms: int): (day: int)
    ensures day * 86_400_000 <= ms < (day + 1) * 86_400_000
  {
    ms / DAY_MS
  }

  // ---- observations ----

  datatype State = Breach(text: string) | Clear(clearText: string) | Unknown

  datatype Obs = Obs(key: string, state: State)

  // ---- the gate ----

  /** The stored half of the gate: last day announced, and start of the open episode, per key. */
  datatype Gate = Gate(alerted: map<string, int>, active: map<string, int>)

  datatype Alert = Alert(key: string, text: string)
  datatype Recovery = Recovery(key: string, text: string)

  datatype Result = Result(alerts: seq<Alert>, clears: seq<Recovery>, next: Gate)

  /** One observation. */
  function Observe(g: Gate, obs: Obs, now: int): Result {
    match obs.state
    case Breach(text) =>
      var announced := obs.key in g.alerted && g.alerted[obs.key] == Day(now);
      Result(if announced then [] else [Alert(obs.key, text)], [],
             Gate(g.alerted[obs.key := Day(now)],
                  if obs.key in g.active then g.active else g.active[obs.key := now]))
    case Clear(text) =>
      if obs.key in g.active then Result([], [Recovery(obs.key, text)], g.(active := g.active - {obs.key}))
      else Result([], [], g)
    case Unknown => Result([], [], g)
  }

  /** All observations of one beat, in order, keeping every day. */
  function ObserveAll(g: Gate, obs: seq<Obs>, now: int): Result {
    if obs == [] then Result([], [], g)
    else
      var before := ObserveAll(g, obs[..|obs| - 1], now);
      var last := Observe(before.next, obs[|obs| - 1], now);
      Result(before.alerts + last.alerts, before.clears + last.clears, last.next)
  }

  predicate Recent(day: int, now: int) {
    day == Day(now) || day == Day(now - DAY_MS)
  }

  /** Drop the days that are neither today nor yesterday. */
  function Prune(g: Gate, now: int): Gate {
    g.(alerted := map k | k in g.alerted && Recent(g.alerted[k], now) :: g.alerted[k])
  }

  /** What is stored afterwards: exactly the days that are today's or yesterday's, and no open episode is dropped. */
  lemma PruneKeepsTwoDays(g: Gate, now: int)
    ensures var next := Prune(g, now);
            && next.active == g.active
            && forall k :: k in next.alerted <==> k in g.alerted && Day(now) - 1 <= g.alerted[k] <= Day(now)
    ensures forall k :: k in Prune(g, now).alerted ==> Prune(g, now).alerted[k] == g.alerted[k]
  {}

  function Beat(g: Gate, obs: seq<Obs>, now: int): Result {
    var r := ObserveAll(g, obs, now);
    r.(next := Prune(r.next, now))
  }

  method RunGate(observations: seq<Obs>, prev: Gate, now: int)
    returns (alerts: seq<Alert>, clears: seq<Recovery>, next: Gate)
    ensures Result(alerts, clears, next) == Beat(prev, observations, now)
  {
    var today, yesterday := Day(now), Day(now - DAY_MS);
    var alerted, active := prev.alerted, prev.active;
    alerts, clears := [], [];
    for i := 0 to |observations|
      invariant Result(alerts, clears, Gate(alerted, active)) == ObserveAll(prev, observations[..i], now)
    {
      var obs := observations[i];
      assert observations[..i + 1][..i] == observations[..i];
      if obs.state.Breach? {
        if !(obs.key in alerted && alerted[obs.key] == today) {
          alerts := alerts + [Alert(obs.key, obs.state.text)];
          alerted := alerted[obs.key := today];
        }
        if obs.key !in active {
          active := active[obs.key := now];
        }
      } else if obs.state.Clear? {
        if obs.key in active {
          clears := clears + [Recovery(obs.key, obs.state.clearText)];
          active := active - {obs.key};
        }
      }
    }
    assert observations[..|observations|] == observations;
    ghost var all := alerted;
    var keys := alerted.Keys;
    while keys != {}
      invariant keys <= all.Keys && alerted.Keys <= all.Keys
      invariant forall k :: k in all ==>
                  if k in keys || Recent(all[k], now) then k in alerted && alerted[k] == all[k] else k !in alerted
      decreases |keys|
    {
      var k :| k in keys;
      if alerted[k] != today && alerted[k] != yesterday {
        alerted := alerted - {k};
      }
      keys := keys - {k};
    }
    next := Gate(alerted, active);
  }

  // ---- disk observations ----

  /** One row of the disk query; a value that is not a number is None. */
  datatype DiskRow = DiskRow(host: string, tags: string, usedRatio: Option<real>, samples: Option<real>)

  datatype Config = Config(host: string, mounts: seq<string>, diskAlertRatio: real, diskClearRatio: real)

  function LowerChar(c: char): char {
    if 'A' <= c <= 'Z' then (c as int + 32) as char else c
  }

  function Lower(s: string): string {
    seq(|s|, i requires 0 <= i < |s| => LowerChar(s[i]))
  }

  predicate SameHost(a: string, b: string) {
    Lower(a) == Lower(b)
  }

  /** Character for character the same, or an ASCII letter and its capital. */
  predicate SameButForCase(a: string, b: string) {
    |a| == |b| && forall i :: 0 <= i < |a| ==> a[i] == b[i] || Capital(a[i], b[i]) || Capital(b[i], a[i])
  }

  predicate Capital(upper: char, lower: char) {
    'A' <= upper <= 'Z' && 'a' <= lower <= 'z' && lower as int - 'a' as int == upper as int - 'A' as int
  }

  lemma SameHostIgnoresCase(a: string, b: string)
    ensures SameHost(a, b) <==> SameButForCase(a, b)
  {
    if SameHost(a, b) {
      forall i | 0 <= i < |a| ensures a[i] == b[i] || Capital(a[i], b[i]) || Capital(b[i], a[i]) {
        assert Lower(a)[i] == Lower(b)[i];
      }
    }
  }

  predicate RowIsFor(row: DiskRow, host: string, mount: string) {
    SameHost(row.host, host) && mount != "" && Tags.FirstMount(Tags.Split(row.tags)) == Some(mount)
  }

  /** The row that counts for a mount: the last one for it. */
  function LastRow(rows: seq<DiskRow>, host: string, mount: string): Option<DiskRow> {
    if rows == [] then None
    else if RowIsFor(rows[|rows| - 1], host, mount) then Some(rows[|rows| - 1])
    else LastRow(rows[..|rows| - 1], host, mount)
  }

  /** The row was reported by the host, whatever the case of its name, and is tagged with the mountpoint. */
  predicate Reports(row: DiskRow, host: string, mount: string) {
    SameButForCase(row.host, host) && mount != "" && Tags.FirstMount(Tags.Split(row.tags)) == Some(mount)
  }

  /** No later row of the table reports the same. */
  ghost predicate IsLatest(rows: seq<DiskRow>, i: nat, host: string, mount: string)
    requires i < |rows|
  {
    Reports(rows[i], host, mount) && forall k :: i < k < |rows| ==> !Reports(rows[k], host, mount)
  }

  lemma {:induction false} LastRowIsLatest(rows: seq<DiskRow>, host: string, mount: string)
    ensures LastRow(rows, host, mount).None? ==> forall i :: 0 <= i < |rows| ==> !Reports(rows[i], host, mount)
    ensures forall i :: 0 <= i < |rows| && IsLatest(rows, i, host, mount) ==>
              LastRow(rows, host, mount) == Some(rows[i])
    ensures LastRow(rows, host, mount).Some? ==> exists i :: 0 <= i < |rows| && IsLatest(rows, i, host, mount)
  {
    if rows != [] {
      var n := |rows| - 1;
      SameHostIgnoresCase(rows[n].host, host);
      LastRowIsLatest(rows[..n], host, mount);
      assert forall i :: 0 <= i < n ==> rows[..n][i] == rows[i];
      if RowIsFor(rows[n], host, mount) {
        assert IsLatest(rows, n, host, mount);
      } else {
        assert forall i :: 0 <= i < n ==> IsLatest(rows, i, host, mount) == IsLatest(rows[..n], i, host, mount);
      }
    }
  }

  /** Three states: over the alert ratio, under the clear ratio, or in between and unknown. */
  function DiskState(row: Option<DiskRow>, mount: string, cfg: Config): State {
    if row.None? || (row.value.samples.Some? && row.value.samples.value < 1.0) then Unknown
    else if row.value.usedRatio.None? then Unknown
    else if row.value.usedRatio.value > cfg.diskAlertRatio then Breach(mount)
    else if row.value.usedRatio.value < cfg.diskClearRatio then Clear(mount)
    else Unknown
  }

  /** The last row counts if it holds a sample and a number. */
  predicate Usable(row: DiskRow) {
    (row.samples.Some? ==> row.samples.value >= 1.0) && row.usedRatio.Some?
  }

  /** Breaching above the alert ratio, clear below the clear ratio, else unknown. */
  ghost predicate JudgedBy(state: State, row: DiskRow, cfg: Config, mount: string) {
    && (state.Breach? <==> Usable(row) && row.usedRatio.value > cfg.diskAlertRatio)
    && (state.Clear? <==>
          Usable(row) && row.usedRatio.value < cfg.diskClearRatio && row.usedRatio.value <= cfg.diskAlertRatio)
    && (state.Breach? ==> state.text == mount) && (state.Clear? ==> state.clearText == mount)
  }

  /** The last row per mount, by mount. */
  method RowsByMount(disk: seq<DiskRow>, host: string) returns (byMount: map<string, DiskRow>)
    ensures forall m :: (if m in byMount then Some(byMount[m]) else None) == LastRow(disk, host, m)
    ensures forall m, i :: 0 <= i < |disk| && IsLatest(disk, i, host, m) ==> m in byMount && byMount[m] == disk[i]
    ensures forall m :: m in byMount ==> exists i :: 0 <= i < |disk| && IsLatest(disk, i, host, m)
  {
    forall m
      ensures forall i :: 0 <= i < |disk| && IsLatest(disk, i, host, m) ==> LastRow(disk, host, m) == Some(disk[i])
      ensures LastRow(disk, host, m).Some? ==> exists i :: 0 <= i < |disk| && IsLatest(disk, i, host, m)
    {
      LastRowIsLatest(disk, host, m);
    }
    byMount := map[];
    for i := 0 to |disk|
      invariant forall m :: (if m in byMount then Some(byMount[m]) else None) == LastRow(disk[..i], host, m)
    {
      var row := disk[i];
      assert disk[..i + 1][..i] == disk[..i];
      if SameHost(row.host, host) {
        var mp := Tags.MountpointOf(row.tags);
        if mp.Some? && mp.value != "" {
          byMount := byMount[mp.value := row];
        }
      }
    }
    assert disk[..|disk|] == disk;
  }

  method JudgeMount(byMount: map<string, DiskRow>, mount: string, cfg: Config) returns (state: State)
    ensures mount !in byMount ==> state.Unknown?
    ensures mount in byMount ==> JudgedBy(state, byMount[mount], cfg, mount)
    ensures state == DiskState(if mount in byMount then Some(byMount[mount]) else None, mount, cfg)
  {
    if mount !in byMount || (byMount[mount].samples.Some? && byMount[mount].samples.value < 1.0) {
      return Unknown;
    }
    var ratio := byMount[mount].usedRatio;
    if ratio.None? {
      state := Unknown;
    } else if ratio.value > cfg.diskAlertRatio {
      state := Breach(mount);
    } else if ratio.value < cfg.diskClearRatio {
      state := Clear(mount);
    } else {
      state := Unknown;
    }
  }

  function DiskObs(disk: seq<DiskRow>, cfg: Config, mount: string): Obs {
    Obs("disk:" + mount, DiskState(LastRow(disk, cfg.host, mount), mount, cfg))
  }

  /**
    The verdict on a mount: by the latest row that reports it, breaching above the alert
    ratio, clear below the clear ratio, and unknown in between or if that row is not
    usable; unknown too if no row reports it.
  */
  ghost predicate JudgedByLatest(obs: Obs, disk: seq<DiskRow>, cfg: Config, mount: string) {
    && obs.key == "disk:" + mount
    && ((forall i :: 0 <= i < |disk| ==> !Reports(disk[i], cfg.host, mount)) ==> obs.state.Unknown?)
    && forall i :: 0 <= i < |disk| && IsLatest(disk, i, cfg.host, mount) ==> JudgedBy(obs.state, disk[i], cfg, mount)
  }

  method EvaluateDisk(disk: seq<DiskRow>, cfg: Config) returns (out: seq<Obs>)
    ensures |out| == |cfg.mounts|
    ensures forall i :: 0 <= i < |out| ==> out[i] == DiskObs(disk, cfg, cfg.mounts[i])
    ensures forall i :: 0 <= i < |out| ==> JudgedByLatest(out[i], disk, cfg, cfg.mounts[i])
  {
    forall i | 0 <= i < |cfg.mounts|
      ensures JudgedByLatest(DiskObs(disk, cfg, cfg.mounts[i]), disk, cfg, cfg.mounts[i])
    {
      LastRowIsLatest(disk, cfg.host, cfg.mounts[i]);
    }
    var byMount := RowsByMount(disk, cfg.host);
    out := [];
    for i := 0 to |cfg.mounts|
      invariant |out| == i
      invariant forall j :: 0 <= j < i ==> out[j] == DiskObs(disk, cfg, cfg.mounts[j])
    {
      var state := JudgeMount(byMount, cfg.mounts[i], cfg);
      out := out + [Obs("disk:" + cfg.mounts[i], state)];
    }
  }

  // ---- the beat, with a network that can fail ----

  datatype Network = AllWell | PostFails | SaveFails

  /** What the channel receives from a beat: nothing, or one message with these lines. */
  datatype Posted = Posted(alerts: seq<Alert>, clears: seq<Recovery>)

  /** Post first, persist after; a failed post throws before anything is stored. */
  function VitalsBeat(g: Gate, obs: seq<Obs>, now: int, net: Network): (Gate, Option<Posted>) {
    var r := Beat(g, obs, now);
    if r.alerts == [] && r.clears == [] then (if net.SaveFails? then g else r.next, None)
    else match net
      case PostFails => (g, None)
      case SaveFails => (g, Some(Posted(r.alerts, r.clears)))
      case AllWell => (r.next, Some(Posted(r.alerts, r.clears)))
  }

  /** The collector's view of the shared document. */
  class VitalsLane {
    var gate: Gate

    constructor ()
      ensures gate == Gate(map[], map[])
    {
      gate := Gate(map[], map[]);
    }

    method RunVitals(observations: seq<Obs>, now: int, net: Network) returns (posted: Option<Posted>)
      modifies this
      ensures (gate, posted) == VitalsBeat(old(gate), observations, now, net)
    {
      var alerts, clears, next := RunGate(observations, gate, now);
      posted := None;
      if alerts != [] || clears != [] {
        if net.PostFails? {
          return;
        }
        posted := Some(Posted(alerts, clears));
      }
      if net.SaveFails? {
        return;
      }
      gate := next;
    }
  }
}
