/**
  The loop-health rollup (workers/fleet-bus/src/digest.js): one line per topic and
  a headline as bad as the worst of them.
*/
module Digest {
  import opened Prelude
  import Topic
  import TopicRuns

  /** One entry of the /stat payload. */
  datatype Health =
    | Work(depth: nat, dead: nat, parkedUntil: Option<int>, oldestAgeSec: Option<int>)
    | EventStream(streamDepth: nat)
    | Telemetry(ageSec: Option<int>, silent: bool, silentSince: Option<int>)

  datatype Severity = Fine | Warning | Down

  function Rank(s: Severity): nat {
    match s
    case Fine => 0
    case Warning => 1
    case Down => 2
  }

  datatype Glyph = Green | Yellow | Red | White

  datatype Text =
    | Backlog(depth: nat, dead: nat, parkedForMs: Option<int>, oldestAgeSec: Option<int>)
    | StreamDepth(depth: nat)
    | SilentFor(sec: Option<int>)
    | LastSeen(ageSec: int)
    | NoDataYet

  datatype Line = Line(glyph: Glyph, topic: string, text: Text)

  predicate IsParked(parkedUntil: Option<int>, now: int) {
    parkedUntil.Some? && parkedUntil.value != 0 && parkedUntil.value > now
  }

  function LineOf(topic: string, h: Health, now: int): Line {
    match h
    case Work(depth, dead, parkedUntil, oldest) =>
      var parked := IsParked(parkedUntil, now);
      Line(if parked || dead > 0 then Yellow else Green, topic,
           Backlog(depth, dead, if parked then Some(parkedUntil.value - now) else None, oldest))
    case EventStream(depth) => Line(White, topic, StreamDepth(depth))
    case Telemetry(age, silent, since) =>
      if silent then
        Line(Red, topic, SilentFor(if since.Some? &&
              since.value != 0 then Some(Topic.RoundSec(now - since.value)) else None))
      else if age.Some? then Line(Green, topic, LastSeen(age.value))
      else Line(White, topic, NoDataYet)
  }

  /** How bad a topic is, read off its health alone. */
  function SeverityOf(h: Health, now: int): Severity {
    match h
    case Work(_, dead, parkedUntil, _) => if IsParked(parkedUntil, now) || dead > 0 then Warning else Fine
    case EventStream(_) => Fine
    case Telemetry(_, silent, _) => if silent then Down else Fine
  }

  /** `worst` is the maximum severity over the topics; no topics is fine. */
  ghost predicate IsHeadline(worst: Severity, topics: seq<(string, Health)>, now: int) {
    && (forall t :: t in topics ==> Rank(SeverityOf(t.1, now)) <= Rank(worst))
    && (worst == Fine || exists t :: t in topics && SeverityOf(t.1, now) == worst)
  }

  /** What a reader may conclude from a line: every number on it, and why it has its colour. */
  ghost predicate Tells(line: Line, topic: string, h: Health, now: int) {
    && line.topic == topic
    && match h
       case Work(depth, dead, parkedUntil, oldest) =>
         var free := parkedUntil == None || parkedUntil == Some(0) || parkedUntil.value <= now;
         && (line.glyph == if free && dead == 0 then Green else Yellow)
         && line.text == Backlog(depth, dead, if free then None else Some(parkedUntil.value - now), oldest)
       case EventStream(depth) => line.glyph == White && line.text == StreamDepth(depth)
       case Telemetry(age, silent, since) =>
         && (line.glyph == if silent then Red else if age.Some? then Green else White)
         && (!silent ==> line.text == if age.Some? then LastSeen(age.value) else NoDataYet)
         && (silent ==> line.text.SilentFor? && (line.text.sec.None? <==> since == None || since == Some(0)))
         && (silent && line.text.sec.Some? ==> Topic.Rounds(now - since.value, line.text.sec.value))
  }

  /** Nothing to report: neither silent, nor parked, nor holding dead letters. */
  predicate Unremarkable(h: Health, now: int) {
    && (h.Telemetry? ==> !h.silent)
    && (h.Work? ==> h.dead == 0 && (h.parkedUntil.Some? ==> h.parkedUntil.value == 0 || h.parkedUntil.value <= now))
  }

  method RenderDigest(topics: seq<(string, Health)>, now: int) returns (lines: seq<Line>, worst: Severity)
    ensures |lines| == |topics|
    ensures forall i :: 0 <= i < |topics| ==> lines[i] == LineOf(topics[i].0, topics[i].1, now)
    ensures IsHeadline(worst, topics, now)
    ensures forall i :: 0 <= i < |topics| ==> Tells(lines[i], topics[i].0, topics[i].1, now)
    ensures worst == Down <==> exists t :: t in topics && t.1.Telemetry? && t.1.silent
    ensures worst == Fine <==> forall t :: t in topics ==> Unremarkable(t.1, now)
  {
    lines, worst := [], Fine;
    for i := 0 to |topics|
      invariant |lines| == i
      invariant forall j :: 0 <= j < i ==> lines[j] == LineOf(topics[j].0, topics[j].1, now)
      invariant forall j :: 0 <= j < i ==> Rank(SeverityOf(topics[j].1, now)) <= Rank(worst)
      invariant worst == Fine || exists j :: 0 <= j < i && SeverityOf(topics[j].1, now) == worst
    {
      var (topic, h) := topics[i];
      match h {
        case Work(depth, dead, parkedUntil, oldest) =>
          var parked := IsParked(parkedUntil, now);
          var glyph := if parked then Yellow else if dead > 0 then Yellow else Green;
          if glyph == Yellow && worst == Fine {
            worst := Warning;
          }
          lines := lines + [Line(glyph, topic,
                                 Backlog(depth, dead, if parked then Some(parkedUntil.value - now) else None, oldest))];
        case EventStream(depth) =>
          lines := lines + [Line(White, topic, StreamDepth(depth))];
        case Telemetry(age, silent, since) =>
          if silent {
            worst := Down;
            var sec := if since.Some? && since.value != 0 then Some(Topic.RoundSec(now - since.value)) else None;
            lines := lines + [Line(Red, topic, SilentFor(sec))];
          } else if age.Some? {
            lines := lines + [Line(Green, topic, LastSeen(age.value))];
          } else {
            lines := lines + [Line(White, topic, NoDataYet)];
          }
      }
    }
  }

  /** The headline does not depend on the order the topics are listed in. */
  lemma HeadlineIgnoresOrder(some: seq<(string, Health)>, other: seq<(string, Health)>,
                             worst: Severity, worst': Severity, now: int)
    requires multiset(some) == multiset(other)
    requires IsHeadline(worst, some, now) && IsHeadline(worst', other, now)
    ensures worst == worst'
  {
    forall t ensures t in some <==> t in other {
      assert t in some <==> t in multiset(some);
    }
  }

  /** What /stat reports for a telemetry topic. */
  function HealthOf(stat: Topic.Stat, now: int): Health {
    Telemetry(if stat.retained.Some? then Some(Topic.RoundSec(now - stat.retained.value.updatedAt)) else None,
              stat.silent, stat.silentSince)
  }

  /** A TTL has gone by since the publish. */
  predicate Past(last: TopicRuns.Published, now: int) {
    last.at + last.ttl * 1000 <= now
  }

  /**
    The three telemetry lines against everything that can have happened to a topic:
    "no data yet" exactly if it was never published, or a TTL has gone by since its last
    publish and the alarm has not run yet; "silent" exactly if the last note sent was a
    silence, with the time since then; "last seen" exactly until a TTL after the last
    publish, with the time since then.
  */
  lemma DigestAgreesWithTopic(clock: int, es: seq<TopicRuns.Event>, topic: string)
    requires TopicRuns.Legal(TopicRuns.Start(clock), es)
    ensures var w := TopicRuns.Run(TopicRuns.Start(clock), es);
            var text := LineOf(topic, HealthOf(Topic.StatOf(w.store, w.clock), w.clock), w.clock).text;
            && (text.NoDataYet? <==> w.published.None? || (w.store.retained.Some? && Past(w.published.value, w.clock)))
            && (text.SilentFor? <==> w.filed != [] && w.filed[|w.filed| - 1].note.Silent?)
            && (text.LastSeen? <==> w.published.Some? && !Past(w.published.value, w.clock))
            && (text.LastSeen? ==> Topic.Rounds(w.clock - w.published.value.at, text.ageSec))
            && (text.SilentFor? ==>
                  var since := w.filed[|w.filed| - 1].at;
                  && (text.sec.None? <==> since == 0)
                  && (text.sec.Some? ==> Topic.Rounds(w.clock - since, text.sec.value)))
  {
    TopicRuns.LivenessAlternates(TopicRuns.Start(clock), es);
    var w := TopicRuns.Run(TopicRuns.Start(clock), es);
    if w.filed != [] {
      assert TopicRuns.Turn(w.filed, |w.filed| - 1);
    }
  }

  /** So "no data yet" does not mean "never started": a published topic shows it while its alarm is late. */
  lemma PublishedButNoDataYet(envelope: string, topic: string)
    ensures var es := [TopicRuns.Publishes(envelope, 1), TopicRuns.Tick(1000)];
            && TopicRuns.Legal(TopicRuns.Start(0), es)
            && var w := TopicRuns.Run(TopicRuns.Start(0), es);
            && w.published.Some?
            && LineOf(topic, HealthOf(Topic.StatOf(w.store, w.clock), w.clock), w.clock).text == NoDataYet
  {
    var es := [TopicRuns.Publishes(envelope, 1), TopicRuns.Tick(1000)];
    var w1 := TopicRuns.Step(TopicRuns.Start(0), es[0]);
    var w2 := TopicRuns.Step(w1, es[1]);
    assert es[1..] == [TopicRuns.Tick(1000)];
    assert es[1..][1..] == [];
    assert TopicRuns.Legal(w1, es[1..]);
    assert TopicRuns.Run(TopicRuns.Start(0), es) == TopicRuns.Run(w1, es[1..]) == w2;
  }
}
