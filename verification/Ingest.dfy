/** Receipt of metric reports: the backfill window, batch de-duplication and pruning of its records, and the hand-over
    to the pipeline. Times are milliseconds of the server's clock. */
module Ingest {
  import opened Ordering
  import opened ByteCodec
  import opened ChunkTable

  const BACKFILL_MS := 24 * HOUR_MS    // backfillWindow
  const DEDUP_KEEP_MS := 25 * HOUR_MS  // how long a batch record is kept
  const SECOND_MS := 1000

  predicate InWindow(ts: int, now: int) { ts >= now - BACKFILL_MS }

  /** What the RFC 3339 text of a time keeps of it: whole seconds. */
  function Seconds(ms: int): int { ms / SECOND_MS }

  /** The records that are not older than their keeping time. */
  function PrunedDedup(dedup: map<string, int>, now: int): map<string, int>
  {
    map id | id in dedup && dedup[id] >= Seconds(now - DEDUP_KEEP_MS) :: dedup[id]
  }

  // ---------- receipt as interleaved steps ----------

  /** A handler between its window check and its de-duplication statement. */
  datatype Pending = Pending(batch: string, ts: int, checkedAt: int)

  /** `ingested` lists the batches handed to the pipeline; `marked` remembers when each was first recorded. */
  datatype State = State(now: int, dedup: map<string, int>, pending: map<nat, Pending>, ingested: seq<string>,
                         marked: map<string, int>)

  datatype Step =
    | Tick(ms: nat)
    | Receive(handler: nat, batch: string, stamp: int)
    | Mark(handler: nat)
    | Prune

  /** Batch time stamps, how far they may run ahead of the server, and how long a handler may stall. */
  datatype Bounds = Bounds(stamps: map<string, int>, ahead: nat, stall: nat)

  function ReportTime(stamp: int, now: int): int { if stamp > 0 then stamp else now }

  predicate Allowed(s: State, step: Step, b: Bounds)
  {
    match step
    case Tick(_) => true
    case Receive(h, batch, stamp) =>
      h !in s.pending && (batch != "" ==> batch in b.stamps && stamp == b.stamps[batch] && 0 < stamp <= s.now + b.ahead)
    case Mark(h) => h in s.pending && s.now - s.pending[h].checkedAt <= b.stall
    case Prune => true
  }

  function Next(s: State, step: Step): State
  {
    match step
    case Tick(ms) => s.(now := s.now + ms)
    case Receive(h, batch, stamp) =>
      var ts := ReportTime(stamp, s.now);
      if InWindow(ts, s.now) then s.(pending := s.pending[h := Pending(batch, ts, s.now)]) else s
    case Mark(h) =>
      if h !in s.pending then s
      else
        var p, rest := s.pending[h], s.pending - {h};
        if p.batch == "" then s.(pending := rest, ingested := s.ingested + [p.batch])
        else if p.batch in s.dedup then s.(pending := rest)
        else s.(pending := rest, ingested := s.ingested + [p.batch], dedup := s.dedup[p.batch := Seconds(s.now)],
                marked := s.marked[p.batch := s.now])
    case Prune => s.(dedup := PrunedDedup(s.dedup, s.now))
  }

  function Run(s: State, steps: seq<Step>): State
    decreases |steps|
  {
    if steps == [] then s else Run(Next(s, steps[0]), steps[1..])
  }

  predicate Legal(s: State, steps: seq<Step>, b: Bounds)
    decreases |steps|
  {
    steps == [] || (Allowed(s, steps[0], b) && Legal(Next(s, steps[0]), steps[1..], b))
  }

  function Start(now: int): State { State(now, map[], map[], [], map[]) }

  ghost predicate Once(s: State)
  {
    forall id :: id != "" ==> multiset(s.ingested)[id] <= 1
  }

  /** Whatever is received, replayed, pruned and delayed within these bounds, no batch reaches the pipeline twice. */
  ghost predicate AlwaysOnce(ahead: nat, stall: nat)
  {
    forall now, steps, stamps :: Legal(Start(now), steps, Bounds(stamps, ahead, stall)) ==> Once(Run(Start(now), steps))
  }

  // ---------- the invariant ----------

  ghost predicate PendingOk(s: State, b: Bounds)
  {
    forall h {:trigger s.pending[h]} :: h in s.pending ==>
      var p := s.pending[h];
      p.checkedAt <= s.now
      && (p.batch != "" ==>
            && p.batch in b.stamps && p.ts == b.stamps[p.batch]
            && p.checkedAt - BACKFILL_MS <= p.ts <= p.checkedAt + b.ahead)
  }

  /** A record gone from the table was pruned, so it is older than its keeping time. */
  ghost predicate MarkedOk(s: State, b: Bounds)
  {
    forall id {:trigger s.marked[id]} :: id in s.marked ==>
      && id != "" && s.marked[id] <= s.now
      && id in b.stamps && b.stamps[id] <= s.marked[id] + b.ahead
      && (if id in s.dedup then s.dedup[id] == Seconds(s.marked[id]) else s.marked[id] < s.now - DEDUP_KEEP_MS)
  }

  ghost predicate CountedOk(s: State)
  {
    && (forall id :: id in s.dedup ==> id in s.marked)
    && (forall id :: id != "" ==> multiset(s.ingested)[id] == if id in s.marked then 1 else 0)
  }

  ghost predicate Inv(s: State, b: Bounds) { PendingOk(s, b) && MarkedOk(s, b) && CountedOk(s) }

  /** A replay that passed the window check still finds its record. */
  lemma StillRecorded(s: State, h: nat, b: Bounds)
    requires Inv(s, b) && Allowed(s, Mark(h), b) && b.ahead + b.stall <= HOUR_MS
    ensures s.pending[h].batch in s.marked ==> s.pending[h].batch in s.dedup
  {
    var id := s.pending[h].batch;
    if id in s.marked { var at := s.marked[id]; }
  }

  lemma MarkKeeps(s: State, h: nat, b: Bounds)
    requires Inv(s, b) && Allowed(s, Mark(h), b) && b.ahead + b.stall <= HOUR_MS
    ensures Inv(Next(s, Mark(h)), b)
  {
    StillRecorded(s, h, b);
    var t := Next(s, Mark(h));
    assert forall k :: k in t.pending ==> t.pending[k] == s.pending[k];
    assert MarkedOk(t, b);
  }

  lemma StepKeeps(s: State, step: Step, b: Bounds)
    requires Inv(s, b) && Allowed(s, step, b) && b.ahead + b.stall <= HOUR_MS
    ensures Inv(Next(s, step), b)
  {
    match step
    case Mark(h) => MarkKeeps(s, h, b);
    case Prune =>
      var t := Next(s, step);
      forall id | id in t.marked && id !in t.dedup ensures t.marked[id] < t.now - DEDUP_KEEP_MS {
        assert id in s.marked && s.marked[id] == t.marked[id];
      }
    case Receive(_, _, _) =>
    case Tick(_) =>
  }

  lemma {:induction false} RunKeeps(s: State, steps: seq<Step>, b: Bounds)
    requires Inv(s, b) && Legal(s, steps, b) && b.ahead + b.stall <= HOUR_MS
    ensures Inv(Run(s, steps), b)
    decreases |steps|
  {
    if steps == [] {
    } else {
      StepKeeps(s, steps[0], b);
      RunKeeps(Next(s, steps[0]), steps[1..], b);
    }
  }

  lemma OnceWithinAnHour(ahead: nat, stall: nat)
    requires ahead + stall <= HOUR_MS
    ensures AlwaysOnce(ahead, stall)
  {
    forall now, steps, stamps | Legal(Start(now), steps, Bounds(stamps, ahead, stall))
      ensures Once(Run(Start(now), steps)) {
      RunKeeps(Start(now), steps, Bounds(stamps, ahead, stall));
    }
  }

  // ---------- beyond an hour ----------

  /** The batch is recorded in the last millisecond of a second, and its replay passes the window check just before the
      record goes. */
  function Replay(stamp: int, wait: nat, stall: nat): seq<Step>
  {
    [Receive(0, "b", stamp), Mark(0), Tick(wait), Receive(1, "b", stamp), Tick(stall), Prune, Mark(1)]
  }

  lemma {:induction false} RunNext(s: State, step: Step, rest: seq<Step>, b: Bounds)
    ensures Run(s, [step] + rest) == Run(Next(s, step), rest)
    ensures Legal(s, [step] + rest, b) == (Allowed(s, step, b) && Legal(Next(s, step), rest, b))
  {
    assert ([step] + rest)[1..] == rest;
  }

  /** The state with batch "b" recorded at 999 ms and no handler at work. */
  function Recorded(now: int): State { State(now, map["b" := 0], map[], ["b"], map["b" := 999]) }

  /** The first receipt records and ingests the batch. */
  lemma {:induction false} ReplayStarts(stamp: int, wait: nat, rest: seq<Step>, b: Bounds)
    requires b.stamps == map["b" := stamp] && 999 <= stamp <= 999 + b.ahead
    ensures var steps := [Receive(0, "b", stamp), Mark(0), Tick(wait)] + rest;
            && Run(Start(999), steps) == Run(Recorded(999 + wait), rest)
            && Legal(Start(999), steps, b) == Legal(Recorded(999 + wait), rest, b)
  {
    var steps := [Receive(0, "b", stamp), Mark(0), Tick(wait)] + rest;
    var s1 := State(999, map[], map[0 := Pending("b", stamp, 999)], [], map[]);
    assert Next(Start(999), steps[0]) == s1;
    assert s1.pending - {0} == map[];
    assert Next(s1, steps[1]) == Recorded(999);
    assert Next(Recorded(999), steps[2]) == Recorded(999 + wait);
    RunNext(Recorded(999), Tick(wait), rest, b);
    RunNext(s1, Mark(0), [Tick(wait)] + rest, b);
    RunNext(Start(999), steps[0], [Mark(0)] + ([Tick(wait)] + rest), b);
    assert steps == [steps[0]] + ([Mark(0)] + ([Tick(wait)] + rest));
  }

  /** From the state where the record is about to go: the replay is checked, the record pruned, the replay ingested. */
  lemma {:induction false} ReplayEnds(stamp: int, stall: nat, b: Bounds)
    requires stall <= b.stall && b.stamps == map["b" := stamp] && stamp > 0
    requires 1000 + HOUR_MS - stall <= stamp <= 999 + b.ahead && stall <= HOUR_MS + 1
    ensures var s, steps := Recorded(DEDUP_KEEP_MS + 1000 - stall),
            [Receive(1, "b", stamp), Tick(stall), Prune, Mark(1)];
            Legal(s, steps, b) && Run(s, steps).ingested == ["b", "b"]
  {
    var s, steps := Recorded(DEDUP_KEEP_MS + 1000 - stall), [Receive(1, "b", stamp), Tick(stall), Prune, Mark(1)];
    var s1 := s.(pending := map[1 := Pending("b", stamp, s.now)]);
    var s2 := s1.(now := DEDUP_KEEP_MS + 1000);
    var s3 := s2.(dedup := map[]);
    assert Next(s, steps[0]) == s1;
    assert Next(s1, steps[1]) == s2;
    assert PrunedDedup(s2.dedup, s2.now) == map[];
    assert Next(s2, steps[2]) == s3;
    RunNext(s3, Mark(1), [], b);
    RunNext(s2, Prune, [Mark(1)], b);
    RunNext(s1, Tick(stall), [Prune] + [Mark(1)], b);
    RunNext(s, steps[0], [Tick(stall)] + ([Prune] + [Mark(1)]), b);
    assert steps == [steps[0]] + ([Tick(stall)] + ([Prune] + [Mark(1)]));
    assert [Mark(1)] == [Mark(1)] + [];
    assert Next(s3, Mark(1)).ingested == ["b", "b"];
  }

  lemma ReplayIsIngestedTwice(ahead: nat, stall: nat)
    requires ahead + stall > HOUR_MS
    ensures !AlwaysOnce(ahead, stall)
  {
    var d := if stall <= HOUR_MS + 1 then stall else HOUR_MS + 1;
    var stamp, wait := 1000 + HOUR_MS - d, DEDUP_KEEP_MS + 1 - d;
    var b := Bounds(map["b" := stamp], ahead, stall);
    var rest := [Receive(1, "b", stamp), Tick(d), Prune, Mark(1)];
    ReplayStarts(stamp, wait, rest, b);
    ReplayEnds(stamp, d, b);
    assert Replay(stamp, wait, d) == [Receive(0, "b", stamp), Mark(0), Tick(wait)] + rest;
    assert Legal(Start(999), Replay(stamp, wait, d), b);
    assert multiset(Run(Start(999), Replay(stamp, wait, d)).ingested)["b"] == 2;
  }

  /** No batch is ingested twice exactly when clock lead and handler stall together stay within the hour by which the
      records outlive the backfill window. */
  lemma OnceExactlyWithinAnHour(ahead: nat, stall: nat)
    ensures AlwaysOnce(ahead, stall) <==> ahead + stall <= 3_600_000
  {
    if ahead + stall <= HOUR_MS { OnceWithinAnHour(ahead, stall); } else { ReplayIsIngestedTwice(ahead, stall); }
  }

  // ---------- the handler ----------

  datatype Sensor = Sensor(name: string, device: string, value: Pattern)
  datatype Report = Report(batch: string, stamp: int, sensors: seq<Sensor>)
  datatype Host = Host(id: nat, hostname: string)

  const ONE_VALUE: Pattern := [0x3F, 0xF0, 0, 0, 0, 0, 0, 0]

  function HostLabels(host: Host): map<string, string>
  {
    map["host_id" := Digits(host.id), "host" := host.hostname, "mode" := "agent"]
  }

  function SensorSample(m: Sensor, host: Host, ts: int): Sample
  {
    Sample(m.name, if m.device != "" then HostLabels(host)["device" := m.device] else HostLabels(host), m.value, ts)
  }

  function UpSample(host: Host, ts: int): Sample { Sample("up", HostLabels(host), ONE_VALUE, ts) }

  /** One sample for each sensor whose metric is known, in order. */
  function SensorSamples(sensors: seq<Sensor>, host: Host, ts: int, known: set<string>): seq<Sample>
  {
    if sensors == [] then []
    else
      var m := sensors[|sensors| - 1];
      SensorSamples(sensors[..|sensors| - 1], host, ts, known)
        + (if m.name in known then [SensorSample(m, host, ts)] else [])
  }

  /** Every sample comes from a sensor with a known metric, and every such sensor gives one. */
  lemma {:induction false} SamplesOfKnownSensors(sensors: seq<Sensor>, host: Host, ts: int, known: set<string>,
                                                 x: Sample)
    ensures x in SensorSamples(sensors, host, ts, known)
       <==> exists i :: 0 <= i < |sensors| && sensors[i].name in known && x == SensorSample(sensors[i], host, ts)
  {
    if sensors == [] {
    } else {
      var n := |sensors| - 1;
      SamplesOfKnownSensors(sensors[..n], host, ts, known, x);
      assert forall i :: 0 <= i < n ==> sensors[..n][i] == sensors[i];
    }
  }

  /** Each sample carries the host, and the device if the sensor names one, and the sensor's value at the report's time;
      unknown sensors give none, and samples stand in the order of their sensors. */
  lemma {:induction false} SampleTells(m: Sensor, host: Host, ts: int, known: set<string>)
    ensures SensorSamples([m], host, ts, known)
         == if m.name in known then [Sample(m.name, SensorSample(m, host, ts).labels, m.value, ts)] else []
    ensures var labels := SensorSample(m, host, ts).labels;
            && labels.Keys == {"host_id", "host", "mode"} + (if m.device != "" then {"device"} else {})
            && labels["host_id"] == Digits(host.id) && labels["host"] == host.hostname && labels["mode"] == "agent"
            && (m.device != "" ==> labels["device"] == m.device)
    ensures UpSample(host, ts)
         == Sample("up", SensorSample(m.(device := ""), host, ts).labels, [0x3F, 0xF0, 0, 0, 0, 0, 0, 0], ts)
  {
    assert [m][..0] == [];
  }

  lemma {:induction false} SensorsInOrder(a: seq<Sensor>, b: seq<Sensor>, host: Host, ts: int, known: set<string>)
    ensures SensorSamples(a + b, host, ts, known)
         == SensorSamples(a, host, ts, known) + SensorSamples(b, host, ts, known)
  {
    if b == [] {
      assert a + b == a;
    } else {
      SensorsInOrder(a, b[..|b| - 1], host, ts, known);
      assert (a + b)[..|a + b| - 1] == a + b[..|b| - 1];
    }
  }

  /** Whether a report goes on to the pipeline. */
  predicate Taken(dedup: map<string, int>, batch: string, ts: int, checkedAt: int)
  {
    InWindow(ts, checkedAt) && (batch == "" || batch !in dedup)
  }

  function DedupAfter(dedup: map<string, int>, batch: string, taken: bool, seenAt: int): map<string, int>
  {
    if taken && batch != "" then dedup[batch := Seconds(seenAt)] else dedup
  }

  /** A handler run without interruption is its two steps. */
  lemma HandlingIsReceiveThenMark(s: State, h: nat, batch: string, stamp: int, seenAt: int)
    requires h !in s.pending && stamp > 0 && seenAt >= s.now
    ensures var s1 := Next(s, Receive(h, batch, stamp));
            var s2 := Next(Next(s1, Tick(seenAt - s.now)), Mark(h));
            var taken := Taken(s.dedup, batch, stamp, s.now);
            && s2.dedup == DedupAfter(s.dedup, batch, taken, seenAt)
            && s2.ingested == s.ingested + (if taken then [batch] else [])
            && s2.pending == s.pending
  {
    var s1 := Next(s, Receive(h, batch, stamp));
    assert s1.pending - {h} == s.pending;
  }

  class StreamServer {
    const known: set<string>  // the allowed metric names
    var dedup: map<string, int>
    var evaluated: seq<(Host, seq<Sample>, int)>  // what alert evaluation was given
    var online: map<nat, int>                     // hosts by the time they were last seen
    var used: map<int, int>                       // tokens by the time they were last used
    var pipeline: seq<seq<Sample>>

    constructor (known: set<string>)
      ensures this.known == known && dedup == map[] && evaluated == [] && online == map[] && used == map[]
              && pipeline == []
    {
      this.known := known;
      dedup, evaluated, online, used, pipeline := map[], [], map[], map[], [];
    }

    /** True when the batch was recorded before; records it otherwise. */
    method SeenBatch(batch: string, now: int) returns (seen: bool)
      modifies `dedup
      ensures seen == (batch in old(dedup))
      ensures dedup == if seen then old(dedup) else old(dedup)[batch := Seconds(now)]
    {
      seen := batch in dedup;
      if !seen { dedup := dedup[batch := Seconds(now)]; }
    }

    method PruneDedup(now: int)
      modifies `dedup
      ensures dedup == PrunedDedup(old(dedup), now)
      ensures forall id :: id in dedup <==> id in old(dedup) && old(dedup)[id] >= (now - 90_000_000) / 1000
      ensures forall id :: id in dedup ==> dedup[id] == old(dedup)[id]
    {
      var stale := set id | id in dedup && dedup[id] < Seconds(now - DEDUP_KEEP_MS);
      dedup := dedup - stale;
    }

    method BuildSamples(host: Host, sensors: seq<Sensor>, ts: int) returns (samples: seq<Sample>)
      ensures samples == SensorSamples(sensors, host, ts, known) + [UpSample(host, ts)]
    {
      samples := [];
      for i := 0 to |sensors|
        invariant samples == SensorSamples(sensors[..i], host, ts, known)
      {
        assert sensors[..i + 1][..i] == sensors[..i];
        var m := sensors[i];
        if m.name !in known { continue; }
        var labels := map["host_id" := Digits(host.id), "host" := host.hostname, "mode" := "agent"];
        if m.device != "" { labels := labels["device" := m.device]; }
        samples := samples + [Sample(m.name, labels, m.value, ts)];
      }
      TakeAll(sensors);
      samples := samples + [UpSample(host, ts)];
    }

    /** `received`, `checkedAt`, `seenAt` and `handledAt` are the handler's readings of the clock. */
    method HandleMetrics(token: int, host: Host, rep: Report, received: int, checkedAt: int, seenAt: int,
                         handledAt: int)
      modifies this
      ensures var ts := if rep.stamp > 0 then rep.stamp else received;
              var taken := Taken(old(dedup), rep.batch, ts, checkedAt);
              var samples := SensorSamples(rep.sensors, host, ts, known) + [UpSample(host, ts)];
              && dedup == DedupAfter(old(dedup), rep.batch, taken, seenAt)
              && pipeline == old(pipeline) + (if taken then [samples] else [])
              && evaluated == old(evaluated) + (if taken then [(host, samples, ts)] else [])
              && online == (if taken then old(online)[host.id := handledAt] else old(online))
              && used == (if taken then old(used)[token := handledAt] else old(used))
      ensures var ts := if rep.stamp > 0 then rep.stamp else received;
              var taken := ts >= checkedAt - 86_400_000 && (rep.batch == "" || rep.batch !in old(dedup));
              && |pipeline| == |old(pipeline)| + (if taken then 1 else 0)
              && dedup == (if taken && rep.batch != "" then old(dedup)[rep.batch := seenAt / 1000] else old(dedup))
    {
      var ts := received;
      if rep.stamp > 0 { ts := rep.stamp; }
      if ts < checkedAt - BACKFILL_MS { return; }
      if rep.batch != "" {
        var seen := SeenBatch(rep.batch, seenAt);
        if seen { return; }
      }
      var samples := BuildSamples(host, rep.sensors, ts);
      evaluated := evaluated + [(host, samples, ts)];
      online := online[host.id := handledAt];
      used := used[token := handledAt];
      pipeline := pipeline + [samples];
    }
  }
}
