/** Which completed cycles count for a measurement, what is measured from them, and the pipeline graph
    that carries the measurements. */
module Selection {
  import opened Wrappers
  import opened NearestRank

  datatype Stage = Observe | Propose | BuildJail | JudgeEvaluation | SupervisorCanary | CortexCommit

  const ALL_STAGES: seq<Stage> := [Observe, Propose, BuildJail, JudgeEvaluation, SupervisorCanary, CortexCommit]

  lemma EveryStage(s: Stage)
    ensures s in ALL_STAGES
  {
    assert ALL_STAGES[0] == Observe && ALL_STAGES[1] == Propose && ALL_STAGES[2] == BuildJail;
    assert ALL_STAGES[3] == JudgeEvaluation && ALL_STAGES[4] == SupervisorCanary && ALL_STAGES[5] == CortexCommit;
  }

  datatype Outcome = Passed | Refused | Failed

  datatype StageSample = StageSample(stage: Stage, durationUs: nat, outcome: Outcome)

  datatype CycleRecord = CycleRecord(cycleId: string, workloadKey: string, fingerprint: string, stages: seq<StageSample>)

  datatype Context = Context(workloadKey: string, fingerprint: string)

  datatype StageMeasurement =
    | Measured(latencyMedian: real, latencyP95: Option<real>, errorRate: real, sampleCount: nat)
    | Unavailable(reason: string, sampleCount: nat)

  predicate Eligible(r: CycleRecord, current: string, ctx: Context) {
    r.cycleId != current && r.workloadKey == ctx.workloadKey && r.fingerprint == ctx.fingerprint
  }

  /** The eligible records, each cycle once, first come first served. */
  function Compatible(records: seq<CycleRecord>, current: string, ctx: Context, seen: set<string>): seq<CycleRecord>
    decreases |records|
  {
    if records == [] then []
    else if Eligible(records[0], current, ctx) && records[0].cycleId !in seen then
      [records[0]] + Compatible(records[1..], current, ctx, seen + {records[0].cycleId})
    else Compatible(records[1..], current, ctx, seen)
  }

  function LastOf(rs: seq<CycleRecord>, n: nat): seq<CycleRecord> {
    if |rs| <= n then rs else rs[|rs| - n..]
  }

  /** The records a measurement is made from. */
  function Window(records: seq<CycleRecord>, current: string, ctx: Context, windowCycles: nat): seq<CycleRecord> {
    LastOf(Compatible(records, current, ctx, {}), windowCycles)
  }

  ghost function EligibleIds(records: seq<CycleRecord>, current: string, ctx: Context): set<string> {
    set r | r in records && Eligible(r, current, ctx) :: r.cycleId
  }

  lemma {:induction false} CompatibleIgnores(a: seq<CycleRecord>, x: CycleRecord, b: seq<CycleRecord>, current: string, ctx: Context, seen: set<string>)
    requires !Eligible(x, current, ctx) || x.cycleId in seen + EligibleIds(a, current, ctx)
    ensures Compatible(a + [x] + b, current, ctx, seen) == Compatible(a + b, current, ctx, seen)
    decreases |a|
  {
    if a == [] {
      assert a + [x] + b == [x] + b && a + b == b && ([x] + b)[1..] == b;
    } else {
      var rest := a[1..];
      assert (a + [x] + b)[0] == a[0] && (a + [x] + b)[1..] == rest + [x] + b;
      assert (a + b)[0] == a[0] && (a + b)[1..] == rest + b;
      var later := if Eligible(a[0], current, ctx) && a[0].cycleId !in seen then seen + {a[0].cycleId} else seen;
      if Eligible(x, current, ctx) && x.cycleId !in seen {
        var r :| r in a && Eligible(r, current, ctx) && r.cycleId == x.cycleId;
        assert r == a[0] || r in rest;
      }
      CompatibleIgnores(rest, x, b, current, ctx, later);
    }
  }

  /** Records of the current cycle, of another workload or another profile, and repetitions of a cycle
      that is already there, change nothing wherever they are inserted. */
  lemma WindowIgnores(a: seq<CycleRecord>, x: CycleRecord, b: seq<CycleRecord>, current: string, ctx: Context, windowCycles: nat)
    requires || x.cycleId == current || x.workloadKey != ctx.workloadKey || x.fingerprint != ctx.fingerprint
      || exists r :: r in a && SameCycle(r, x)
    ensures Window(a + [x] + b, current, ctx, windowCycles) == Window(a + b, current, ctx, windowCycles)
  {
    CompatibleIgnores(a, x, b, current, ctx, {});
  }

  /** The same cycle under the same workload and profile. */
  ghost predicate SameCycle(r: CycleRecord, x: CycleRecord) {
    r.cycleId == x.cycleId && r.workloadKey == x.workloadKey && r.fingerprint == x.fingerprint
  }

  lemma {:induction false} CompatibleSplit(a: seq<CycleRecord>, b: seq<CycleRecord>, current: string, ctx: Context, seen: set<string>)
    ensures Compatible(a + b, current, ctx, seen) == Compatible(a, current, ctx, seen) + Compatible(b, current, ctx, seen + EligibleIds(a, current, ctx))
    decreases |a|
  {
    if a == [] {
      assert a + b == b && EligibleIds(a, current, ctx) == {} && seen + {} == seen;
    } else {
      assert (a + b)[0] == a[0] && (a + b)[1..] == a[1..] + b && a == [a[0]] + a[1..];
      if Eligible(a[0], current, ctx) && a[0].cycleId !in seen {
        CompatibleSplit(a[1..], b, current, ctx, seen + {a[0].cycleId});
        assert seen + {a[0].cycleId} + EligibleIds(a[1..], current, ctx) == seen + EligibleIds(a, current, ctx);
      } else {
        CompatibleSplit(a[1..], b, current, ctx, seen);
        assert seen + EligibleIds(a[1..], current, ctx) == seen + EligibleIds(a, current, ctx);
      }
    }
  }

  lemma {:induction false} CompatibleKeepsAll(b: seq<CycleRecord>, current: string, ctx: Context, seen: set<string>)
    requires forall i :: 0 <= i < |b| ==> Eligible(b[i], current, ctx) && b[i].cycleId !in seen
    requires forall i, j :: 0 <= i < j < |b| ==> b[i].cycleId != b[j].cycleId
    ensures Compatible(b, current, ctx, seen) == b
    decreases |b|
  {
    if b != [] {
      CompatibleKeepsAll(b[1..], current, ctx, seen + {b[0].cycleId});
    }
  }

  lemma {:induction false} CompatibleOfNone(a: seq<CycleRecord>, current: string, ctx: Context, seen: set<string>)
    requires forall i :: 0 <= i < |a| ==> !Eligible(a[i], current, ctx)
    ensures Compatible(a, current, ctx, seen) == []
    decreases |a|
  {
    if a != [] {
      CompatibleOfNone(a[1..], current, ctx, seen);
    }
  }

  /** A measurement is made from the last cycles: when as many different cycles of this workload and
      profile follow as the window holds, or fewer with none of them before, it is made from those and
      nothing earlier matters. */
  lemma WindowIsLast(a: seq<CycleRecord>, b: seq<CycleRecord>, current: string, ctx: Context, windowCycles: nat)
    requires forall i :: 0 <= i < |b| ==> b[i].cycleId != current && b[i].workloadKey == ctx.workloadKey && b[i].fingerprint == ctx.fingerprint
    requires forall i, j :: 0 <= i < j < |b| ==> b[i].cycleId != b[j].cycleId
    requires forall i, j :: 0 <= i < |a| && 0 <= j < |b| ==> !SameCycle(a[i], b[j])
    requires || |b| == windowCycles
      || (|b| < windowCycles && forall i :: 0 <= i < |a| ==> a[i].cycleId == current || a[i].workloadKey != ctx.workloadKey || a[i].fingerprint != ctx.fingerprint)
    ensures Window(a + b, current, ctx, windowCycles) == b
  {
    CompatibleSplit(a, b, current, ctx, {});
    CompatibleKeepsAll(b, current, ctx, {} + EligibleIds(a, current, ctx));
    if |b| < windowCycles {
      CompatibleOfNone(a, current, ctx, {});
    }
  }

  /** The samples of a stage in one cycle. */
  function Hits(stages: seq<StageSample>, stage: Stage): seq<StageSample> {
    if stages == [] then [] else
      Hits(stages[..|stages| - 1], stage) + if stages[|stages| - 1].stage == stage then [stages[|stages| - 1]] else []
  }

  /** The durations of a stage over the window, where it was recorded. */
  function Durations(window: seq<CycleRecord>, stage: Stage): seq<real> {
    if window == [] then [] else
      var hits := Hits(window[|window| - 1].stages, stage);
      Durations(window[..|window| - 1], stage) + if hits == [] then [] else [hits[0].durationUs as real]
  }

  function Failures(window: seq<CycleRecord>, stage: Stage): nat {
    if window == [] then 0 else
      var hits := Hits(window[|window| - 1].stages, stage);
      Failures(window[..|window| - 1], stage) + if hits != [] && hits[0].outcome == Failed then 1 else 0
  }

  /** No cycle of the window records this stage twice. */
  ghost predicate RecordedOnce(window: seq<CycleRecord>, stage: Stage) {
    forall i :: 0 <= i < |window| ==> |Hits(window[i].stages, stage)| <= 1
  }

  /** What a stage measures from the window. Every number is fixed by the window. */
  ghost predicate Measures(window: seq<CycleRecord>, stage: Stage, minSamples: nat, p95MinSamples: nat, m: StageMeasurement) {
    var ds := Durations(window, stage);
    match m
    case Unavailable(_, count) => |ds| < minSamples && count == |ds|
    case Measured(median, p95, errorRate, count) =>
      && |ds| >= minSamples && ds != [] && count == |ds|
      && HasRank(ds, median, RankFor(50.0, |ds|))
      && (p95.Some? <==> |ds| >= p95MinSamples) && (p95.Some? ==> HasRank(ds, p95.value, RankFor(95.0, |ds|)))
      && errorRate == Rate(Failures(window, stage), |ds|)
  }

  function Rate(failed: nat, n: nat): real
    requires n > 0
  {
    failed as real / n as real
  }

  lemma {:induction false} DurationsValid(window: seq<CycleRecord>, stage: Stage)
    ensures forall i :: 0 <= i < |Durations(window, stage)| ==> Durations(window, stage)[i] >= 0.0
    ensures Failures(window, stage) <= |Durations(window, stage)|
  {
    if window != [] {
      DurationsValid(window[..|window| - 1], stage);
    }
  }

  lemma RateInRange(failed: nat, n: nat)
    requires failed <= n && n > 0
    ensures 0.0 <= Rate(failed, n) <= 1.0
  {
  }

  /** Two measurements of the same stage from the same window agree in every number. */
  lemma MeasurementIsFixed(window: seq<CycleRecord>, stage: Stage, minSamples: nat, p95MinSamples: nat, a: StageMeasurement, b: StageMeasurement)
    requires Measures(window, stage, minSamples, p95MinSamples, a) && Measures(window, stage, minSamples, p95MinSamples, b)
    ensures a.Measured? ==> a == b
    ensures a.Unavailable? ==> b.Unavailable? && a.sampleCount == b.sampleCount
  {
    var ds := Durations(window, stage);
    if a.Measured? {
      RankUnique(ds, a.latencyMedian, b.latencyMedian, RankFor(50.0, |ds|));
      if a.latencyP95.Some? {
        RankUnique(ds, a.latencyP95.value, b.latencyP95.value, RankFor(95.0, |ds|));
      }
    }
  }

  /** A measurement has nonnegative latencies, the median not above the p95, and a rate in [0, 1]. */
  ghost predicate Sound(m: StageMeasurement) {
    m.Measured? ==>
      && m.latencyMedian >= 0.0 && 0.0 <= m.errorRate <= 1.0
      && (m.latencyP95.Some? ==> m.latencyMedian <= m.latencyP95.value)
  }

  lemma MeasurementIsSound(window: seq<CycleRecord>, stage: Stage, minSamples: nat, p95MinSamples: nat, m: StageMeasurement)
    requires Measures(window, stage, minSamples, p95MinSamples, m)
    ensures Sound(m)
  {
    if m.Measured? {
      DurationsValid(window, stage);
      RateInRange(Failures(window, stage), |Durations(window, stage)|);
      if m.latencyP95.Some? {
        MedianAtMostP95(Durations(window, stage), m.latencyMedian, m.latencyP95.value);
      }
    }
  }

  /** The filter chain, with the set of cycles already met. */
  method SelectCompatible(records: seq<CycleRecord>, current: string, ctx: Context) returns (compatible: seq<CycleRecord>)
    ensures compatible == Compatible(records, current, ctx, {})
  {
    var seen: set<string> := {};
    compatible := [];
    for i := 0 to |records|
      invariant compatible + Compatible(records[i..], current, ctx, seen) == Compatible(records, current, ctx, {})
    {
      var r := records[i];
      assert records[i..][0] == r && records[i..][1..] == records[i + 1..];
      if Eligible(r, current, ctx) && r.cycleId !in seen {
        seen := seen + {r.cycleId};
        compatible := compatible + [r];
      }
    }
    assert records[|records|..] == [];
  }

  method FindHits(stages: seq<StageSample>, stage: Stage) returns (hits: seq<StageSample>)
    ensures hits == Hits(stages, stage)
  {
    hits := [];
    for i := 0 to |stages|
      invariant hits == Hits(stages[..i], stage)
    {
      assert stages[..i + 1][..i] == stages[..i];
      if stages[i].stage == stage {
        hits := hits + [stages[i]];
      }
    }
    assert stages[..|stages|] == stages;
  }

  /** One more cycle. */
  lemma StageStep(window: seq<CycleRecord>, stage: Stage, i: nat)
    requires i < |window|
    ensures var hits := Hits(window[i].stages, stage);
      && Durations(window[..i + 1], stage) == (if hits == [] then Durations(window[..i], stage) else Durations(window[..i], stage) + [hits[0].durationUs as real])
      && Failures(window[..i + 1], stage) == Failures(window[..i], stage) + (if hits != [] && hits[0].outcome == Failed then 1 else 0)
      && (RecordedOnce(window[..i + 1], stage) <==> RecordedOnce(window[..i], stage) && |hits| <= 1)
      && (RecordedOnce(window, stage) ==> |hits| <= 1)
  {
    assert window[..i + 1][..i] == window[..i];
    assert window[..i + 1] == window[..i] + [window[i]];
  }

  lemma NoCycles(window: seq<CycleRecord>, stage: Stage)
    ensures Durations(window[..0], stage) == [] && Failures(window[..0], stage) == 0 && RecordedOnce(window[..0], stage)
  {
  }

  /** The durations and failures of one stage; an error when a cycle records it twice. */
  method CollectStage(window: seq<CycleRecord>, stage: Stage) returns (r: Result<(seq<real>, nat), string>)
    ensures r.Ok? <==> RecordedOnce(window, stage)
    ensures r.Ok? ==> r.value == (Durations(window, stage), Failures(window, stage))
  {
    NoCycles(window, stage);
    hide Hits, Durations, Failures, RecordedOnce;
    var durations: seq<real> := [];
    var failed := 0;
    for i := 0 to |window|
      invariant RecordedOnce(window[..i], stage)
      invariant durations == Durations(window[..i], stage) && failed == Failures(window[..i], stage)
    {
      var hits := FindHits(window[i].stages, stage);
      StageStep(window, stage, i);
      if |hits| > 1 {
        return Err("a cycle records a stage twice");
      }
      if |hits| == 1 {
        durations := durations + [hits[0].durationUs as real];
        if hits[0].outcome == Failed {
          failed := failed + 1;
        }
      }
    }
    assert window[..|window|] == window;
    return Ok((durations, failed));
  }

  method MeasureStage(window: seq<CycleRecord>, stage: Stage, minSamples: nat, p95MinSamples: nat) returns (r: Result<StageMeasurement, string>)
    ensures r.Ok? <==> RecordedOnce(window, stage) && (minSamples >= 1 || Durations(window, stage) != [])
    ensures r.Ok? ==> Measures(window, stage, minSamples, p95MinSamples, r.value)
  {
    hide Durations, Failures, RecordedOnce, HasRank;
    var collected :- CollectStage(window, stage);
    var (durations, failed) := collected;
    DurationsValid(window, stage);
    var n := |durations|;
    if n < minSamples {
      return Ok(Unavailable("fewer compatible completed samples than required", n));
    }
    var median :- Median(durations);
    var p95 := P95IfSufficient(durations, p95MinSamples);
    return Ok(Measured(median, p95.value, Rate(failed, n), n));
  }

  ghost predicate Measurable(window: seq<CycleRecord>, minSamples: nat) {
    forall s: Stage :: RecordedOnce(window, s) && (minSamples >= 1 || Durations(window, s) != [])
  }

  ghost predicate AllMeasured(window: seq<CycleRecord>, minSamples: nat, p95MinSamples: nat, ms: map<Stage, StageMeasurement>) {
    forall s: Stage :: s in ms && Measures(window, s, minSamples, p95MinSamples, ms[s])
  }

  /** Measurements of all six stages from the completed compatible cycles. */
  method TryMeasure(records: seq<CycleRecord>, current: string, ctx: Context, minSamples: nat, windowCycles: nat, p95MinSamples: nat)
    returns (r: Result<map<Stage, StageMeasurement>, string>)
    ensures r.Ok? <==> Measurable(Window(records, current, ctx, windowCycles), minSamples)
    ensures r.Ok? ==> AllMeasured(Window(records, current, ctx, windowCycles), minSamples, p95MinSamples, r.value)
  {
    var compatible := SelectCompatible(records, current, ctx);
    var start := if |compatible| <= windowCycles then 0 else |compatible| - windowCycles;
    var window := compatible[start..];
    assert window == Window(records, current, ctx, windowCycles);
    var out: map<Stage, StageMeasurement> := map[];
    hide Durations, RecordedOnce, Measures;
    for i := 0 to |ALL_STAGES|
      invariant forall k :: 0 <= k < i ==> ALL_STAGES[k] in out && Measures(window, ALL_STAGES[k], minSamples, p95MinSamples, out[ALL_STAGES[k]])
      invariant forall k :: 0 <= k < i ==> RecordedOnce(window, ALL_STAGES[k]) && (minSamples >= 1 || Durations(window, ALL_STAGES[k]) != [])
    {
      var m :- MeasureStage(window, ALL_STAGES[i], minSamples, p95MinSamples);
      out := out[ALL_STAGES[i] := m];
    }
    forall s: Stage
      ensures s in out && Measures(window, s, minSamples, p95MinSamples, out[s])
      ensures RecordedOnce(window, s) && (minSamples >= 1 || Durations(window, s) != [])
    {
      EveryStage(s);
      var k :| 0 <= k < |ALL_STAGES| && ALL_STAGES[k] == s;
    }
    r := Ok(out);
  }
}
