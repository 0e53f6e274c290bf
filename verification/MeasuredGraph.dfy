/** The pipeline graph built from stage measurements. */
module MeasuredGraph {
  import opened Wrappers
  import opened CapabilityNodes
  import opened CapabilityGraphs
  import Sel = Selection

  function StageId(s: Sel.Stage): string {
    match s
    case Observe => "Observe"
    case Propose => "Propose"
    case BuildJail => "BuildJail"
    case JudgeEvaluation => "JudgeEvaluation"
    case SupervisorCanary => "SupervisorCanary"
    case CortexCommit => "CortexCommit"
  }

  function StageName(s: Sel.Stage): (string, string) {
    match s
    case Observe => ("Observe Subsystem", "observe")
    case Propose => ("Propose Subsystem", "propose")
    case BuildJail => ("Build Jail", "isolation")
    case JudgeEvaluation => ("Judge Evaluation", "actor")
    case SupervisorCanary => ("Supervisor Canary", "supervisor")
    case CortexCommit => ("Cortex Commit", "ratify")
  }

  lemma StageIdsApart(a: Sel.Stage, b: Sel.Stage)
    requires StageId(a) == StageId(b)
    ensures a == b
  {
    assert StageId(a)[0] == StageId(b)[0] && |StageId(a)| == |StageId(b)|;
  }

  /** All six stages, measured or with a reason why not. */
  method MeasureStages(records: Result<seq<Sel.CycleRecord>, string>, current: string, ctx: Sel.Context,
                       minSamples: nat, windowCycles: nat, p95MinSamples: nat) returns (ms: map<Sel.Stage, Sel.StageMeasurement>)
    ensures forall s: Sel.Stage :: s in ms && Sel.Sound(ms[s])
    ensures records.Ok? && Sel.Measurable(Sel.Window(records.value, current, ctx, windowCycles), minSamples) ==>
      Sel.AllMeasured(Sel.Window(records.value, current, ctx, windowCycles), minSamples, p95MinSamples, ms)
    ensures records.Err? || !Sel.Measurable(Sel.Window(records.value, current, ctx, windowCycles), minSamples) ==>
      forall s: Sel.Stage :: ms[s].Unavailable? && ms[s].sampleCount == 0
  {
    hide Sel.Measures;
    if records.Ok? {
      var attempt := Sel.TryMeasure(records.value, current, ctx, minSamples, windowCycles, p95MinSamples);
      if attempt.Ok? {
        ms := attempt.value;
        forall s: Sel.Stage ensures s in ms && Sel.Sound(ms[s]) {
          Sel.MeasurementIsSound(Sel.Window(records.value, current, ctx, windowCycles), s, minSamples, p95MinSamples, ms[s]);
        }
        return;
      }
    }
    var none := Sel.Unavailable("stage samples were rejected", 0);
    ms := map[];
    for i := 0 to |Sel.ALL_STAGES|
      invariant forall k :: 0 <= k < i ==> Sel.ALL_STAGES[k] in ms
      invariant forall s :: s in ms ==> ms[s] == none
    {
      ms := ms[Sel.ALL_STAGES[i] := none];
    }
    forall s: Sel.Stage ensures s in ms {
      Sel.EveryStage(s);
    }
  }

  /** The node of a stage reads back what was measured, or that it was not. */
  ghost predicate Carries(node: CapabilityNode, s: Sel.Stage, m: Sel.StageMeasurement) {
    && node.id == StageId(s)
    && match m
       case Measured(median, p95, errorRate, count) =>
         ScoringInputs(node) == Ok((median, errorRate)) && node.latencyP95 == p95 && node.sampleCount == count
       case Unavailable(reason, count) => ScoringInputs(node) == Err(NotMeasured(reason)) && node.sampleCount == count
  }

  /** The numbers a node takes. */
  predicate Acceptable(m: Sel.StageMeasurement) {
    m.Measured? ==> m.latencyMedian >= 0.0 && (m.latencyP95.Some? ==> m.latencyP95.value >= 0.0) && 0.0 <= m.errorRate <= 1.0
  }

  function MeasurementOf(ms: map<Sel.Stage, Sel.StageMeasurement>, s: Sel.Stage): Sel.StageMeasurement {
    if s in ms then ms[s] else Sel.Unavailable("stage was not measured", 0)
  }

  /** What was measured is always acceptable. */
  lemma SoundIsAcceptable(m: Sel.StageMeasurement)
    requires Sel.Sound(m)
    ensures Acceptable(m)
  {
  }

  method StageNode(s: Sel.Stage, m: Sel.StageMeasurement) returns (r: Result<CapabilityNode, NodeError>)
    ensures r.Ok? <==> Acceptable(m)
    ensures r.Ok? ==> Carries(r.value, s, m)
  {
    var node := NewNode(StageId(s), StageName(s).0, StageName(s).1);
    match m {
      case Measured(median, p95, errorRate, count) =>
        MeasuredRoundTrip(node, median, p95, errorRate, count);
        r := WithMeasuredLatency(node, median, p95, errorRate, count);
      case Unavailable(reason, count) =>
        MeasuredRoundTrip(node, 0.0, None, 0.0, count);
        r := Ok(WithUnavailable(node, reason, count));
    }
  }

  /** The graph holds the node of this stage. */
  ghost predicate Holds(graph: CapabilityGraph, ms: map<Sel.Stage, Sel.StageMeasurement>, s: Sel.Stage)
    reads graph
  {
    StageId(s) in graph.nodes && Carries(graph.nodes[StageId(s)], s, MeasurementOf(ms, s))
  }

  /** The six nodes in pipeline order. */
  method AddStages(graph: CapabilityGraph, ms: map<Sel.Stage, Sel.StageMeasurement>) returns (r: Result<(), NodeError>)
    requires graph.edges == []
    modifies graph
    ensures graph.edges == []
    ensures r.Ok? <==> forall s: Sel.Stage :: Acceptable(MeasurementOf(ms, s))
    ensures r.Ok? ==> forall s: Sel.Stage :: Holds(graph, ms, s)
  {
    hide Acceptable, Carries;
    for i := 0 to |Sel.ALL_STAGES|
      invariant graph.edges == []
      invariant forall k :: 0 <= k < i ==> Acceptable(MeasurementOf(ms, Sel.ALL_STAGES[k])) && Holds(graph, ms, Sel.ALL_STAGES[k])
    {
      var stage := Sel.ALL_STAGES[i];
      var node := StageNode(stage, MeasurementOf(ms, stage));
      if node.Err? {
        return Err(node.error);
      }
      CarriesId(node.value, stage, MeasurementOf(ms, stage));
      forall k | 0 <= k < i ensures StageId(Sel.ALL_STAGES[k]) != StageId(stage) {
        if StageId(Sel.ALL_STAGES[k]) == StageId(stage) {
          StageIdsApart(Sel.ALL_STAGES[k], stage);
        }
      }
      graph.AddNode(node.value);
    }
    forall s: Sel.Stage ensures Acceptable(MeasurementOf(ms, s)) && Holds(graph, ms, s) {
      Sel.EveryStage(s);
      var k :| 0 <= k < |Sel.ALL_STAGES| && Sel.ALL_STAGES[k] == s;
    }
    r := Ok(());
  }

  lemma CarriesId(node: CapabilityNode, s: Sel.Stage, m: Sel.StageMeasurement)
    requires Carries(node, s, m)
    ensures node.id == StageId(s)
  {
  }

  /** Acceptable measurements, and only those, give a graph: one node for each stage carrying its
      measurement, and the chain of the pipeline. */
  method BuildCapabilityGraph(ms: map<Sel.Stage, Sel.StageMeasurement>) returns (r: Result<CapabilityGraph, NodeError>)
    ensures r.Ok? <==> forall s: Sel.Stage :: Acceptable(MeasurementOf(ms, s))
    ensures r.Ok? ==> fresh(r.value) && |r.value.edges| == 5 && forall s: Sel.Stage :: Holds(r.value, ms, s)
    ensures r.Ok? ==> forall i :: 0 <= i < 5 ==>
      r.value.edges[i] == CapabilityEdge(StageId(Sel.ALL_STAGES[i]), StageId(Sel.ALL_STAGES[i + 1]), 0.0, 1.0)
  {
    hide Acceptable, Carries;
    var graph := new CapabilityGraph();
    var _ :- AddStages(graph, ms);
    for i := 0 to |Sel.ALL_STAGES| - 1
      invariant |graph.edges| == i && forall s: Sel.Stage :: Holds(graph, ms, s)
      invariant forall k :: 0 <= k < i ==>
        graph.edges[k] == CapabilityEdge(StageId(Sel.ALL_STAGES[k]), StageId(Sel.ALL_STAGES[k + 1]), 0.0, 1.0)
    {
      ghost var nodes := graph.nodes;
      assert forall s: Sel.Stage :: Holds(graph, ms, s) ==> StageId(s) in nodes && Carries(nodes[StageId(s)], s, MeasurementOf(ms, s));
      graph.AddEdge(StageId(Sel.ALL_STAGES[i]), StageId(Sel.ALL_STAGES[i + 1]), 0.0, 1.0);
      assert graph.nodes == nodes;
    }
    r := Ok(graph);
  }
}
