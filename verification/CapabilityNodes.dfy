/** Graph nodes and the measurements the ranking may read. Missing is a state of its own, never 0. */
module CapabilityNodes {
  import opened Wrappers

  datatype Measurement = Measured | Unavailable

  datatype RankingBasis = Structural | FullyMeasured

  datatype CapabilityNode = CapabilityNode(
    id: string, name: string, subsystem: string,
    legacyP95: real, memoryRssKb: nat, legacyErrorRate: real, weight: real,
    measurement: Measurement,
    latencyMedian: Option<real>, latencyP95: Option<real>, errorRate: Option<real>,
    sampleCount: nat, unavailableReason: Option<string>)

  datatype NodeError =
    | NotMeasured(reason: string)
    | IncompleteMeasurement
    | NegativeMeasurement(field: string, value: real)
    | ErrorRateAboveOne(rate: real)

  function CheckNonNegative(field: string, v: real): Result<real, NodeError> {
    if v >= 0.0 then Ok(v) else Err(NegativeMeasurement(field, v))
  }

  function NewNode(id: string, name: string, subsystem: string): CapabilityNode {
    CapabilityNode(id, name, subsystem, 0.0, 0, 0.0, 1.0, Unavailable, None, None, None, 0,
                   Some("no measurement was supplied for this node"))
  }

  function WithMeasuredLatency(node: CapabilityNode, median: real, p95: Option<real>, errorRate: real, sampleCount: nat)
    : Result<CapabilityNode, NodeError>
  {
    var _ :- CheckNonNegative("latency_median_us", median);
    var _ :- if p95.Some? then CheckNonNegative("latency_p95_us_measured", p95.value) else Ok(0.0);
    var _ :- CheckNonNegative("error_rate_measured", errorRate);
    if errorRate > 1.0 then Err(ErrorRateAboveOne(errorRate)) else
      Ok(node.(measurement := Measured, latencyMedian := Some(median), latencyP95 := p95,
               errorRate := Some(errorRate), sampleCount := sampleCount,
               unavailableReason := if p95.Some? then None
                                    else Some("p95 is unavailable: too few valid compatible samples")))
  }

  function WithUnavailable(node: CapabilityNode, reason: string, sampleCount: nat): CapabilityNode {
    node.(measurement := Unavailable, latencyMedian := None, latencyP95 := None, errorRate := None,
          sampleCount := sampleCount, unavailableReason := Some(reason))
  }

  /** The measured values the ranking may read, or why there are none. */
  function ScoringInputs(node: CapabilityNode): (r: Result<(real, real), NodeError>)
    ensures r.Ok? ==> node.measurement == Measured && 0.0 <= r.value.0 && 0.0 <= r.value.1 <= 1.0
  {
    if node.measurement != Measured then
      Err(NotMeasured(if node.unavailableReason.Some? then node.unavailableReason.value else "no measurement"))
    else if node.latencyMedian.None? || node.errorRate.None? then Err(IncompleteMeasurement)
    else
      var _ :- CheckNonNegative("latency_median_us", node.latencyMedian.value);
      var _ :- CheckNonNegative("error_rate_measured", node.errorRate.value);
      if node.errorRate.value > 1.0 then Err(ErrorRateAboveOne(node.errorRate.value))
      else Ok((node.latencyMedian.value, node.errorRate.value))
  }

  /** A node is ranked on a measurement exactly when the numbers put in were acceptable, and then
      the ranking reads back those very numbers. */
  lemma MeasuredRoundTrip(node: CapabilityNode, median: real, p95: Option<real>, errorRate: real, sampleCount: nat)
    ensures var r := WithMeasuredLatency(node, median, p95, errorRate, sampleCount);
      && (r.Ok? <==> 0.0 <= median && (p95.None? || 0.0 <= p95.value) && 0.0 <= errorRate <= 1.0)
      && (r.Ok? ==> ScoringInputs(r.value) == Ok((median, errorRate)) && r.value.id == node.id)
    ensures forall reason :: ScoringInputs(WithUnavailable(node, reason, sampleCount)) == Err(NotMeasured(reason))
  {
  }
}
