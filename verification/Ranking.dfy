/** The bottleneck ranking as a property of its result: which rows it holds and in which order.
    There is exactly one such ranking, so the order in which a hash map is walked cannot show. */
module Ranking {
  import opened Wrappers
  import opened Ordering
  import opened CapabilityNodes
  import opened Sums
  import opened ShortestPaths
  import opened Dependency
  import opened BetweennessLaws
  import opened Brandes
  import opened Backward

  datatype BottleneckRank = BottleneckRank(
    rank: nat, nodeId: Id, nodeName: string, subsystem: string, score: real, centrality: real,
    legacyP95: real, legacyErrorRate: real, measurement: Measurement,
    latencyMedian: Option<real>, latencyP95: Option<real>, errorRate: Option<real>,
    sampleCount: nat, unavailable: Option<NodeError>, basis: RankingBasis)

  type Inputs = Result<(real, real), NodeError>

  /** Betweenness scaled by the number of ordered pairs of other nodes; 0 up to two nodes. */
  ghost function Centrality(g: Net, v: Id): real {
    Normalized(Betweenness(g, v), |g.nodes|)
  }

  ghost function Normalized(b: real, n: nat): real {
    if n <= 2 then 0.0 else Scaled(b, PairScale(n))
  }

  function Scaled(val: real, scale: real): real {
    val * scale
  }

  function PairScale(n: nat): real
    requires n > 2
  {
    Product(n - 1, n - 2);
    1.0 / ((n - 1) * (n - 2)) as real
  }

  lemma Product(m: int, n: int)
    requires 1 <= m && 1 <= n
    ensures m * n >= 1
    ensures Scale(m as real, n as real) == (m * n) as real
  {
  }

  lemma UpTo(b: real, t: real)
    requires 0.0 <= b <= t && 0.0 < t
    ensures 0.0 <= b * (1.0 / t) <= 1.0
  {
    var q := 1.0 / t;
    assert t * q == 1.0;
    assert (t - b) * q >= 0.0;
  }

  lemma Proportion(b: real, n: nat)
    requires n > 2 && 0.0 <= b <= Scale((n - 1) as real, (n - 2) as real)
    ensures 0.0 <= Normalized(b, n) <= 1.0
  {
    Product(n - 1, n - 2);
    UpTo(b, ((n - 1) * (n - 2)) as real);
  }

  /** The centrality times the number of ordered pairs of other nodes is the betweenness. */
  lemma CentralityTimesPairs(g: Net, v: Id)
    requires |g.nodes| > 2
    ensures Centrality(g, v) * ((|g.nodes| - 1) * (|g.nodes| - 2)) as real == Betweenness(g, v)
  {
    var n := |g.nodes|;
    Product(n - 1, n - 2);
    Unscale(Betweenness(g, v), ((n - 1) * (n - 2)) as real);
  }

  lemma Unscale(b: real, t: real)
    requires t >= 1.0
    ensures b * (1.0 / t) * t == b
  {
    var q := 1.0 / t;
    assert q * t == 1.0;
    assert b * q * t == b * (q * t);
  }

  /** Every centrality is a share of the ordered pairs of other nodes. */
  lemma CentralityRange(g: Net, v: Id)
    requires v in g.nodes
    ensures 0.0 <= Centrality(g, v) <= 1.0
  {
    if |g.nodes| > 2 {
      BetweennessBounds(g, v);
      Proportion(Betweenness(g, v), |g.nodes|);
    }
  }

  function Clamp(x: real, lo: real, hi: real): real {
    if x < lo then lo else if x > hi then hi else x
  }

  /** Composite of centrality, latency ratio and error factor when every node is measured, the
      centrality alone otherwise. */
  function Score(c: real, inputs: Inputs, measuredBasis: bool, average: real): real
    requires average >= 1.0
  {
    if measuredBasis && inputs.Ok? then
      var (median, err) := inputs.value;
      c * 0.4 + Clamp(median / average, 0.0, 10.0) * 0.4 + Clamp(err * 5.0, 0.0, 5.0) * 0.2
    else c
  }

  function RankRow(id: Id, node: CapabilityNode, c: real, inputs: Inputs, measuredBasis: bool, average: real): BottleneckRank
    requires average >= 1.0
  {
    BottleneckRank(
      0, id, node.name, node.subsystem, Score(c, inputs, measuredBasis, average), c,
      node.legacyP95, node.legacyErrorRate,
      if inputs.Ok? then Measured else Unavailable,
      if inputs.Ok? then node.latencyMedian else None,
      if inputs.Ok? then node.latencyP95 else None,
      if inputs.Ok? then node.errorRate else None,
      node.sampleCount,
      match (inputs, node.unavailableReason)
      case (Err(why), _) => Some(why)
      case (Ok(_), Some(note)) => Some(NotMeasured(note))
      case (Ok(_), None) => None,
      if measuredBasis then FullyMeasured else Structural)
  }

  /** More centrality, a slower median and more errors never lower a score. */
  lemma ScoreMonotone(c: real, median: real, err: real, d: real, slower: real, worse: real, average: real)
    requires c <= d && median <= slower && err <= worse && average >= 1.0
    ensures Score(c, Ok((median, err)), true, average) <= Score(d, Ok((slower, worse)), true, average)
  {
    QuotientGrows(median, slower, average);
  }

  /** Up to ten times the average latency and an error rate of at most 1 a score is four tenths of the
      centrality, four tenths of the latency ratio, and the error rate; slower nodes score as at ten
      times the average. */
  lemma ScoreWithinLimits(c: real, median: real, err: real, average: real)
    requires median >= 0.0 && 0.0 <= err <= 1.0 && average >= 1.0
    ensures var score := Score(c, Ok((median, err)), true, average);
      if median <= 10.0 * average then (score - 0.4 * c - err) * average == 0.4 * median else score == 0.4 * c + 4.0 + err
  {
    var ratio := median / average;
    assert ratio * average == median;
    ProductSign(ratio, average);
    ProductSign(ratio - 10.0, average);
    assert 0.4 * ratio * average == 0.4 * (ratio * average);
  }

  lemma ProductSign(d: real, n: real)
    requires n > 0.0
    ensures d < 0.0 <==> d * n < 0.0
    ensures d > 0.0 <==> d * n > 0.0
  {
  }

  lemma QuotientGrows(x: real, y: real, n: real)
    requires x <= y && n >= 1.0
    ensures x / n <= y / n
  {
    var p, q := x / n, y / n;
    assert (q - p) * n == y - x;
    NegativeProduct(q - p, n);
  }

  lemma NegativeProduct(d: real, n: real)
    ensures d < 0.0 < n ==> d * n < 0.0
  {
  }

  predicate AllMeasured(nodes: map<Id, CapabilityNode>) {
    nodes != map[] && forall id :: id in nodes ==> ScoringInputs(nodes[id]).Ok?
  }

  function MedianOf(nodes: map<Id, CapabilityNode>, id: Id): real {
    if id in nodes then
      var inputs := ScoringInputs(nodes[id]);
      if inputs.Ok? then inputs.value.0 else 0.0
    else 0.0
  }

  ghost function AverageLatency(nodes: map<Id, CapabilityNode>): (a: real)
    ensures a >= 1.0
  {
    if AllMeasured(nodes) then AtLeastOne(Sum(nodes.Keys, id => MedianOf(nodes, id)), |nodes|) else 1.0
  }

  function AtLeastOne(sum: real, n: nat): (a: real)
    requires n > 0
    ensures a >= 1.0
  {
    if sum / n as real > 1.0 then sum / n as real else 1.0
  }

  /** Scores take measurements into account exactly when every node has an acceptable one. */
  lemma MeasuredExactly(nodes: map<Id, CapabilityNode>)
    ensures AllMeasured(nodes) <==> nodes != map[] && forall id :: id in nodes ==> WellMeasured(nodes[id])
  {
    assert forall id :: id in nodes ==> (ScoringInputs(nodes[id]).Ok? <==> WellMeasured(nodes[id]));
  }

  ghost predicate WellMeasured(node: CapabilityNode) {
    && node.measurement == Measured && node.latencyMedian.Some? && node.errorRate.Some?
    && node.latencyMedian.value >= 0.0 && 0.0 <= node.errorRate.value <= 1.0
  }

  ghost function Latency(nodes: map<Id, CapabilityNode>, id: Id): real {
    if id in nodes && nodes[id].latencyMedian.Some? then nodes[id].latencyMedian.value else 0.0
  }

  /** The average latency is that of the medians, but never below one microsecond. */
  lemma AverageTimesNodes(nodes: map<Id, CapabilityNode>)
    requires AllMeasured(nodes)
    ensures var total := Sum(nodes.Keys, id => Latency(nodes, id));
      if total >= |nodes| as real then AverageLatency(nodes) * |nodes| as real == total else AverageLatency(nodes) == 1.0
  {
    var f, g := id => MedianOf(nodes, id), id => Latency(nodes, id);
    forall id | id in nodes ensures f(id) == g(id) {
      assert ScoringInputs(nodes[id]).Ok?;
    }
    SumEq(nodes.Keys, f, g);
    var total, n := Sum(nodes.Keys, g), |nodes|;
    hide Sum, AllMeasured;
    AverageIsQuotient(total, n);
  }

  lemma AverageIsQuotient(total: real, n: nat)
    requires n > 0
    ensures if total >= n as real then AtLeastOne(total, n) * n as real == total else AtLeastOne(total, n) == 1.0
  {
    var q := total / n as real;
    assert q * n as real == total;
    ProductSign(q - 1.0, n as real);
  }

  ghost function RowOf(nodes: map<Id, CapabilityNode>, g: Net, id: Id): BottleneckRank
    requires id in nodes
  {
    RankRow(id, nodes[id], Centrality(g, id), ScoringInputs(nodes[id]), AllMeasured(nodes), AverageLatency(nodes))
  }

  /** Rounds to the nearest integer, halves away from zero. */
  function Round(x: real): int {
    if x >= 0.0 then (x + 0.5).Floor else -((-x + 0.5).Floor)
  }

  function Quantize(score: real): int {
    Round(score * 1000000000.0)
  }

  /** Higher quantized score first, then the smaller id. */
  predicate Before(a: BottleneckRank, b: BottleneckRank) {
    Quantize(b.score) < Quantize(a.score) || (Quantize(a.score) == Quantize(b.score) && StringLeq(a.nodeId, b.nodeId))
  }

  /** A score that is higher by 1e-9 or more is higher after rounding. */
  lemma QuantizeSeparates(x: real, y: real)
    requires x + 0.000000001 <= y
    ensures Quantize(x) < Quantize(y)
  {
    RoundSeparates(x * 1000000000.0, y * 1000000000.0);
  }

  lemma RoundSeparates(x: real, y: real)
    requires x + 1.0 <= y
    ensures Round(x) < Round(y)
  {
  }

  /** What the order of a ranking says on scores and ids alone: nothing stands ahead of a score that is
      higher by 1e-9 or more, and equal scores stand in the order of their ids. */
  ghost predicate InScoreOrder(ranks: seq<BottleneckRank>) {
    && (forall i, j :: 0 <= i < j < |ranks| ==> ranks[j].score < ranks[i].score + 0.000000001)
    && (forall i, j :: 0 <= i < j < |ranks| && ranks[i].score == ranks[j].score ==> StringLeq(ranks[i].nodeId, ranks[j].nodeId))
  }

  lemma RankingInScoreOrder(nodes: map<Id, CapabilityNode>, g: Net, ranks: seq<BottleneckRank>)
    requires IsRanking(nodes, g, ranks)
    ensures InScoreOrder(ranks)
  {
    forall i, j | 0 <= i < j < |ranks|
      ensures ranks[j].score < ranks[i].score + 0.000000001
    {
      assert Before(ranks[i], ranks[j]);
      if ranks[i].score + 0.000000001 <= ranks[j].score {
        QuantizeSeparates(ranks[i].score, ranks[j].score);
      }
    }
    forall i, j | 0 <= i < j < |ranks| && ranks[i].score == ranks[j].score
      ensures StringLeq(ranks[i].nodeId, ranks[j].nodeId)
    {
      assert Before(ranks[i], ranks[j]);
    }
  }

  lemma BeforeOrder()
    ensures TotalOrder(Before)
  {
    StringOrder();
  }

  function RankedIds(ranks: seq<BottleneckRank>): (r: seq<Id>)
    ensures |r| == |ranks| && forall i :: 0 <= i < |r| ==> r[i] == ranks[i].nodeId
  {
    seq(|ranks|, i requires 0 <= i < |ranks| => ranks[i].nodeId)
  }

  /** ranks is the ranking of the nodes: every node once, numbered from 1, in order. */
  ghost predicate IsRanking(nodes: map<Id, CapabilityNode>, g: Net, ranks: seq<BottleneckRank>) {
    && Elements(RankedIds(ranks)) == nodes.Keys && Distinct(RankedIds(ranks))
    && (forall i :: 0 <= i < |ranks| ==> ranks[i].nodeId in nodes && ranks[i] == RowOf(nodes, g, ranks[i].nodeId).(rank := i + 1))
    && (forall i, j :: 0 <= i < j < |ranks| ==> Before(ranks[i], ranks[j]))
  }

  ghost predicate Listed(a: seq<Id>, ahead: (Id, Id) -> bool) {
    Distinct(a) && forall i, j :: 0 <= i < j < |a| ==> ahead(a[i], a[j])
  }

  lemma ElementsNonEmpty(s: seq<Id>)
    requires s != []
    ensures Elements(s) != {}
  {
    assert s[0] in Elements(s);
  }

  lemma {:induction false} OneListing(a: seq<Id>, b: seq<Id>, ahead: (Id, Id) -> bool)
    requires Listed(a, ahead) && Listed(b, ahead) && Elements(a) == Elements(b)
    requires forall x, y :: ahead(x, y) && ahead(y, x) ==> x == y
    ensures a == b
    decreases |a|
  {
    if a == [] || b == [] {
      if b != [] { ElementsNonEmpty(b); }
      if a != [] { ElementsNonEmpty(a); }
    } else {
      assert a[0] in Elements(b) && b[0] in Elements(a);
      var k :| 0 <= k < |b| && b[k] == a[0];
      var j :| 0 <= j < |a| && a[j] == b[0];
      assert a[0] == b[0];
      assert Elements(a[1..]) == Elements(a) - {a[0]} by { TailElements(a); }
      assert Elements(b[1..]) == Elements(b) - {b[0]} by { TailElements(b); }
      OneListing(a[1..], b[1..], ahead);
      assert a == [a[0]] + a[1..] && b == [b[0]] + b[1..];
    }
  }

  lemma TailElements(a: seq<Id>)
    requires a != [] && Distinct(a)
    ensures Elements(a[1..]) == Elements(a) - {a[0]}
  {
    forall x | x in Elements(a) - {a[0]}
      ensures x in a[1..]
    {
      var i :| 0 <= i < |a| && a[i] == x;
      assert a[1..][i - 1] == x;
    }
  }

  /** Being ranked ahead, as a relation on ids. */
  ghost function Ahead(nodes: map<Id, CapabilityNode>, g: Net): (Id, Id) -> bool {
    (x, y) => x in nodes && y in nodes && Before(RowOf(nodes, g, x), RowOf(nodes, g, y))
  }

  /** Only scores and ids decide the order. */
  lemma SameAhead(nodes: map<Id, CapabilityNode>, nodes': map<Id, CapabilityNode>, g: Net, x: Id, y: Id)
    requires nodes.Keys == nodes'.Keys && x in nodes && y in nodes
    requires forall id :: id in nodes ==> ScoringInputs(nodes[id]) == ScoringInputs(nodes'[id])
    ensures Ahead(nodes', g)(x, y) ==> Ahead(nodes, g)(x, y)
    ensures RowOf(nodes, g, x).score == RowOf(nodes', g, x).score && RowOf(nodes, g, x).basis == RowOf(nodes', g, x).basis
  {
    SameAverage(nodes, nodes');
  }

  lemma RankingListed(nodes: map<Id, CapabilityNode>, g: Net, a: seq<BottleneckRank>)
    requires IsRanking(nodes, g, a)
    ensures Listed(RankedIds(a), Ahead(nodes, g))
  {
    var ids := RankedIds(a);
    forall i, j | 0 <= i < j < |ids| ensures Ahead(nodes, g)(ids[i], ids[j]) {
      assert Before(a[i], a[j]);
    }
  }

  lemma AheadAntisymmetric(nodes: map<Id, CapabilityNode>, g: Net)
    ensures forall x, y :: Ahead(nodes, g)(x, y) && Ahead(nodes, g)(y, x) ==> x == y
  {
    forall x, y | Ahead(nodes, g)(x, y) && Ahead(nodes, g)(y, x) ensures x == y {
      StringLeqTotal(x, y);
    }
  }

  /** Orders that depend only on topology and on what ScoringInputs reads give one ranking: the
      legacy numbers of a node and the walking order of the node table do not matter. */
  lemma RankingUnique(nodes: map<Id, CapabilityNode>, nodes': map<Id, CapabilityNode>, g: Net,
                      a: seq<BottleneckRank>, b: seq<BottleneckRank>)
    requires IsRanking(nodes, g, a) && IsRanking(nodes', g, b) && nodes.Keys == nodes'.Keys
    requires forall id :: id in nodes ==> ScoringInputs(nodes[id]) == ScoringInputs(nodes'[id])
    ensures RankedIds(a) == RankedIds(b)
    ensures forall i :: 0 <= i < |a| ==> a[i].score == b[i].score && a[i].rank == b[i].rank && a[i].basis == b[i].basis
    ensures nodes == nodes' ==> a == b
  {
    RankingListed(nodes, g, a);
    RankingListed(nodes', g, b);
    AheadAntisymmetric(nodes, g);
    var ids := RankedIds(b);
    forall i, j | 0 <= i < j < |ids| ensures Ahead(nodes, g)(ids[i], ids[j]) {
      assert ids[i] in Elements(ids) && ids[j] in Elements(ids);
      SameAhead(nodes, nodes', g, ids[i], ids[j]);
    }
    OneListing(RankedIds(a), ids, Ahead(nodes, g));
    forall i | 0 <= i < |a|
      ensures a[i].score == b[i].score && a[i].rank == b[i].rank && a[i].basis == b[i].basis && a[i].nodeId == b[i].nodeId
    {
      assert RankedIds(a)[i] == RankedIds(b)[i];
      SameAhead(nodes, nodes', g, a[i].nodeId, a[i].nodeId);
    }
  }

  lemma SameAverage(nodes: map<Id, CapabilityNode>, nodes': map<Id, CapabilityNode>)
    requires nodes.Keys == nodes'.Keys
    requires forall id :: id in nodes ==> ScoringInputs(nodes[id]) == ScoringInputs(nodes'[id])
    ensures AllMeasured(nodes) == AllMeasured(nodes') && AverageLatency(nodes) == AverageLatency(nodes')
  {
    assert |nodes| == |nodes.Keys| == |nodes'.Keys| == |nodes'|;
    SumEq(nodes.Keys, id => MedianOf(nodes, id), id => MedianOf(nodes', id));
    if nodes == map[] {
      assert nodes'.Keys == {};
    }
    if nodes' == map[] {
      assert nodes.Keys == {};
    }
  }

  /** A structural score is the centrality itself; a measured score stays within its caps. */
  lemma ScoreRange(nodes: map<Id, CapabilityNode>, g: Net, id: Id)
    requires id in nodes && nodes.Keys == g.nodes
    ensures !AllMeasured(nodes) ==> RowOf(nodes, g, id).score == Centrality(g, id)
    ensures 0.0 <= RowOf(nodes, g, id).score <= if AllMeasured(nodes) then 5.4 else 1.0
  {
    CentralityRange(g, id);
  }
}
