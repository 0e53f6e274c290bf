/** The capability graph: its mutable node table and edge list, betweenness centrality of every
    node, and the bottleneck ranking. Scores are exact reals. */
module CapabilityGraphs {
  import opened Wrappers
  import opened Ordering
  import opened CapabilityNodes
  import opened Sums
  import opened ShortestPaths
  import opened Dependency
  import opened BetweennessLaws
  import opened Brandes
  import opened Backward
  import opened Phases
  import opened Ranking

  datatype CapabilityEdge = CapabilityEdge(from: Id, to: Id, latencyImpact: real, callFrequency: real)

  function Links(edges: seq<CapabilityEdge>): (r: seq<Edge>)
    ensures |r| == |edges|
  {
    seq(|edges|, i requires 0 <= i < |edges| => Edge(edges[i].from, edges[i].to))
  }

  lemma SharesAddUp(g: Net, v: Id)
    requires v in g.nodes
    ensures Sum(g.nodes, s => OwnShare(g, s, v)) == Betweenness(g, v)
  {
    var f := s => OwnShare(g, s, v);
    SumSubset(g.nodes - {v}, g.nodes, f);
    SumEq(g.nodes - {v}, f, s => SourceShare(g, s, v));
  }

  /** centrality holds the shares of the first i sources. */
  ghost predicate Gathered(g: Net, sources: seq<Id>, i: nat, centrality: map<Id, real>) {
    && i <= |sources| && centrality.Keys == g.nodes
    && forall v :: v in g.nodes ==> centrality[v] == Sum(Elements(sources[..i]), s => OwnShare(g, s, v))
  }

  lemma GatherStep(g: Net, sources: seq<Id>, i: nat, before: map<Id, real>, after: map<Id, real>)
    requires Gathered(g, sources, i, before) && i < |sources| && Distinct(sources) && after.Keys == g.nodes
    requires forall v :: v in g.nodes ==> after[v] == before[v] + OwnShare(g, sources[i], v)
    ensures Gathered(g, sources, i + 1, after)
  {
    var s := sources[i];
    assert sources[..i + 1] == sources[..i] + [s];
    assert Elements(sources[..i + 1]) - {s} == Elements(sources[..i]);
    forall v | v in g.nodes
      ensures after[v] == Sum(Elements(sources[..i + 1]), x => OwnShare(g, x, v))
    {
      SumPick(Elements(sources[..i + 1]), x => OwnShare(g, x, v), s);
    }
  }

  lemma GatherAll(g: Net, sources: seq<Id>, centrality: map<Id, real>)
    requires Gathered(g, sources, |sources|, centrality) && Elements(sources) == g.nodes
    ensures forall v :: v in g.nodes ==> centrality[v] == Betweenness(g, v)
  {
    assert sources[..|sources|] == sources;
    forall v | v in g.nodes
      ensures centrality[v] == Betweenness(g, v)
    {
      SharesAddUp(g, v);
    }
  }

  /** Adds the shares of one source: breadth-first forwards, then dependencies backwards. */
  method AddSource(ghost g: Net, ids: set<Id>, adj: Adjacency, s: Id, before: map<Id, real>)
    returns (centrality: map<Id, real>)
    requires Closed(g) && g.nodes == ids && IsAdjacency(g, adj) && s in ids && before.Keys == ids
    ensures centrality.Keys == ids
    ensures forall v :: v in ids ==> centrality[v] == before[v] + OwnShare(g, s, v)
  {
    var stack, pred, sigma, dist := ForwardPhase(g, ids, adj, s);
    ForwardExact(g, adj, s, stack, Maps(pred, sigma, dist));
    centrality := BackwardPhase(g, ids, s, stack, pred, sigma, Maps(pred, sigma, dist), before);
  }

  /** Normalizes by (n-1)(n-2). */
  method Normalize(ghost g: Net, n: nat, sums: map<Id, real>) returns (centrality: map<Id, real>)
    requires n == |g.nodes| && n > 2 && sums.Keys == g.nodes
    requires forall v :: v in g.nodes ==> sums[v] == Betweenness(g, v)
    ensures centrality.Keys == g.nodes && forall v :: v in g.nodes ==> centrality[v] == Centrality(g, v)
  {
    var scale := PairScale(n);
    centrality := map id | id in sums :: Scaled(sums[id], scale);
  }

  class CapabilityGraph {
    var nodes: map<Id, CapabilityNode>
    var edges: seq<CapabilityEdge>

    constructor ()
      ensures nodes == map[] && edges == []
    {
      nodes := map[];
      edges := [];
    }

    ghost function Topology(): Net
      reads this
    {
      Net(nodes.Keys, Links(edges))
    }

    /** Three nodes or more are scored by following edges, which must then stay inside the graph. */
    ghost predicate Scorable()
      reads this
    {
      |nodes| > 2 ==> Closed(Topology())
    }

    method AddNode(node: CapabilityNode)
      modifies this
      ensures nodes == old(nodes)[node.id := node] && edges == old(edges)
    {
      nodes := nodes[node.id := node];
    }

    method AddEdge(from: Id, to: Id, latencyImpact: real, callFrequency: real)
      modifies this
      ensures nodes == old(nodes) && edges == old(edges) + [CapabilityEdge(from, to, latencyImpact, callFrequency)]
    {
      edges := edges + [CapabilityEdge(from, to, latencyImpact, callFrequency)];
    }

    method AdjacencyList() returns (adj: Adjacency)
      ensures IsAdjacency(Topology(), adj)
    {
      adj := map id | id in nodes :: [];
      for i := 0 to |edges|
        invariant adj.Keys == nodes.Keys
        invariant forall v :: v in nodes ==> adj[v] == Neighbours(Links(edges)[..i], v)
      {
        var edge := edges[i];
        if edge.from in adj {
          adj := adj[edge.from := adj[edge.from] + [edge.to]];
        }
        assert Links(edges)[..i + 1][..i] == Links(edges)[..i];
      }
      assert Links(edges)[..|edges|] == Links(edges);
    }

    /** Shortest-path betweenness centrality of all nodes. */
    method CalculateBetweennessCentrality() returns (centrality: map<Id, real>)
      requires Scorable()
      ensures centrality.Keys == nodes.Keys
      ensures forall v :: v in nodes ==> centrality[v] == Centrality(Topology(), v)
    {
      centrality := map id | id in nodes :: 0.0;
      var n := |nodes|;
      if n <= 2 {
        return;
      }
      ghost var g := Topology();
      var adj := AdjacencyList();
      var sources := SortedStrings(nodes.Keys);
      for i := 0 to |sources|
        invariant Gathered(g, sources, i, centrality)
      {
        assert sources[i] in Elements(sources);
        ghost var before := centrality;
        centrality := AddSource(g, nodes.Keys, adj, sources[i], centrality);
        GatherStep(g, sources, i, before, centrality);
      }
      GatherAll(g, sources, centrality);
      centrality := Normalize(g, n, centrality);
    }

    /** Ranks the nodes by bottleneck score. */
    method RankBottlenecks() returns (ranks: seq<BottleneckRank>)
      requires Scorable()
      ensures IsRanking(nodes, Topology(), ranks) && InScoreOrder(ranks)
    {
      var centrality := CalculateBetweennessCentrality();
      var measuredBasis := AllMeasured(nodes);
      var average := 1.0;
      if measuredBasis {
        average := AverageOfMedians(nodes);
      }
      var rows := CollectRows(Topology(), nodes, centrality, measuredBasis, average);
      BeforeOrder();
      var sorted := SortBy(rows, Before);
      UnsortedMoved(nodes, Topology(), nodes.Keys, rows, sorted);
      ranks := NumberRows(sorted);
      Numbered(nodes, Topology(), sorted, ranks);
      RankingInScoreOrder(nodes, Topology(), ranks);
    }

    /** The first row of the ranking, if the graph has nodes. */
    method TopBottleneck() returns (top: Option<BottleneckRank>)
      requires Scorable()
      ensures top.None? <==> nodes == map[]
      ensures top.Some? ==> top.value.nodeId in nodes && top.value == RowOf(nodes, Topology(), top.value.nodeId).(rank := 1)
      ensures top.Some? ==> forall id :: id in nodes ==> Before(top.value, RowOf(nodes, Topology(), id))
      ensures top.Some? ==> forall id :: id in nodes ==> RowOf(nodes, Topology(), id).score < top.value.score + 0.000000001
    {
      var ranks := RankBottlenecks();
      if ranks == [] {
        assert nodes.Keys == {};
        return None;
      }
      top := Some(ranks[0]);
      forall id | id in nodes
        ensures Before(ranks[0], RowOf(nodes, Topology(), id))
        ensures RowOf(nodes, Topology(), id).score < ranks[0].score + 0.000000001
      {
        assert id in Elements(RankedIds(ranks));
        var k :| 0 <= k < |ranks| && ranks[k].nodeId == id;
        BeforeOrder();
      }
    }
  }

  method AverageOfMedians(nodes: map<Id, CapabilityNode>) returns (average: real)
    requires AllMeasured(nodes)
    ensures average == AverageLatency(nodes)
  {
    var ids := SortedStrings(nodes.Keys);
    var sum := 0.0;
    ghost var f := id => MedianOf(nodes, id);
    for i := 0 to |ids|
      invariant sum == Sum(Elements(ids[..i]), f)
    {
      sum := sum + MedianOf(nodes, ids[i]);
      NextElement(ids, i);
      SumPick(Elements(ids[..i + 1]), f, ids[i]);
    }
    assert ids[..|ids|] == ids;
    average := AtLeastOne(sum, |nodes|);
  }

  lemma NextElement(ids: seq<Id>, i: nat)
    requires i < |ids| && Distinct(ids)
    ensures ids[i] in Elements(ids[..i + 1]) && Elements(ids[..i + 1]) - {ids[i]} == Elements(ids[..i])
  {
    assert ids[..i + 1] == ids[..i] + [ids[i]];
  }

  /** One row per node, in whatever order the node table is walked. */
  method CollectRows(ghost g: Net, nodes: map<Id, CapabilityNode>, centrality: map<Id, real>, measuredBasis: bool, average: real)
    returns (rows: seq<BottleneckRank>)
    requires centrality.Keys == nodes.Keys && forall id :: id in nodes ==> centrality[id] == Centrality(g, id)
    requires measuredBasis == AllMeasured(nodes) && average == AverageLatency(nodes)
    ensures Unsorted(nodes, g, nodes.Keys, rows)
  {
    hide ScoringInputs, RankRow, AverageLatency, AllMeasured, Centrality;
    rows := [];
    var rest := nodes.Keys;
    ghost var done: set<Id> := {};
    while rest != {}
      invariant done == nodes.Keys - rest && rest <= nodes.Keys
      invariant Unsorted(nodes, g, done, rows)
    {
      var id :| id in rest;
      var row := RankRow(id, nodes[id], centrality[id], ScoringInputs(nodes[id]), measuredBasis, average);
      UnsortedStep(nodes, g, done, rows, id);
      rows, rest, done := rows + [row], rest - {id}, done + {id};
    }
  }

  /** Numbers the rows from 1. */
  method NumberRows(sorted: seq<BottleneckRank>) returns (ranks: seq<BottleneckRank>)
    ensures |ranks| == |sorted|
    ensures forall k :: 0 <= k < |ranks| ==> ranks[k] == sorted[k].(rank := k + 1)
  {
    ranks := sorted;
    for i := 0 to |ranks|
      invariant |ranks| == |sorted|
      invariant forall k :: 0 <= k < i ==> ranks[k] == sorted[k].(rank := k + 1)
      invariant forall k :: i <= k < |ranks| ==> ranks[k] == sorted[k]
    {
      ranks := ranks[i := ranks[i].(rank := i + 1)];
    }
  }

  /** One unnumbered row for every node of ids, in any order. */
  ghost predicate Unsorted(nodes: map<Id, CapabilityNode>, g: Net, ids: set<Id>, ranks: seq<BottleneckRank>) {
    && Elements(RankedIds(ranks)) == ids && Distinct(RankedIds(ranks))
    && forall r :: r in ranks ==> r.nodeId in nodes && r == RowOf(nodes, g, r.nodeId)
  }

  lemma UnsortedStep(nodes: map<Id, CapabilityNode>, g: Net, ids: set<Id>, ranks: seq<BottleneckRank>, id: Id)
    requires Unsorted(nodes, g, ids, ranks) && id in nodes && id !in ids
    ensures Unsorted(nodes, g, ids + {id}, ranks + [RowOf(nodes, g, id)])
  {
    var more := ranks + [RowOf(nodes, g, id)];
    assert RankedIds(more) == RankedIds(ranks) + [id];
    ElementsAppend(RankedIds(ranks), id);
    forall i | 0 <= i < |ranks|
      ensures RankedIds(ranks)[i] in Elements(RankedIds(ranks))
    {
    }
  }

  lemma UnsortedMoved(nodes: map<Id, CapabilityNode>, g: Net, ids: set<Id>, a: seq<BottleneckRank>, b: seq<BottleneckRank>)
    requires Unsorted(nodes, g, ids, a) && multiset(a) == multiset(b)
    ensures Unsorted(nodes, g, ids, b)
  {
    forall i, j | 0 <= i < j < |a|
      ensures a[i] != a[j]
    {
      assert RankedIds(a)[i] != RankedIds(a)[j];
    }
    SameContents(a, b);
    forall x ensures x in Elements(RankedIds(b)) <==> x in Elements(RankedIds(a)) {
      if x in RankedIds(a) {
        var i :| 0 <= i < |a| && RankedIds(a)[i] == x;
        assert a[i] in b;
        var k :| 0 <= k < |b| && b[k] == a[i];
        assert RankedIds(b)[k] == x;
      }
      if x in RankedIds(b) {
        var i :| 0 <= i < |b| && RankedIds(b)[i] == x;
        assert b[i] in a;
        var k :| 0 <= k < |a| && a[k] == b[i];
        assert RankedIds(a)[k] == x;
      }
    }
    forall i, j | 0 <= i < j < |b|
      ensures RankedIds(b)[i] != RankedIds(b)[j]
    {
      assert b[i] in a && b[j] in a && b[i] != b[j];
    }
  }

  lemma Numbered(nodes: map<Id, CapabilityNode>, g: Net, sorted: seq<BottleneckRank>, ranks: seq<BottleneckRank>)
    requires Unsorted(nodes, g, nodes.Keys, sorted) && Sorted(sorted, Before) && |ranks| == |sorted|
    requires forall k :: 0 <= k < |ranks| ==> ranks[k] == sorted[k].(rank := k + 1)
    ensures IsRanking(nodes, g, ranks)
  {
    assert RankedIds(ranks) == RankedIds(sorted);
    forall i, j | 0 <= i < j < |ranks|
      ensures Before(ranks[i], ranks[j])
    {
      assert Before(sorted[i], sorted[j]);
    }
  }
}
