/** What the forward phase of the betweenness computation leaves behind for one source, and why
    that determines true distances and true shortest-path counts. */
module Brandes {
  import opened Ordering
  import opened Sums
  import opened ShortestPaths
  import opened Dependency

  type Adjacency = map<Id, seq<Id>>

  /** Targets of the edges out of v, in edge order, one entry per parallel edge. */
  ghost function Neighbours(edges: seq<Edge>, v: Id): seq<Id> {
    if edges == [] then [] else
      var e := edges[|edges| - 1];
      Neighbours(edges[..|edges| - 1], v) + (if e.from == v then [e.to] else [])
  }

  ghost predicate IsAdjacency(g: Net, adj: Adjacency) {
    adj.Keys == g.nodes && forall v :: v in g.nodes ==> adj[v] == Neighbours(g.edges, v)
  }

  ghost function EdgeSet(edges: seq<Edge>, v: Id, w: Id): set<nat> {
    set e: nat | e < |edges| && edges[e] == Edge(v, w)
  }

  lemma EdgeSetGrows(edges: seq<Edge>, v: Id, w: Id)
    requires edges != []
    ensures var n := |edges| - 1;
      |EdgeSet(edges, v, w)| == |EdgeSet(edges[..n], v, w)| + if edges[n] == Edge(v, w) then 1 else 0
  {
    var n := |edges| - 1;
    var rest := edges[..n];
    assert n !in EdgeSet(rest, v, w);
    assert EdgeSet(edges, v, w) == EdgeSet(rest, v, w) + if edges[n] == Edge(v, w) then {n} else {};
  }

  lemma {:induction false} NeighbourCount(edges: seq<Edge>, v: Id, w: Id)
    ensures multiset(Neighbours(edges, v))[w] == |EdgeSet(edges, v, w)|
  {
    if edges == [] {
      assert EdgeSet(edges, v, w) == {};
    } else {
      hide EdgeSet;
      NeighbourCount(edges[..|edges| - 1], v, w);
      EdgeSetGrows(edges, v, w);
    }
  }

  lemma {:induction false} SingletonSeqs(A: set<nat>, B: set<seq<nat>>)
    requires forall p :: p in B <==> |p| == 1 && p[0] in A
    ensures |A| == |B|
    decreases |A|
  {
    if A == {} {
      if p :| p in B { assert false; }
      assert B == {};
    } else {
      var a :| a in A;
      assert [a] in B;
      forall p ensures p in B - {[a]} <==> |p| == 1 && p[0] in A - {a} {
        if |p| == 1 { assert p == [p[0]]; }
      }
      SingletonSeqs(A - {a}, B - {[a]});
    }
  }

  lemma OneStepPaths(g: Net, v: Id, w: Id, p: seq<nat>)
    ensures p in Paths(g, 1, v, w) <==> |p| == 1 && p[0] in EdgeSet(g.edges, v, w)
  {
    if |p| == 1 {
      assert p[..0] == [];
      assert IsPath(g, v, w, p) <==> p[0] < |g.edges| && g.edges[p[0]].to == w && IsPath(g, v, g.edges[p[0]].from, []);
    }
  }

  /** Multiplicities in the adjacency list are numbers of one-edge paths. */
  lemma AdjacencyCounts(g: Net, adj: Adjacency, v: Id, w: Id)
    requires IsAdjacency(g, adj) && v in g.nodes
    ensures multiset(adj[v])[w] as real == Count(g, 1, v, w)
  {
    NeighbourCount(g.edges, v, w);
    forall p ensures p in Paths(g, 1, v, w) <==> |p| == 1 && p[0] in EdgeSet(g.edges, v, w) {
      OneStepPaths(g, v, w, p);
    }
    SingletonSeqs(EdgeSet(g.edges, v, w), Paths(g, 1, v, w));
  }

  /** Sum of sigma over a predecessor list, repetitions counted. */
  ghost function ListSum(p: seq<Id>, sigma: map<Id, real>): real {
    if p == [] then 0.0 else
      var v := p[|p| - 1];
      ListSum(p[..|p| - 1], sigma) + (if v in sigma then sigma[v] else 0.0)
  }

  lemma {:induction false} ListSumSame(p: seq<Id>, a: map<Id, real>, b: map<Id, real>)
    requires forall v :: v in p ==> v in a && v in b && a[v] == b[v]
    ensures ListSum(p, a) == ListSum(p, b)
  {
    if p != [] {
      ListSumSame(p[..|p| - 1], a, b);
      assert p[|p| - 1] in p;
    }
  }

  ghost function Weighted(p: seq<Id>, sigma: map<Id, real>, v: Id): real {
    if v in sigma then Scale(multiset(p)[v] as real, sigma[v]) else 0.0
  }

  lemma {:induction false} ListSumByNodes(p: seq<Id>, sigma: map<Id, real>)
    requires forall v :: v in p ==> v in sigma
    ensures ListSum(p, sigma) == Sum(sigma.Keys, v => Weighted(p, sigma, v))
  {
    var f := v => Weighted(p, sigma, v);
    if p == [] {
      SumConst(sigma.Keys, f, 0.0);
    } else {
      var q, x := p[..|p| - 1], p[|p| - 1];
      assert p == q + [x];
      ListSumByNodes(q, sigma);
      var here := v => if v == x then sigma[x] else 0.0;
      forall v | v in sigma.Keys
        ensures f(v) == Weighted(q, sigma, v) + here(v)
      {
        if v == x { OneMore(multiset(q)[v], sigma[v]); }
      }
      SumAdd(sigma.Keys, v => Weighted(q, sigma, v), here, f);
      SumSubset({x}, sigma.Keys, here);
      SumPick({x}, here, x);
      assert {x} - {x} == {};
    }
  }

  lemma OneMore(n: nat, y: real)
    ensures Scale((n + 1) as real, y) == Scale(n as real, y) + y
  {
  }

  /** The bookkeeping of the forward phase from one source. */
  datatype Maps = Maps(pred: Adjacency, sigma: map<Id, real>, dist: map<Id, int>)

  ghost predicate Keyed(nodes: set<Id>, seen: Adjacency, m: Maps) {
    seen.Keys == m.pred.Keys == m.sigma.Keys == m.dist.Keys == nodes
  }

  /** `order` lists the nodes with a recorded distance, nearest first, starting from s. */
  ghost predicate Ordered(nodes: set<Id>, s: Id, order: seq<Id>, dist: map<Id, int>) {
    && dist.Keys == nodes
    && s in order && Distinct(order)
    && (forall u :: u in order ==> u in nodes)
    && dist[s] == 0
    && (forall u :: u in nodes ==> -1 <= dist[u] && (0 <= dist[u] <==> u in order))
    && (forall i, j :: 0 <= i < j < |order| ==> dist[order[i]] <= dist[order[j]])
  }

  /** Both ends of a scanned edge have a recorded distance, the target at most one step more. */
  ghost predicate Stepped(nodes: set<Id>, seen: Adjacency, dist: map<Id, int>) {
    && seen.Keys == dist.Keys == nodes
    && forall u, w :: u in nodes && w in seen[u] ==> w in nodes && 0 <= dist[u] && 0 <= dist[w] <= dist[u] + 1
  }

  /** Predecessor lists hold exactly the scanned tight edges. */
  ghost predicate PredExact(nodes: set<Id>, seen: Adjacency, pred: Adjacency, dist: map<Id, int>) {
    && pred.Keys == nodes
    && (forall u, w :: u in nodes && w in nodes ==> multiset(pred[w])[u] == TightCount(seen, dist, u, w))
    && (forall u, w :: w in nodes && u in pred[w] ==> u in nodes)
  }

  ghost predicate SigmaExact(nodes: set<Id>, s: Id, pred: Adjacency, sigma: map<Id, real>) {
    && pred.Keys == sigma.Keys == nodes
    && forall w :: w in nodes ==> sigma[w] == Indicator(w == s) + ListSum(pred[w], sigma)
  }

  /** The maps are exactly those of a forward phase that discovered the nodes `order`, in this
      order, and scanned the neighbour lists `seen`. */
  ghost predicate Scanned(nodes: set<Id>, seen: Adjacency, s: Id, order: seq<Id>, m: Maps) {
    && Keyed(nodes, seen, m)
    && Ordered(nodes, s, order, m.dist)
    && Stepped(nodes, seen, m.dist)
    && PredExact(nodes, seen, m.pred, m.dist)
    && SigmaExact(nodes, s, m.pred, m.sigma)
    && (forall w :: w in order && w != s ==> m.pred[w] != [])
  }

  ghost function TightCount(seen: Adjacency, dist: map<Id, int>, u: Id, w: Id): nat {
    if u in dist && w in dist && u in seen && 0 <= dist[u] && dist[w] == dist[u] + 1 then multiset(seen[u])[w] else 0
  }

  /** The forward phase is complete: exactly the reached nodes have been scanned, in full. */
  ghost predicate ForwardDone(g: Net, adj: Adjacency, s: Id, stack: seq<Id>, m: Maps) {
    IsAdjacency(g, adj) && Scanned(g.nodes, Explored(g.nodes, adj, stack), s, stack, m)
  }

  ghost function Explored(nodes: set<Id>, adj: Adjacency, stack: seq<Id>): Adjacency {
    map u | u in nodes :: if u in stack && u in adj then adj[u] else []
  }

  lemma {:induction false} NeighbourOfEdge(edges: seq<Edge>, e: nat)
    requires e < |edges|
    ensures edges[e].to in Neighbours(edges, edges[e].from)
  {
    if e < |edges| - 1 {
      NeighbourOfEdge(edges[..|edges| - 1], e);
    }
  }

  lemma {:induction false} DistUpper(g: Net, adj: Adjacency, s: Id, stack: seq<Id>, m: Maps, t: Id, p: seq<nat>)
    requires Closed(g) && s in g.nodes && ForwardDone(g, adj, s, stack, m)
    requires IsPath(g, s, t, p)
    ensures t in g.nodes && 0 <= m.dist[t] <= |p|
    decreases |p|
  {
    if p != [] {
      var e := p[|p| - 1];
      var u := g.edges[e].from;
      DistUpper(g, adj, s, stack, m, u, p[..|p| - 1]);
      NeighbourOfEdge(g.edges, e);
      assert t in Explored(g.nodes, adj, stack)[u];
    }
  }

  /** Predecessor multiplicities are numbers of tight edges. */
  lemma PredCount(g: Net, adj: Adjacency, s: Id, stack: seq<Id>, m: Maps, u: Id, w: Id)
    requires ForwardDone(g, adj, s, stack, m) && u in g.nodes && w in g.nodes
    ensures multiset(m.pred[w])[u] as real
         == if 0 <= m.dist[u] && m.dist[w] == m.dist[u] + 1 then Count(g, 1, u, w) else 0.0
  {
    AdjacencyCounts(g, adj, u, w);
    assert multiset(m.pred[w])[u] == TightCount(Explored(g.nodes, adj, stack), m.dist, u, w);
  }

  /** A predecessor is one step nearer and has an edge to w. */
  lemma PredStep(g: Net, adj: Adjacency, s: Id, stack: seq<Id>, m: Maps, w: Id, u: Id)
    requires ForwardDone(g, adj, s, stack, m)
    requires w in g.nodes && u in m.pred[w]
    ensures u in g.nodes && u in stack && 0 <= m.dist[u] == m.dist[w] - 1
    ensures 0.0 < Count(g, 1, u, w)
  {
    assert multiset(m.pred[w])[u] > 0;
    PredCount(g, adj, s, stack, m, u, w);
  }

  lemma {:induction false} DistLower(g: Net, adj: Adjacency, s: Id, stack: seq<Id>, m: Maps, w: Id)
    requires ForwardDone(g, adj, s, stack, m) && w in stack
    ensures 0 <= m.dist[w] && 0 <= Dist(g, s, w) <= m.dist[w]
    decreases m.dist[w]
  {
    if w == s {
      DistSelf(g, s);
    } else {
      var u := m.pred[w][0];
      PredStep(g, adj, s, stack, m, w, u);
      DistLower(g, adj, s, stack, m, u);
      EdgeDist(g, u, w);
      Triangle(g, s, u, w);
    }
  }

  /** The recorded distance is the length of a shortest path, or -1 when there is none. */
  lemma DistCorrect(g: Net, adj: Adjacency, s: Id, stack: seq<Id>, m: Maps, w: Id)
    requires Closed(g) && s in g.nodes && ForwardDone(g, adj, s, stack, m) && w in g.nodes
    ensures m.dist[w] == Dist(g, s, w)
  {
    if 0 <= Dist(g, s, w) {
      var p :| p in Paths(g, Dist(g, s, w), s, w);
      DistUpper(g, adj, s, stack, m, w, p);
    }
    if w in stack {
      DistLower(g, adj, s, stack, m, w);
    }
  }

  lemma LastEdge(g: Net, s: Id, v: Id, w: Id, k: nat, n: real, x: real)
    requires Dist(g, s, w) == k + 1
    requires n == if Dist(g, s, v) == k then Count(g, 1, v, w) else 0.0
    requires Dist(g, s, v) == k ==> x == Sigma(g, s, v)
    ensures Scale(n, x) == MidTerm(g, k, 1, s, w, v)
  {
    if Dist(g, s, v) == k {
      assert x == Count(g, k, s, v);
    } else if 0.0 < Count(g, k, s, v) && 0.0 < Count(g, 1, v, w) {
      CountDist(g, k, s, v);
      EdgeDist(g, v, w);
      Triangle(g, s, v, w);
      assert false;
    }
  }

  lemma PredWeight(g: Net, adj: Adjacency, s: Id, stack: seq<Id>, m: Maps, w: Id, v: Id, k: nat)
    requires Closed(g) && s in g.nodes && ForwardDone(g, adj, s, stack, m)
    requires w in g.nodes && v in g.nodes && m.dist[w] == k + 1
    requires m.dist[v] == k ==> m.sigma[v] == Sigma(g, s, v)
    ensures Weighted(m.pred[w], m.sigma, v) == MidTerm(g, k, 1, s, w, v)
  {
    DistCorrect(g, adj, s, stack, m, w);
    DistCorrect(g, adj, s, stack, m, v);
    PredCount(g, adj, s, stack, m, v, w);
    LastEdge(g, s, v, w, k, multiset(m.pred[w])[v] as real, m.sigma[v]);
  }

  lemma SigmaSum(g: Net, s: Id, w: Id, k: nat, p: seq<Id>, sigma: map<Id, real>)
    requires Closed(g) && s in g.nodes && Dist(g, s, w) == k + 1
    requires sigma.Keys == g.nodes && forall v :: v in p ==> v in sigma
    requires forall v :: v in g.nodes ==> Weighted(p, sigma, v) == MidTerm(g, k, 1, s, w, v)
    ensures ListSum(p, sigma) == Sigma(g, s, w)
  {
    ListSumByNodes(p, sigma);
    SumEq(g.nodes, v => Weighted(p, sigma, v), v => MidTerm(g, k, 1, s, w, v));
    CountSplit(g, k, 1, s, w);
  }

  lemma SigmaRule(g: Net, adj: Adjacency, s: Id, stack: seq<Id>, m: Maps, w: Id)
    requires ForwardDone(g, adj, s, stack, m) && w in g.nodes
    ensures m.sigma.Keys == g.nodes && forall v :: v in m.pred[w] ==> v in m.sigma
    ensures m.sigma[w] == Indicator(w == s) + ListSum(m.pred[w], m.sigma)
    ensures w == s ==> m.dist[w] == 0
  {
  }

  /** The recorded sigma is the number of shortest paths, parallel edges counted. */
  lemma {:induction false} SigmaCorrect(g: Net, adj: Adjacency, s: Id, stack: seq<Id>, m: Maps, w: Id)
    requires Closed(g) && s in g.nodes && ForwardDone(g, adj, s, stack, m) && w in g.nodes
    ensures m.sigma[w] == Sigma(g, s, w)
    decreases m.dist[w]
  {
    DistCorrect(g, adj, s, stack, m, w);
    if m.dist[w] <= 0 {
      NoPred(g, adj, s, stack, m, w);
    } else {
      var k := m.dist[w] - 1;
      forall v | v in g.nodes
        ensures Weighted(m.pred[w], m.sigma, v) == MidTerm(g, k, 1, s, w, v)
      {
        if m.dist[v] == k { SigmaCorrect(g, adj, s, stack, m, v); }
        PredWeight(g, adj, s, stack, m, w, v, k);
      }
      SigmaRule(g, adj, s, stack, m, w);
      SigmaSum(g, s, w, k, m.pred[w], m.sigma);
    }
  }

  lemma NoPred(g: Net, adj: Adjacency, s: Id, stack: seq<Id>, m: Maps, w: Id)
    requires ForwardDone(g, adj, s, stack, m)
    requires w in g.nodes && m.dist[w] == Dist(g, s, w) <= 0
    ensures m.sigma[w] == Sigma(g, s, w)
  {
    if m.pred[w] != [] {
      PredStep(g, adj, s, stack, m, w, m.pred[w][0]);
    }
    SigmaRule(g, adj, s, stack, m, w);
    DistSelf(g, s);
    if m.dist[w] == 0 { DistZero(g, s, w); }
  }
}
