/** Betweenness centrality: one forward and one backward phase per source node. */
module Phases {
  import opened Ordering
  import opened Sums
  import opened ShortestPaths
  import opened Dependency
  import opened Brandes
  import opened Forward
  import opened Backward

  lemma {:induction false} NeighboursInside(g: Net, edges: seq<Edge>, v: Id)
    requires v in g.nodes
    requires forall e :: 0 <= e < |edges| && edges[e].from in g.nodes ==> edges[e].to in g.nodes
    ensures forall w :: w in Neighbours(edges, v) ==> w in g.nodes
    decreases |edges|
  {
    if edges != [] {
      NeighboursInside(g, edges[..|edges| - 1], v);
    }
  }

  lemma {:induction false} DistinctSize(order: seq<Id>, nodes: set<Id>)
    requires Distinct(order) && forall u :: u in order ==> u in nodes
    ensures |order| <= |nodes|
    decreases |order|
  {
    if order != [] {
      var n := |order| - 1;
      var x := order[n];
      forall u | u in order[..n]
        ensures u in nodes - {x}
      {
        assert u in order;
      }
      DistinctSize(order[..n], nodes - {x});
      assert x in nodes;
    }
  }

  lemma StartState(nodes: set<Id>, adj: Adjacency, s: Id, m: Maps)
    requires s in nodes
    requires m.pred == (map u | u in nodes :: [])
    requires m.sigma == map u | u in nodes :: Indicator(u == s)
    requires m.dist == map u | u in nodes :: if u == s then 0 else -1
    ensures Scanned(nodes, Explored(nodes, adj, []), s, [s], m)
  {
  }

  /** Looks at one edge v -> w: discovers w when it is new, counts it when v -> w is tight. */
  method RelaxEdge(v: Id, w: Id, d_v: int, ghost stack: seq<Id>, queue0: seq<Id>, pred0: Adjacency, sigma0: map<Id, real>, dist0: map<Id, int>)
    returns (queue: seq<Id>, pred: Adjacency, sigma: map<Id, real>, dist: map<Id, int>)
    requires v in dist0 && w in dist0 && w in sigma0 && v in sigma0 && w in pred0 && d_v == dist0[v]
    ensures Maps(pred, sigma, dist) == Relax(Maps(pred0, sigma0, dist0), v, w)
    ensures stack + queue == Discovered(Maps(pred0, sigma0, dist0), stack + queue0, w)
  {
    queue, pred, sigma, dist := queue0, pred0, sigma0, dist0;
    if dist[w] < 0 {
      dist := dist[w := d_v + 1];
      queue := queue + [w];
    }
    if dist[w] == d_v + 1 {
      var sigma_v := sigma[v];
      sigma := sigma[w := sigma[w] + sigma_v];
      pred := pred[w := pred[w] + [v]];
    }
    assert stack + (queue0 + [w]) == stack + queue0 + [w];
  }

  lemma NeighbourList(g: Net, adj: Adjacency, v: Id)
    requires Closed(g) && IsAdjacency(g, adj) && v in g.nodes
    ensures v in adj && forall j :: 0 <= j < |adj[v]| ==> adj[v][j] in g.nodes
  {
    NeighboursInside(g, g.edges, v);
  }

  lemma ScannedKeys(nodes: set<Id>, seen: Adjacency, s: Id, order: seq<Id>, m: Maps)
    requires Scanned(nodes, seen, s, order, m)
    ensures m.pred.Keys == nodes && m.sigma.Keys == nodes && m.dist.Keys == nodes
  {
  }

  /** Scans the neighbours of v, the node just moved from the queue to the stack. */
  method ScanNeighbours(ghost g: Net, ids: set<Id>, adj: Adjacency, s: Id, v: Id, ghost before: seq<Id>,
                        queue0: seq<Id>, pred0: Adjacency, sigma0: map<Id, real>, dist0: map<Id, int>)
    returns (queue: seq<Id>, pred: Adjacency, sigma: map<Id, real>, dist: map<Id, int>)
    requires Closed(g) && g.nodes == ids && IsAdjacency(g, adj) && v in ids && v !in before
    requires Scanned(ids, Explored(ids, adj, before), s, before + [v] + queue0, Maps(pred0, sigma0, dist0))
    requires Frontier(ids, Explored(ids, adj, before), before + [v] + queue0, v, dist0)
    ensures Scanned(ids, Explored(ids, adj, before + [v]), s, before + [v] + queue, Maps(pred, sigma, dist))
    ensures Frontier(ids, Explored(ids, adj, before + [v]), before + [v] + queue, v, dist)
  {
    hide Scanned, Frontier, Relax, Discovered, Scan, Partial, Explored, IsAdjacency, Closed, Neighbours;
    NeighbourList(g, adj, v);
    PartialStart(ids, adj, before, v);
    queue, pred, sigma, dist := queue0, pred0, sigma0, dist0;
    ghost var seen, order, m := Explored(ids, adj, before), before + [v] + queue, Maps(pred, sigma, dist);
    ScannedKeys(ids, seen, s, order, m);
    var d_v := dist[v];
    for j := 0 to |adj[v]|
      invariant seen == Partial(ids, adj, before, v, j)
      invariant order == before + [v] + queue && m == Maps(pred, sigma, dist)
      invariant Scanned(ids, seen, s, order, m)
      invariant Frontier(ids, seen, order, v, m.dist)
      invariant dist.Keys == sigma.Keys == pred.Keys == ids && dist[v] == d_v
    {
      var w := adj[v][j];
      ScanStep(ids, seen, s, order, m, v, w);
      queue, pred, sigma, dist := RelaxEdge(v, w, d_v, before + [v], queue, pred, sigma, dist);
      seen, order, m := Scan(seen, v, w), Discovered(m, order, w), Relax(m, v, w);
      PartialStep(ids, adj, before, v, j);
      ScannedKeys(ids, seen, s, order, m);
    }
    PartialEnd(ids, adj, before, v);
  }

  lemma Shift(stack: seq<Id>, queue: seq<Id>)
    requires queue != []
    ensures stack + [queue[0]] + queue[1..] == stack + queue
  {
  }

  /** Every node unreached, except the source at distance 0 with one empty path. */
  method StartMaps(ids: set<Id>, ghost adj: Adjacency, s: Id)
    returns (pred: Adjacency, sigma: map<Id, real>, dist: map<Id, int>)
    requires s in ids
    ensures Scanned(ids, Explored(ids, adj, []), s, [s], Maps(pred, sigma, dist))
  {
    pred := map id | id in ids :: [];
    sigma := map id | id in ids :: 0.0;
    dist := map id | id in ids :: -1;
    sigma := sigma[s := 1.0];
    dist := dist[s := 0];
    StartState(ids, adj, s, Maps(pred, sigma, dist));
  }

  /** Moves the front of the queue to the stack and scans its neighbours. */
  method VisitFront(ghost g: Net, ids: set<Id>, adj: Adjacency, s: Id, stack0: seq<Id>, queue0: seq<Id>,
                    pred0: Adjacency, sigma0: map<Id, real>, dist0: map<Id, int>)
    returns (stack: seq<Id>, queue: seq<Id>, pred: Adjacency, sigma: map<Id, real>, dist: map<Id, int>)
    requires Closed(g) && g.nodes == ids && IsAdjacency(g, adj) && queue0 != []
    requires Scanned(ids, Explored(ids, adj, stack0), s, stack0 + queue0, Maps(pred0, sigma0, dist0))
    requires LastIsFrontier(ids, s, stack0, queue0, dist0)
    ensures Scanned(ids, Explored(ids, adj, stack), s, stack + queue, Maps(pred, sigma, dist))
    ensures LastIsFrontier(ids, s, stack, queue, dist)
    ensures |stack| == |stack0| + 1 && |stack0| < |ids|
  {
    var v := queue0[0];
    PopReady(ids, Explored(ids, adj, stack0), s, stack0, queue0, Maps(pred0, sigma0, dist0));
    queue, pred, sigma, dist := ScanNeighbours(g, ids, adj, s, v, stack0, queue0[1..], pred0, sigma0, dist0);
    FrontierIsLast(ids, s, Explored(ids, adj, stack0 + [v]), stack0, v, queue, dist);
    stack := stack0 + [v];
  }

  /** The breadth-first phase from one source. */
  method ForwardPhase(ghost g: Net, ids: set<Id>, adj: Adjacency, s: Id)
    returns (stack: seq<Id>, pred: Adjacency, sigma: map<Id, real>, dist: map<Id, int>)
    requires Closed(g) && g.nodes == ids && IsAdjacency(g, adj) && s in ids
    ensures ForwardDone(g, adj, s, stack, Maps(pred, sigma, dist))
  {
    pred, sigma, dist := StartMaps(ids, adj, s);
    stack := [];
    var queue := [s];
    assert stack + queue == [s];
    while queue != []
      invariant Scanned(ids, Explored(ids, adj, stack), s, stack + queue, Maps(pred, sigma, dist))
      invariant LastIsFrontier(ids, s, stack, queue, dist)
      decreases |ids| - |stack|
    {
      stack, queue, pred, sigma, dist := VisitFront(g, ids, adj, s, stack, queue, pred, sigma, dist);
    }
    assert stack + queue == stack;
  }

  ghost predicate LastIsFrontier(ids: set<Id>, s: Id, stack: seq<Id>, queue: seq<Id>, dist: map<Id, int>) {
    && dist.Keys == ids
    && (forall x :: x in stack + queue ==> x in ids)
    && (stack == [] ==> queue == [s])
    && (stack != [] ==> forall x :: x in stack + queue ==> dist[x] <= dist[LastOf(stack)] + 1)
  }

  lemma FrontierIsLast(ids: set<Id>, s: Id, seen: Adjacency, before: seq<Id>, v: Id, queue: seq<Id>, dist: map<Id, int>)
    requires Frontier(ids, seen, before + [v] + queue, v, dist)
    ensures LastIsFrontier(ids, s, before + [v], queue, dist)
  {
  }

  ghost function LastOf(stack: seq<Id>): (x: Id)
    requires stack != []
    ensures x in stack
  {
    stack[|stack| - 1]
  }

  lemma Room(ids: set<Id>, stack: seq<Id>, queue: seq<Id>)
    requires Distinct(stack + queue) && queue != [] && forall u :: u in stack + queue ==> u in ids
    ensures |stack| < |ids|
  {
    DistinctSize(stack + queue, ids);
  }

  /** The neighbour lists scanned when v's own list has been scanned up to j. */
  ghost function Partial(nodes: set<Id>, adj: Adjacency, stack: seq<Id>, v: Id, j: nat): Adjacency
    requires v in adj && j <= |adj[v]|
  {
    map u | u in nodes :: if u == v then adj[v][..j] else if u in stack && u in adj then adj[u] else []
  }

  lemma PartialStart(nodes: set<Id>, adj: Adjacency, stack: seq<Id>, v: Id)
    requires v in adj && v !in stack
    ensures Partial(nodes, adj, stack, v, 0) == Explored(nodes, adj, stack)
  {
  }

  lemma PartialStep(nodes: set<Id>, adj: Adjacency, stack: seq<Id>, v: Id, j: nat)
    requires v in adj && v in nodes && j < |adj[v]|
    ensures Scan(Partial(nodes, adj, stack, v, j), v, adj[v][j]) == Partial(nodes, adj, stack, v, j + 1)
  {
    assert adj[v][..j] + [adj[v][j]] == adj[v][..j + 1];
  }

  lemma PartialEnd(nodes: set<Id>, adj: Adjacency, stack: seq<Id>, v: Id)
    requires v in adj
    ensures Partial(nodes, adj, stack, v, |adj[v]|) == Explored(nodes, adj, stack + [v])
  {
    assert adj[v][..|adj[v]|] == adj[v];
  }

  /** The front of the queue is a frontier: nothing discovered is further than one step from it. */
  lemma PopQueue(nodes: set<Id>, seen: Adjacency, s: Id, stack: seq<Id>, queue: seq<Id>, m: Maps)
    requires queue != []
    requires Ordered(nodes, s, stack + queue, m.dist)
    requires seen.Keys == nodes && forall u :: u in nodes && seen[u] != [] ==> u in stack
    requires LastIsFrontier(nodes, s, stack, queue, m.dist)
    ensures queue[0] in nodes && queue[0] !in stack
    ensures Frontier(nodes, seen, stack + queue, queue[0], m.dist)
  {
    var order, k := stack + queue, |stack|;
    var v := order[k];
    assert v in order;
    forall i | 0 <= i < k
      ensures m.dist[stack[i]] <= m.dist[v] && stack[i] != v
    {
      assert order[i] == stack[i];
    }
    if stack != [] {
      assert stack[k - 1] in order;
    }
  }

  lemma PopReady(nodes: set<Id>, seen: Adjacency, s: Id, stack: seq<Id>, queue: seq<Id>, m: Maps)
    requires queue != []
    requires Scanned(nodes, seen, s, stack + queue, m)
    requires forall u :: u in nodes && seen[u] != [] ==> u in stack
    requires LastIsFrontier(nodes, s, stack, queue, m.dist)
    ensures queue[0] in nodes && queue[0] !in stack && |stack| < |nodes|
    ensures Scanned(nodes, seen, s, stack + [queue[0]] + queue[1..], m)
    ensures Frontier(nodes, seen, stack + [queue[0]] + queue[1..], queue[0], m.dist)
  {
    Shift(stack, queue);
    PopQueue(nodes, seen, s, stack, queue, m);
    Room(nodes, stack, queue);
  }

  /** What one predecessor entry v of w receives. */
  method Contribution(ghost g: Net, ghost s: Id, ghost v: Id, ghost w: Id, sigma_v: real, sigma_w: real, delta_w: real)
    returns (c: real)
    requires sigma_v == Sigma(g, s, v) && sigma_w == Sigma(g, s, w) != 0.0 && delta_w == Dep(g, s, w)
    ensures c == Flow(g, s, v, w)
  {
    c := (sigma_v / sigma_w) * (1.0 + delta_w);
  }

  /** Adds one predecessor list of w, entry by entry. */
  method PassBack(ghost g: Net, ghost s: Id, w: Id, predecessors: seq<Id>, sigma: map<Id, real>, delta0: map<Id, real>)
    returns (delta: map<Id, real>)
    requires EntriesReady(g, s, w, predecessors, sigma)
    requires delta0.Keys == g.nodes && delta0[w] == Dep(g, s, w)
    ensures Accumulated(g, s, w, predecessors, delta0, delta) && delta[w] == delta0[w]
  {
    delta := delta0;
    ghost var done: seq<Id> := [];
    for j := 0 to |predecessors|
      invariant done == predecessors[..j]
      invariant Accumulated(g, s, w, done, delta0, delta)
      invariant delta[w] == Dep(g, s, w)
    {
      var v := predecessors[j];
      PrefixStep(predecessors, j);
      var c := Contribution(g, s, v, w, sigma[v], sigma[w], delta[w]);
      AccumulateStep(g, s, w, done, v, delta0, delta, c);
      delta := delta[v := delta[v] + c];
      done := done + [v];
    }
    assert done == predecessors;
  }

  /** Pops the node at position i: passes its dependency back and credits it. */
  method PopFarthest(ghost g: Net, s: Id, ghost stack: seq<Id>, ghost m: Maps, ghost i: nat, w: Id, pred: Adjacency,
                     sigma: map<Id, real>, delta0: map<Id, real>, ghost before: map<Id, real>, centrality0: map<Id, real>)
    returns (delta: map<Id, real>, centrality: map<Id, real>)
    requires Closed(g) && s in g.nodes && Exact(g, s, stack, m) && pred == m.pred && sigma == m.sigma
    requires i < |stack| && w == stack[i]
    requires Collected(g, s, stack, i + 1, delta0) && Credited(g, s, stack, i + 1, before, centrality0)
    ensures Collected(g, s, stack, i, delta) && Credited(g, s, stack, i, before, centrality)
  {
    BeforePop(g, s, stack, m, i, delta0);
    delta := PassBack(g, s, w, pred[w], sigma, delta0);
    centrality := centrality0;
    if w != s {
      centrality := centrality[w := centrality[w] + delta[w]];
    }
    CollectStep(g, s, stack, m, i, w, pred[w], delta0, delta);
    CreditStep(g, s, stack, i, w, before, centrality0, centrality, delta[w]);
  }

  /** The accumulation phase for one source: pops the stack, farthest nodes first. */
  method BackwardPhase(ghost g: Net, ids: set<Id>, s: Id, stack0: seq<Id>, pred: Adjacency, sigma: map<Id, real>,
                       ghost m: Maps, centrality0: map<Id, real>)
    returns (centrality: map<Id, real>)
    requires Closed(g) && g.nodes == ids && s in ids && centrality0.Keys == ids
    requires Exact(g, s, stack0, m) && pred == m.pred && sigma == m.sigma
    ensures centrality.Keys == ids
    ensures forall v :: v in ids ==> centrality[v] == centrality0[v] + OwnShare(g, s, v)
  {
    centrality := centrality0;
    var delta: map<Id, real> := map id | id in ids :: 0.0;
    var stack := stack0;
    while stack != []
      invariant stack <= stack0
      invariant Collected(g, s, stack0, |stack|, delta)
      invariant Credited(g, s, stack0, |stack|, centrality0, centrality)
    {
      var w := stack[|stack| - 1];
      stack := stack[..|stack| - 1];
      delta, centrality := PopFarthest(g, s, stack0, m, |stack|, w, pred, sigma, delta, centrality0, centrality);
    }
    CreditAll(g, s, stack0, m, centrality0, centrality);
  }
}
