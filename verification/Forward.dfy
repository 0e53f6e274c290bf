/** One relaxation of the forward phase keeps the bookkeeping exact. */
module Forward {
  import opened Ordering
  import opened Sums
  import opened ShortestPaths
  import opened Brandes

  /** The body of the inner loop: discover w if it is new, then count it if v -> w is tight. */
  function Relax(m: Maps, v: Id, w: Id): Maps
    requires v in m.dist && w in m.dist && w in m.sigma && v in m.sigma && w in m.pred
  {
    var dist := if m.dist[w] < 0 then m.dist[w := m.dist[v] + 1] else m.dist;
    if dist[w] == m.dist[v] + 1
    then Maps(m.pred[w := m.pred[w] + [v]], m.sigma[w := m.sigma[w] + m.sigma[v]], dist)
    else Maps(m.pred, m.sigma, dist)
  }

  function Discovered(m: Maps, order: seq<Id>, w: Id): seq<Id>
    requires w in m.dist
  {
    if m.dist[w] < 0 then order + [w] else order
  }

  ghost function Scan(seen: Adjacency, v: Id, w: Id): Adjacency {
    if v in seen then seen[v := seen[v] + [w]] else seen
  }

  /** v is the node being scanned: nothing discovered is more than one step further, and only
      nodes not further than v have been scanned at all. */
  ghost predicate Frontier(nodes: set<Id>, seen: Adjacency, order: seq<Id>, v: Id, dist: map<Id, int>) {
    && seen.Keys == dist.Keys == nodes && v in order && v in nodes
    && (forall x :: x in order ==> x in nodes && dist[x] <= dist[v] + 1)
    && (forall u :: u in nodes && seen[u] != [] ==> u in order && dist[u] <= dist[v])
  }

  ghost predicate NewlyCounted(dist: map<Id, int>, v: Id, w: Id) {
    v in dist && w in dist && (dist[w] < 0 || dist[w] == dist[v] + 1)
  }

  /** A node that gets a new count is nobody's predecessor yet. */
  lemma NotYetPred(nodes: set<Id>, seen: Adjacency, s: Id, order: seq<Id>, m: Maps, v: Id, w: Id, x: Id)
    requires Ordered(nodes, s, order, m.dist) && PredExact(nodes, seen, m.pred, m.dist)
    requires Frontier(nodes, seen, order, v, m.dist)
    requires w in nodes && x in nodes && NewlyCounted(m.dist, v, w)
    ensures w !in m.pred[x]
  {
    assert seen[w] == [];
    assert TightCount(seen, m.dist, w, x) == 0;
  }

  lemma RelaxFrontier(nodes: set<Id>, seen: Adjacency, s: Id, order: seq<Id>, m: Maps, v: Id, w: Id)
    requires Keyed(nodes, seen, m) && Ordered(nodes, s, order, m.dist)
    requires Frontier(nodes, seen, order, v, m.dist) && w in nodes
    ensures Keyed(nodes, Scan(seen, v, w), Relax(m, v, w))
    ensures forall u :: u in order ==> Relax(m, v, w).dist[u] == m.dist[u]
    ensures Frontier(nodes, Scan(seen, v, w), Discovered(m, order, w), v, Relax(m, v, w).dist)
  {
  }

  lemma RelaxSorted(nodes: set<Id>, s: Id, order: seq<Id>, m: Maps, v: Id, w: Id, order': seq<Id>, dist': map<Id, int>)
    requires Ordered(nodes, s, order, m.dist) && w in nodes && v in nodes && w !in order
    requires forall x :: x in order ==> m.dist[x] <= m.dist[v] + 1
    requires order' == order + [w] && dist' == m.dist[w := m.dist[v] + 1]
    requires v in order
    ensures Ordered(nodes, s, order', dist')
  {
    forall i, j | 0 <= i < j < |order'|
      ensures order'[i] != order'[j] && dist'[order'[i]] <= dist'[order'[j]]
    {
      assert order'[i] == order[i] && order[i] in order;
      if j < |order| { assert order'[j] == order[j] && order[j] in order; }
    }
    assert forall u :: u in order' <==> u in order || u == w;
  }

  lemma RelaxOrder(nodes: set<Id>, seen: Adjacency, s: Id, order: seq<Id>, m: Maps, v: Id, w: Id)
    requires Keyed(nodes, seen, m) && Ordered(nodes, s, order, m.dist)
    requires Frontier(nodes, seen, order, v, m.dist) && w in nodes
    ensures Ordered(nodes, s, Discovered(m, order, w), Relax(m, v, w).dist)
  {
    if m.dist[w] < 0 {
      RelaxSorted(nodes, s, order, m, v, w, order + [w], m.dist[w := m.dist[v] + 1]);
    }
  }

  lemma RelaxStep(nodes: set<Id>, seen: Adjacency, s: Id, order: seq<Id>, m: Maps, v: Id, w: Id, u: Id, x: Id)
    requires Keyed(nodes, seen, m) && Ordered(nodes, s, order, m.dist) && Stepped(nodes, seen, m.dist)
    requires Frontier(nodes, seen, order, v, m.dist) && w in nodes && u in nodes && x in Scan(seen, v, w)[u]
    ensures x in nodes && 0 <= Relax(m, v, w).dist[u] && 0 <= Relax(m, v, w).dist[x] <= Relax(m, v, w).dist[u] + 1
  {
    if u != v || x != w { assert x in seen[u]; }
    if m.dist[w] < 0 {
      NewIsUncounted(nodes, seen, s, order, m, v, w, u);
    }
  }

  lemma RelaxSteps(nodes: set<Id>, seen: Adjacency, s: Id, order: seq<Id>, m: Maps, v: Id, w: Id)
    requires Keyed(nodes, seen, m) && Ordered(nodes, s, order, m.dist) && Stepped(nodes, seen, m.dist)
    requires Frontier(nodes, seen, order, v, m.dist) && w in nodes
    ensures Stepped(nodes, Scan(seen, v, w), Relax(m, v, w).dist)
  {
    forall u, x | u in nodes && x in Scan(seen, v, w)[u]
      ensures x in nodes && 0 <= Relax(m, v, w).dist[u] && 0 <= Relax(m, v, w).dist[x] <= Relax(m, v, w).dist[u] + 1
    {
      RelaxStep(nodes, seen, s, order, m, v, w, u, x);
    }
  }

  /** Nothing was counted into a node before it was discovered. */
  lemma NewIsUncounted(nodes: set<Id>, seen: Adjacency, s: Id, order: seq<Id>, m: Maps, v: Id, w: Id, u: Id)
    requires Ordered(nodes, s, order, m.dist) && Stepped(nodes, seen, m.dist) && Frontier(nodes, seen, order, v, m.dist)
    requires w in nodes && u in nodes && m.dist[w] < 0
    ensures seen[w] == [] && w !in seen[u] && w != v
  {
  }

  lemma RelaxCount(nodes: set<Id>, seen: Adjacency, s: Id, order: seq<Id>, m: Maps, v: Id, w: Id, u: Id, x: Id)
    requires Keyed(nodes, seen, m) && Ordered(nodes, s, order, m.dist) && Stepped(nodes, seen, m.dist)
    requires Frontier(nodes, seen, order, v, m.dist)
    requires w in nodes && u in nodes && x in nodes
    requires multiset(m.pred[x])[u] == TightCount(seen, m.dist, u, x)
    ensures multiset(Relax(m, v, w).pred[x])[u] == TightCount(Scan(seen, v, w), Relax(m, v, w).dist, u, x)
  {
    hide TightCount, Scan, Relax, Ordered, Stepped, NewlyCounted;
    PredStep(nodes, seen, m, v, w, u, x);
    TightStep(nodes, seen, s, order, m, v, w, u, x);
  }

  /** The predecessor lists gain v for a newly counted w, and nothing else. */
  lemma PredStep(nodes: set<Id>, seen: Adjacency, m: Maps, v: Id, w: Id, u: Id, x: Id)
    requires Keyed(nodes, seen, m) && v in nodes && w in nodes && x in nodes
    ensures multiset(Relax(m, v, w).pred[x])[u] == multiset(m.pred[x])[u] + if NewlyCounted(m.dist, v, w) && u == v && x == w then 1 else 0
  {
    assert multiset(m.pred[w] + [v])[u] == multiset(m.pred[w])[u] + if u == v then 1 else 0;
  }

  /** And so do the scanned tight edges. */
  lemma TightStep(nodes: set<Id>, seen: Adjacency, s: Id, order: seq<Id>, m: Maps, v: Id, w: Id, u: Id, x: Id)
    requires Keyed(nodes, seen, m) && Ordered(nodes, s, order, m.dist) && Stepped(nodes, seen, m.dist)
    requires Frontier(nodes, seen, order, v, m.dist)
    requires w in nodes && u in nodes && x in nodes
    ensures TightCount(Scan(seen, v, w), Relax(m, v, w).dist, u, x)
         == TightCount(seen, m.dist, u, x) + if NewlyCounted(m.dist, v, w) && u == v && x == w then 1 else 0
  {
    assert v in nodes && 0 <= m.dist[v];
    if m.dist[w] < 0 {
      NewIsUncounted(nodes, seen, s, order, m, v, w, u);
      hide Ordered, Stepped, Frontier;
      TightToNew(nodes, seen, m, v, w, u, x);
    } else {
      hide Ordered, Stepped, Frontier;
      TightToKnown(nodes, seen, m, v, w, u, x);
    }
  }

  lemma TightToKnown(nodes: set<Id>, seen: Adjacency, m: Maps, v: Id, w: Id, u: Id, x: Id)
    requires Keyed(nodes, seen, m) && v in nodes && w in nodes && u in nodes && x in nodes && 0 <= m.dist[v] && 0 <= m.dist[w]
    ensures TightCount(Scan(seen, v, w), Relax(m, v, w).dist, u, x)
         == TightCount(seen, m.dist, u, x) + if NewlyCounted(m.dist, v, w) && u == v && x == w then 1 else 0
  {
    assert multiset(seen[v] + [w])[x] == multiset(seen[v])[x] + if x == w then 1 else 0;
  }

  lemma TightToNew(nodes: set<Id>, seen: Adjacency, m: Maps, v: Id, w: Id, u: Id, x: Id)
    requires Keyed(nodes, seen, m) && v in nodes && w in nodes && u in nodes && x in nodes && 0 <= m.dist[v] && m.dist[w] < 0
    requires seen[w] == [] && w !in seen[u] && w != v
    ensures TightCount(Scan(seen, v, w), Relax(m, v, w).dist, u, x)
         == TightCount(seen, m.dist, u, x) + if NewlyCounted(m.dist, v, w) && u == v && x == w then 1 else 0
  {
    assert multiset(seen[v] + [w])[x] == multiset(seen[v])[x] + if x == w then 1 else 0;
  }

  lemma RelaxPred(nodes: set<Id>, seen: Adjacency, s: Id, order: seq<Id>, m: Maps, v: Id, w: Id)
    requires Keyed(nodes, seen, m) && Ordered(nodes, s, order, m.dist) && Stepped(nodes, seen, m.dist)
    requires PredExact(nodes, seen, m.pred, m.dist)
    requires Frontier(nodes, seen, order, v, m.dist) && w in nodes
    ensures PredExact(nodes, Scan(seen, v, w), Relax(m, v, w).pred, Relax(m, v, w).dist)
  {
    forall u, x | u in nodes && x in nodes
      ensures multiset(Relax(m, v, w).pred[x])[u] == TightCount(Scan(seen, v, w), Relax(m, v, w).dist, u, x)
    {
      RelaxCount(nodes, seen, s, order, m, v, w, u, x);
    }
  }

  lemma RelaxSigma(nodes: set<Id>, seen: Adjacency, s: Id, order: seq<Id>, m: Maps, v: Id, w: Id)
    requires Keyed(nodes, seen, m) && Ordered(nodes, s, order, m.dist)
    requires PredExact(nodes, seen, m.pred, m.dist) && SigmaExact(nodes, s, m.pred, m.sigma)
    requires Frontier(nodes, seen, order, v, m.dist) && w in nodes
    ensures SigmaExact(nodes, s, Relax(m, v, w).pred, Relax(m, v, w).sigma)
  {
    var m' := Relax(m, v, w);
    forall x | x in nodes
      ensures m'.sigma[x] == Indicator(x == s) + ListSum(m'.pred[x], m'.sigma)
    {
      if NewlyCounted(m.dist, v, w) {
        NotYetPred(nodes, seen, s, order, m, v, w, x);
        ListSumSame(m.pred[x], m.sigma, m'.sigma);
        assert (m.pred[x] + [v])[..|m.pred[x]|] == m.pred[x];
      }
    }
  }

  /** Scanning one more neighbour of v keeps every clause of the bookkeeping. */
  lemma ScanStep(nodes: set<Id>, seen: Adjacency, s: Id, order: seq<Id>, m: Maps, v: Id, w: Id)
    requires Scanned(nodes, seen, s, order, m) && Frontier(nodes, seen, order, v, m.dist) && w in nodes
    ensures Scanned(nodes, Scan(seen, v, w), s, Discovered(m, order, w), Relax(m, v, w))
    ensures Frontier(nodes, Scan(seen, v, w), Discovered(m, order, w), v, Relax(m, v, w).dist)
    ensures Relax(m, v, w).dist[v] == m.dist[v]
  {
    RelaxFrontier(nodes, seen, s, order, m, v, w);
    RelaxOrder(nodes, seen, s, order, m, v, w);
    RelaxSteps(nodes, seen, s, order, m, v, w);
    RelaxPred(nodes, seen, s, order, m, v, w);
    RelaxSigma(nodes, seen, s, order, m, v, w);
  }
}
