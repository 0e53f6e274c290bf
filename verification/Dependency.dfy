/** Betweenness by its naive definition over sets of shortest paths, and the recursion on
    dependencies that lets one backward pass per source compute it. */
module Dependency {
  import opened Sums
  import opened ShortestPaths

  /** v is on p strictly between its two ends. */
  ghost predicate Interior(g: Net, s: Id, p: seq<nat>, v: Id) {
    exists i :: 0 < i < |p| && MidNode(g, s, p, i) == v
  }

  /** The shortest s-t paths that pass through v. */
  ghost function Through(g: Net, s: Id, t: Id, v: Id): set<seq<nat>> {
    set p | p in Shortest(g, s, t) && Interior(g, s, p, v)
  }

  /** The fraction of shortest s-t paths that pass through v. */
  ghost function PairShare(g: Net, s: Id, t: Id, v: Id): real {
    if Dist(g, s, t) < 0 then 0.0 else |Through(g, s, t, v)| as real / Sigma(g, s, t)
  }

  ghost function SourceShare(g: Net, s: Id, v: Id): real {
    Sum(g.nodes - {s} - {v}, t => PairShare(g, s, t, v))
  }

  /** Betweenness of v before scaling: the shares of all ordered pairs s != v != t, s != t. */
  ghost function Betweenness(g: Net, v: Id): real {
    Sum(g.nodes - {v}, s => SourceShare(g, s, v))
  }

  /** Some shortest s-t path runs over v (an end included). */
  ghost predicate On(g: Net, s: Id, v: Id, t: Id) {
    0 <= Dist(g, s, v) && 0 <= Dist(g, v, t) && Dist(g, s, t) == Dist(g, s, v) + Dist(g, v, t)
  }

  /** v lies one step before w on shortest paths from s. */
  ghost predicate Tight(g: Net, s: Id, v: Id, w: Id) {
    0 <= Dist(g, s, v) && Dist(g, s, w) == Dist(g, s, v) + 1
  }

  lemma InteriorPosition(g: Net, s: Id, t: Id, v: Id, p: seq<nat>, i: nat)
    requires p in Shortest(g, s, t) && i <= |p| && MidNode(g, s, p, i) == v
    ensures On(g, s, v, t) && i == Dist(g, s, v)
  {
    PathSplit(g, s, t, p, i);
    DistMinimal(g, s, v, p[..i]);
    DistMinimal(g, v, t, p[i..]);
    Triangle(g, s, v, t);
  }

  lemma DistPositive(g: Net, s: Id, t: Id)
    requires s != t && 0 <= Dist(g, s, t)
    ensures 0 < Dist(g, s, t)
  {
    if Dist(g, s, t) == 0 { DistZero(g, s, t); }
  }

  lemma ThroughIsVia(g: Net, s: Id, t: Id, v: Id)
    requires v != s && v != t && On(g, s, v, t)
    ensures Through(g, s, t, v) == Via(g, Dist(g, s, v), Dist(g, v, t), s, v, t)
  {
    var i, j := Dist(g, s, v), Dist(g, v, t);
    DistPositive(g, s, v);
    DistPositive(g, v, t);
    forall p | p in Through(g, s, t, v)
      ensures p in Via(g, i, j, s, v, t)
    {
      var k :| 0 < k < |p| && MidNode(g, s, p, k) == v;
      InteriorPosition(g, s, t, v, p, k);
    }
    forall p | p in Via(g, i, j, s, v, t)
      ensures p in Through(g, s, t, v)
    {
      assert 0 < i < |p| && MidNode(g, s, p, i) == v;
    }
  }

  lemma SigmaIsCount(g: Net, s: Id, t: Id)
    requires 0 <= Dist(g, s, t)
    ensures Sigma(g, s, t) == Count(g, Dist(g, s, t), s, t)
  {
  }

  lemma NothingThrough(g: Net, s: Id, t: Id, v: Id)
    requires v != s && v != t && !On(g, s, v, t)
    ensures Through(g, s, t, v) == {}
  {
    forall p | p in Through(g, s, t, v)
      ensures false
    {
      var k :| 0 < k < |p| && MidNode(g, s, p, k) == v;
      InteriorPosition(g, s, t, v, p, k);
    }
  }

  lemma ThroughCount(g: Net, s: Id, t: Id, v: Id)
    requires v != s && v != t
    ensures On(g, s, v, t) ==> |Through(g, s, t, v)| as real == Sigma(g, s, v) * Sigma(g, v, t)
    ensures !On(g, s, v, t) ==> Through(g, s, t, v) == {}
  {
    hide Count, Sigma, Through, Via;
    if On(g, s, v, t) {
      SigmaIsCount(g, s, v);
      SigmaIsCount(g, v, t);
      ThroughIsVia(g, s, t, v);
      ViaCount(g, Dist(g, s, v), Dist(g, v, t), s, v, t);
    } else {
      NothingThrough(g, s, t, v);
    }
  }

  ghost function DepTerm(g: Net, s: Id, v: Id, t: Id): real {
    if t != v && On(g, s, v, t) then Ratio(Sigma(g, s, v), Sigma(g, v, t), Sigma(g, s, t)) else 0.0
  }

  ghost function Ratio(a: real, b: real, c: real): real {
    if c == 0.0 then 0.0 else a * b / c
  }

  /** Dependency of s on v: what the backward pass accumulates in `delta`. */
  ghost function Dep(g: Net, s: Id, v: Id): real {
    Sum(g.nodes, t => DepTerm(g, s, v, t))
  }

  lemma ShareTerm(g: Net, s: Id, v: Id, t: Id)
    requires s != v && t != v
    ensures DepTerm(g, s, v, t) == PairShare(g, s, t, v)
  {
    ThroughCount(g, s, t, v);
    SigmaPositive(g, s, t);
  }

  lemma OwnTerm(g: Net, s: Id, v: Id)
    requires s != v
    ensures DepTerm(g, s, v, s) == 0.0
  {
    DistSelf(g, s);
    if 0 <= Dist(g, s, v) { DistPositive(g, s, v); }
  }

  lemma DepIsSourceShare(g: Net, s: Id, v: Id)
    requires s in g.nodes && v in g.nodes && s != v
    ensures Dep(g, s, v) == SourceShare(g, s, v)
  {
    var f := t => DepTerm(g, s, v, t);
    var T := g.nodes - {s} - {v};
    OwnTerm(g, s, v);
    SumSubset(T, g.nodes, f);
    forall t | t in T
      ensures f(t) == PairShare(g, s, t, v)
    {
      ShareTerm(g, s, v, t);
    }
    SumEq(T, f, t => PairShare(g, s, t, v));
  }

  /** What one tight edge class v -> w passes back from w to v. */
  ghost function FlowTerm(g: Net, s: Id, v: Id, w: Id): real {
    if Tight(g, s, v, w) then Count(g, 1, v, w) * Flow(g, s, v, w) else 0.0
  }

  /** The amount `(sigma[v] / sigma[w]) * (1 + delta[w])` of the source. */
  ghost function Flow(g: Net, s: Id, v: Id, w: Id): real {
    if Sigma(g, s, w) == 0.0 then 0.0 else Sigma(g, s, v) / Sigma(g, s, w) * (1.0 + Dep(g, s, w))
  }

  ghost function PairFlow(g: Net, s: Id, v: Id, w: Id, t: Id): real {
    if Tight(g, s, v, w) && On(g, s, w, t)
    then Ratio(Sigma(g, s, v), Count(g, 1, v, w) * Sigma(g, w, t), Sigma(g, s, t)) else 0.0
  }

  lemma EdgeDist(g: Net, v: Id, w: Id)
    requires 0.0 < Count(g, 1, v, w)
    ensures 0 <= Dist(g, v, w) <= 1
  {
    var p :| p in Paths(g, 1, v, w);
    DistMinimal(g, v, w, p);
  }

  lemma CountDist(g: Net, k: nat, w: Id, t: Id)
    requires 0.0 < Count(g, k, w, t)
    ensures 0 <= Dist(g, w, t) <= k
  {
    var p :| p in Paths(g, k, w, t);
    DistMinimal(g, w, t, p);
  }

  /** An edge v -> w that starts a shortest path towards t is tight, and w is on the way. */
  lemma EdgeOnTheWay(g: Net, s: Id, v: Id, w: Id, t: Id, k: nat)
    requires On(g, s, v, t) && Dist(g, v, t) == k + 1
    requires 0.0 < Count(g, 1, v, w) && 0.0 < Count(g, k, w, t)
    ensures Tight(g, s, v, w) && On(g, s, w, t) && Dist(g, w, t) == k
  {
    EdgeDist(g, v, w);
    CountDist(g, k, w, t);
    Triangle(g, v, w, t);
    Triangle(g, s, v, w);
    Triangle(g, s, w, t);
  }

  lemma FirstEdge(g: Net, s: Id, v: Id, w: Id, t: Id)
    requires t != v && On(g, s, v, t)
    ensures 1 <= Dist(g, v, t)
    ensures MidTerm(g, 1, Dist(g, v, t) - 1, v, t, w)
         == if Tight(g, s, v, w) && On(g, s, w, t) then Count(g, 1, v, w) * Sigma(g, w, t) else 0.0
  {
    DistPositive(g, v, t);
    var k := Dist(g, v, t) - 1;
    if Tight(g, s, v, w) && On(g, s, w, t) {
      assert Dist(g, w, t) == k;
    } else {
      if 0.0 < Count(g, 1, v, w) && 0.0 < Count(g, k, w, t) {
        EdgeOnTheWay(g, s, v, w, t, k);
      }
      NoMiddle(g, k, v, w, t);
    }
  }

  lemma NoMiddle(g: Net, k: nat, v: Id, w: Id, t: Id)
    requires !(0.0 < Count(g, 1, v, w) && 0.0 < Count(g, k, w, t))
    ensures MidTerm(g, 1, k, v, t, w) == 0.0
  {
  }

  /** Off the shortest paths through v no edge out of v carries anything towards t. */
  lemma NoEdge(g: Net, s: Id, v: Id, w: Id, t: Id)
    requires t == v || !On(g, s, v, t)
    ensures PairFlow(g, s, v, w, t) == 0.0
  {
    if Tight(g, s, v, w) && On(g, s, w, t) && 0.0 < Count(g, 1, v, w) {
      EdgeDist(g, v, w);
      Triangle(g, v, w, t);
      Triangle(g, s, v, t);
      assert false;
    }
  }

  lemma PairFlowTerm(g: Net, s: Id, v: Id, w: Id, t: Id)
    requires t != v && On(g, s, v, t)
    ensures 1 <= Dist(g, v, t)
    ensures PairFlow(g, s, v, w, t)
         == Ratio(Sigma(g, s, v), MidTerm(g, 1, Dist(g, v, t) - 1, v, t, w), Sigma(g, s, t))
  {
    hide MidTerm;
    FirstEdge(g, s, v, w, t);
  }

  lemma DepTermByEdges(g: Net, s: Id, v: Id, t: Id, h: Id -> real)
    requires Closed(g) && v in g.nodes
    requires forall w :: h(w) == PairFlow(g, s, v, w, t)
    ensures DepTerm(g, s, v, t) == Sum(g.nodes, h)
  {
    if t != v && On(g, s, v, t) {
      DistPositive(g, v, t);
      var k := Dist(g, v, t) - 1;
      CountSplit(g, 1, k, v, t);
      assert Sigma(g, v, t) == Count(g, 1 + k, v, t);
      SplitRatio(g, s, v, t, k, h);
    } else {
      forall w | w in g.nodes
        ensures h(w) == 0.0
      {
        NoEdge(g, s, v, w, t);
      }
      SumConst(g.nodes, h, 0.0);
    }
  }

  lemma SplitRatio(g: Net, s: Id, v: Id, t: Id, k: nat, h: Id -> real)
    requires t != v && On(g, s, v, t) && Dist(g, v, t) == k + 1
    requires forall w :: h(w) == PairFlow(g, s, v, w, t)
    ensures Sum(g.nodes, h)
         == Ratio(Sigma(g, s, v), Sum(g.nodes, w => MidTerm(g, 1, k, v, t, w)), Sigma(g, s, t))
  {
    var m := w => MidTerm(g, 1, k, v, t, w);
    var a, c := Sigma(g, s, v), Sigma(g, s, t);
    forall w | w in g.nodes
      ensures h(w) == Ratio(a, m(w), c)
    {
      PairFlowTerm(g, s, v, w, t);
    }
    RatioAdditive(a, c);
    SumLinear(g.nodes, m, x => Ratio(a, x, c), h);
  }

  lemma RatioAdditive(a: real, c: real)
    ensures Additive(x => Ratio(a, x, c))
  {
    forall x, y
      ensures Ratio(a, x + y, c) == Ratio(a, x, c) + Ratio(a, y, c)
    {
      if c != 0.0 {
        assert a * (x + y) == a * x + a * y;
      }
    }
  }

  ghost function TermOrSelf(g: Net, s: Id, w: Id, t: Id): real {
    DepTerm(g, s, w, t) + Indicator(t == w)
  }

  ghost function Gain(g: Net, s: Id, v: Id, w: Id): real {
    Share(Count(g, 1, v, w), Sigma(g, s, v), Sigma(g, s, w))
  }

  ghost function Share(c: real, a: real, b: real): real {
    if b == 0.0 then 0.0 else c * (a / b)
  }

  /** What flows from t through v -> w is a fixed multiple of what flows from t through w. */
  lemma PairFlowScaled(g: Net, s: Id, v: Id, w: Id, t: Id)
    requires Tight(g, s, v, w)
    ensures PairFlow(g, s, v, w, t) == Scale(Gain(g, s, v, w), TermOrSelf(g, s, w, t))
  {
    SigmaPositive(g, s, w);
    var c, a, b := Count(g, 1, v, w), Sigma(g, s, v), Sigma(g, s, w);
    if t == w {
      DistSelf(g, w);
      FactorSelf(c, a, b);
    } else if On(g, s, w, t) {
      SigmaPositive(g, s, t);
      FactorTerm(c, a, b, Sigma(g, w, t), Sigma(g, s, t));
    }
  }

  lemma FactorSelf(c: real, a: real, b: real)
    requires b != 0.0
    ensures Ratio(a, c * 1.0, b) == Scale(Share(c, a, b), 0.0 + 1.0)
  {
  }

  lemma FactorTerm(c: real, a: real, b: real, x: real, y: real)
    requires b != 0.0 && y != 0.0
    ensures Ratio(a, c * x, y) == Scale(Share(c, a, b), Ratio(b, x, y) + 0.0)
  {
    var q := a / b;
    assert a == q * b;
    calc {
      c * q * (b * x / y);
      { Assoc(c * q, b * x, y); }
      (c * q) * (b * x) / y;
      { Shuffle(c, q, b, x); }
      (q * b) * (c * x) / y;
    }
  }

  lemma Assoc(p: real, n: real, y: real)
    requires y != 0.0
    ensures p * (n / y) == p * n / y
  {
    var z := n / y;
    assert n == z * y;
    assert p * n == p * z * y;
  }

  lemma Shuffle(c: real, q: real, b: real, x: real)
    ensures (c * q) * (b * x) == (q * b) * (c * x)
  {
  }

  lemma SumOrSelf(g: Net, s: Id, w: Id)
    requires w in g.nodes
    ensures Sum(g.nodes, t => TermOrSelf(g, s, w, t)) == Dep(g, s, w) + 1.0
  {
    var self := t => Indicator(t == w);
    SumSubset({w}, g.nodes, self);
    SumPick({w}, self, w);
    assert {w} - {w} == {};
    SumAdd(g.nodes, t => DepTerm(g, s, w, t), self, t => TermOrSelf(g, s, w, t));
  }

  lemma FlowTermFactor(g: Net, s: Id, v: Id, w: Id)
    requires Tight(g, s, v, w)
    ensures FlowTerm(g, s, v, w) == Scale(Gain(g, s, v, w), Dep(g, s, w) + 1.0)
  {
    SigmaPositive(g, s, w);
    hide Sigma, Dep, Count;
    Regroup(Count(g, 1, v, w), Sigma(g, s, v) / Sigma(g, s, w), 1.0 + Dep(g, s, w));
  }

  lemma PairFlowSum(g: Net, s: Id, v: Id, w: Id, h: Id -> real)
    requires Tight(g, s, v, w)
    requires forall t :: h(t) == PairFlow(g, s, v, w, t)
    ensures Sum(g.nodes, h) == Scale(Gain(g, s, v, w), Sum(g.nodes, t => TermOrSelf(g, s, w, t)))
  {
    var q := Gain(g, s, v, w);
    forall t | t in g.nodes
      ensures h(t) == Scale(q, TermOrSelf(g, s, w, t))
    {
      PairFlowScaled(g, s, v, w, t);
    }
    ScaleAdditive(q);
    SumLinear(g.nodes, t => TermOrSelf(g, s, w, t), x => Scale(q, x), h);
  }

  lemma TightFlow(g: Net, s: Id, v: Id, w: Id, h: Id -> real)
    requires w in g.nodes && Tight(g, s, v, w)
    requires forall t :: h(t) == PairFlow(g, s, v, w, t)
    ensures FlowTerm(g, s, v, w) == Sum(g.nodes, h)
  {
    calc {
      Sum(g.nodes, h);
      { PairFlowSum(g, s, v, w, h); }
      Scale(Gain(g, s, v, w), Sum(g.nodes, t => TermOrSelf(g, s, w, t)));
      { SumOrSelf(g, s, w); }
      Scale(Gain(g, s, v, w), Dep(g, s, w) + 1.0);
      { FlowTermFactor(g, s, v, w); }
      FlowTerm(g, s, v, w);
    }
  }

  lemma FlowByPairs(g: Net, s: Id, v: Id, w: Id, h: Id -> real)
    requires w in g.nodes
    requires forall t :: h(t) == PairFlow(g, s, v, w, t)
    ensures FlowTerm(g, s, v, w) == Sum(g.nodes, h)
  {
    if Tight(g, s, v, w) {
      TightFlow(g, s, v, w, h);
    } else {
      SumConst(g.nodes, h, 0.0);
    }
  }

  lemma Regroup(c: real, q: real, d: real)
    ensures c * q * d == c * (q * d)
  {
  }

  /** The dependency recursion: the dependency on v is the sum, over tight edges v -> w, of
      (sigma v / sigma w) (1 + dependency on w), parallel edges counted. */
  lemma DependencyRecursion(g: Net, s: Id, v: Id)
    requires Closed(g) && v in g.nodes
    ensures Dep(g, s, v) == Sum(g.nodes, w => FlowTerm(g, s, v, w))
  {
    var h := (w, t) => PairFlow(g, s, v, w, t);
    var rows := w => FlowTerm(g, s, v, w);
    var columns := t => DepTerm(g, s, v, t);
    forall t | t in g.nodes
      ensures columns(t) == ColumnSum(g.nodes, h, t)
    {
      var f := w => PairFlow(g, s, v, w, t);
      DepTermByEdges(g, s, v, t, f);
      ColumnSumEq(g.nodes, h, t, f);
    }
    forall w | w in g.nodes
      ensures rows(w) == RowSum(g.nodes, h, w)
    {
      var f := t => PairFlow(g, s, v, w, t);
      FlowByPairs(g, s, v, w, f);
      RowSumEq(g.nodes, h, w, f);
    }
    SumSwap(g.nodes, g.nodes, h, rows, columns);
  }
}
