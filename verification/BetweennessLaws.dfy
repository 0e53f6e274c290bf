/** Global laws of betweenness: a bound for every node and a conservation law for the graph. */
module BetweennessLaws {
  import opened Sums
  import opened ShortestPaths
  import opened Dependency

  lemma PairShareBounds(g: Net, s: Id, t: Id, v: Id)
    ensures 0.0 <= PairShare(g, s, t, v) <= 1.0
  {
    if 0 <= Dist(g, s, t) {
      SigmaPositive(g, s, t);
      Smaller(Through(g, s, t, v), Shortest(g, s, t));
      FractionBounds(|Through(g, s, t, v)| as real, Sigma(g, s, t));
    }
  }

  lemma {:induction false} Smaller<T>(A: set<T>, B: set<T>)
    requires A <= B
    ensures |A| <= |B|
  {
    assert A + (B - A) == B;
  }

  lemma FractionBounds(a: real, b: real)
    requires 0.0 <= a <= b && 0.0 < b
    ensures 0.0 <= a / b <= 1.0
  {
  }

  lemma {:induction false} SumBounds<T>(S: set<T>, f: T -> real, top: real)
    requires forall x :: x in S ==> 0.0 <= f(x) <= top
    ensures 0.0 <= Sum(S, f) <= Scale(|S| as real, top)
  {
    SumLeq(S, x => 0.0, f);
    SumLeq(S, f, x => top);
    SumConst(S, x => 0.0, 0.0);
    SumConst(S, x => top, top);
  }

  lemma SourceShareBounds(g: Net, s: Id, v: Id)
    requires s in g.nodes && v in g.nodes && s != v
    ensures 0.0 <= SourceShare(g, s, v) <= (|g.nodes| - 2) as real
  {
    var f := t => PairShare(g, s, t, v);
    forall t ensures 0.0 <= f(t) <= 1.0 { PairShareBounds(g, s, t, v); }
    SumBounds(g.nodes - {s} - {v}, f, 1.0);
    assert |g.nodes - {s}| == |g.nodes| - 1;
  }

  /** No node can carry more than the (n-1)(n-2) ordered pairs of other nodes. */
  lemma BetweennessBounds(g: Net, v: Id)
    requires v in g.nodes
    ensures 0.0 <= Betweenness(g, v) <= Scale((|g.nodes| - 1) as real, (|g.nodes| - 2) as real)
  {
    var n := |g.nodes|;
    var f := s => SourceShare(g, s, v);
    forall s | s in g.nodes - {v}
      ensures 0.0 <= f(s) <= (n - 2) as real
    {
      SourceShareBounds(g, s, v);
    }
    assert |g.nodes - {v}| == n - 1;
    SumBounds(g.nodes - {v}, f, (n - 2) as real);
  }

  lemma {:induction false} ImageSize(n: nat, f: nat -> Id, S: set<Id>)
    requires forall x :: x in S <==> exists i: nat :: 0 < i <= n && f(i) == x
    requires forall i: nat, j: nat :: 0 < i < j <= n ==> f(i) != f(j)
    ensures |S| == n
  {
    if n == 0 {
      assert S == {};
    } else {
      assert f(n) in S;
      ImageSize(n - 1, f, S - {f(n)});
    }
  }

  /** A shortest path has length - 1 distinct inner nodes, all different from its ends. */
  lemma InnerNodes(g: Net, s: Id, t: Id, p: seq<nat>)
    requires Closed(g) && s in g.nodes && s != t && p in Shortest(g, s, t)
    ensures 1 <= |p|
    ensures |set v | v in g.nodes - {s} - {t} && Interior(g, s, p, v)| == |p| - 1
  {
    DistPositive(g, s, t);
    var f := (i: nat) => MidNode(g, s, p, i);
    var S := set v | v in g.nodes - {s} - {t} && Interior(g, s, p, v);
    forall i: nat | i <= |p|
      ensures Dist(g, s, f(i)) == i && f(i) in g.nodes
    {
      InteriorPosition(g, s, t, f(i), p, i);
      MidInside(g, i, s, t, p);
    }
    DistSelf(g, s);
    forall i: nat | 0 < i <= |p| - 1
      ensures f(i) in S
    {
      assert Dist(g, s, f(i)) == i;
      assert Interior(g, s, p, f(i));
    }
    forall v | v in S
      ensures exists i: nat :: 0 < i <= |p| - 1 && f(i) == v
    {
      var i :| 0 < i < |p| && MidNode(g, s, p, i) == v;
      assert f(i) == v;
    }
    ImageSize(|p| - 1, f, S);
  }

  /** What a reachable pair hands out in total: one share per inner position. */
  ghost function Excess(g: Net, s: Id, t: Id): real {
    if s != t && 0 <= Dist(g, s, t) then (Dist(g, s, t) - 1) as real else 0.0
  }

  ghost function TripleShare(g: Net, s: Id, t: Id, v: Id): real {
    if s != t && v != s && v != t then PairShare(g, s, t, v) else 0.0
  }

  ghost function ThroughSize(g: Net, s: Id, t: Id, v: Id): real {
    |Through(g, s, t, v)| as real
  }

  lemma InnerRow(g: Net, s: Id, t: Id, p: seq<nat>, r: (seq<nat>, Id) -> bool)
    requires Closed(g) && s in g.nodes && s != t && p in Shortest(g, s, t)
    requires forall q, v :: r(q, v) <==> Interior(g, s, q, v)
    ensures |Row(g.nodes - {s} - {t}, r, p)| as real == Excess(g, s, t)
  {
    InnerNodes(g, s, t, p);
    assert Row(g.nodes - {s} - {t}, r, p) == set v | v in g.nodes - {s} - {t} && Interior(g, s, p, v);
  }

  lemma ThroughRows(g: Net, s: Id, t: Id, r: (seq<nat>, Id) -> bool, rows: seq<nat> -> real)
    requires Closed(g) && s in g.nodes && s != t
    requires forall q, v :: r(q, v) <==> Interior(g, s, q, v)
    requires forall p :: rows(p) == |Row(g.nodes - {s} - {t}, r, p)| as real
    ensures Sum(g.nodes - {s} - {t}, v => ThroughSize(g, s, t, v)) == Sum(Shortest(g, s, t), rows)
    ensures forall p :: p in Shortest(g, s, t) ==> rows(p) == Excess(g, s, t)
  {
    var P, V := Shortest(g, s, t), g.nodes - {s} - {t};
    var columns := v => ThroughSize(g, s, t, v);
    forall v | v in V
      ensures columns(v) == |Column(P, r, v)| as real
    {
      assert Column(P, r, v) == Through(g, s, t, v);
    }
    DoubleCount(P, V, r, rows, columns);
    forall p | p in P
      ensures rows(p) == Excess(g, s, t)
    {
      InnerRow(g, s, t, p, r);
    }
  }

  /** Counting the pairs (path, inner node) by node or by path. */
  lemma ThroughTotal(g: Net, s: Id, t: Id)
    requires Closed(g) && s in g.nodes && s != t
    ensures Sum(g.nodes - {s} - {t}, v => ThroughSize(g, s, t, v))
         == Scale(Sigma(g, s, t), Excess(g, s, t))
  {
    var r := (p, v) => Interior(g, s, p, v);
    var rows := p => |Row(g.nodes - {s} - {t}, r, p)| as real;
    ThroughRows(g, s, t, r, rows);
    calc {
      Sum(g.nodes - {s} - {t}, v => ThroughSize(g, s, t, v));
      Sum(Shortest(g, s, t), rows);
      { SumConst(Shortest(g, s, t), rows, Excess(g, s, t)); }
      Scale(|Shortest(g, s, t)| as real, Excess(g, s, t));
      Scale(Sigma(g, s, t), Excess(g, s, t));
    }
  }

  lemma PairTotalReachable(g: Net, s: Id, t: Id, f: Id -> real)
    requires Closed(g) && s in g.nodes && s != t && 0 <= Dist(g, s, t)
    requires forall v :: v in g.nodes - {s} - {t} ==> f(v) == PairShare(g, s, t, v)
    ensures Sum(g.nodes - {s} - {t}, f) == Excess(g, s, t)
  {
    var c := Sigma(g, s, t);
    SigmaPositive(g, s, t);
    calc {
      Sum(g.nodes - {s} - {t}, f);
      { OverAdditive(c); SumLinear(g.nodes - {s} - {t}, v => ThroughSize(g, s, t, v), x => Over(x, c), f); }
      Over(Sum(g.nodes - {s} - {t}, v => ThroughSize(g, s, t, v)), c);
      { ThroughTotal(g, s, t); }
      Over(Scale(c, Excess(g, s, t)), c);
      { Cancel(c, Excess(g, s, t)); }
      Excess(g, s, t);
    }
  }

  lemma OverAdditive(c: real)
    ensures Additive(x => Over(x, c))
  {
  }

  lemma PairTotal(g: Net, s: Id, t: Id)
    requires Closed(g) && s in g.nodes && t in g.nodes
    ensures Sum(g.nodes, v => TripleShare(g, s, t, v)) == Excess(g, s, t)
  {
    var f := v => TripleShare(g, s, t, v);
    if s != t && 0 <= Dist(g, s, t) {
      SumSubset(g.nodes - {s} - {t}, g.nodes, f);
      PairTotalReachable(g, s, t, f);
    } else {
      SumConst(g.nodes, f, 0.0);
    }
  }

  ghost function Over(x: real, c: real): real {
    if c == 0.0 then 0.0 else x / c
  }

  lemma Cancel(c: real, e: real)
    requires c != 0.0
    ensures Over(Scale(c, e), c) == e
  {
  }

  ghost function ShareRow(g: Net, s: Id, v: Id): real {
    Sum(g.nodes, t => TripleShare(g, s, t, v))
  }

  ghost function ExcessRow(g: Net, s: Id): real {
    Sum(g.nodes, t => Excess(g, s, t))
  }

  lemma BetweennessByTriples(g: Net, v: Id)
    requires v in g.nodes
    ensures Betweenness(g, v) == Sum(g.nodes, s => ShareRow(g, s, v))
  {
    var f := s => ShareRow(g, s, v);
    forall s | s in g.nodes
      ensures f(s) == if s == v then 0.0 else SourceShare(g, s, v)
    {
      var h := t => TripleShare(g, s, t, v);
      if s == v {
        SumConst(g.nodes, h, 0.0);
      } else {
        SumSubset(g.nodes - {s} - {v}, g.nodes, h);
        SumEq(g.nodes - {s} - {v}, h, t => PairShare(g, s, t, v));
      }
    }
    SumSubset(g.nodes - {v}, g.nodes, f);
    SumEq(g.nodes - {v}, f, s => SourceShare(g, s, v));
  }

  lemma RowTotal(g: Net, s: Id)
    requires Closed(g) && s in g.nodes
    ensures Sum(g.nodes, v => ShareRow(g, s, v)) == ExcessRow(g, s)
  {
    var h := (v, t) => TripleShare(g, s, t, v);
    var rows := v => ShareRow(g, s, v);
    var columns := t => Excess(g, s, t);
    forall v | v in g.nodes
      ensures rows(v) == RowSum(g.nodes, h, v)
    {
      RowSumEq(g.nodes, h, v, t => TripleShare(g, s, t, v));
    }
    forall t | t in g.nodes
      ensures columns(t) == ColumnSum(g.nodes, h, t)
    {
      PairTotal(g, s, t);
      ColumnSumEq(g.nodes, h, t, v => TripleShare(g, s, t, v));
    }
    SumSwap(g.nodes, g.nodes, h, rows, columns);
  }

  /** Conservation: the betweenness of all nodes adds up to d(s,t) - 1 over all ordered pairs of
      different nodes with a path. */
  lemma Conservation(g: Net)
    requires Closed(g)
    ensures Sum(g.nodes, v => Betweenness(g, v)) == Sum(g.nodes, s => ExcessRow(g, s))
  {
    var h := (v, s) => ShareRow(g, s, v);
    var rows := v => Betweenness(g, v);
    var columns := s => ExcessRow(g, s);
    forall v | v in g.nodes
      ensures rows(v) == RowSum(g.nodes, h, v)
    {
      BetweennessByTriples(g, v);
      RowSumEq(g.nodes, h, v, s => ShareRow(g, s, v));
    }
    forall s | s in g.nodes
      ensures columns(s) == ColumnSum(g.nodes, h, s)
    {
      RowTotal(g, s);
      ColumnSumEq(g.nodes, h, s, v => ShareRow(g, s, v));
    }
    SumSwap(g.nodes, g.nodes, h, rows, columns);
  }
}
