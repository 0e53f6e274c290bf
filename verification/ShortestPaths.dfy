/** Paths of a directed multigraph as sequences of edge numbers, so parallel edges give distinct
    paths. Distance, shortest paths and path counts are defined here without any algorithm. */
module ShortestPaths {
  import opened Sums

  type Id = string

  datatype Edge = Edge(from: Id, to: Id)

  datatype Net = Net(nodes: set<Id>, edges: seq<Edge>)

  /** Edges that leave a node of the graph end in a node of the graph. */
  ghost predicate Closed(g: Net) {
    forall e :: 0 <= e < |g.edges| && g.edges[e].from in g.nodes ==> g.edges[e].to in g.nodes
  }

  ghost predicate IsPath(g: Net, s: Id, t: Id, p: seq<nat>)
    decreases |p|
  {
    if p == [] then s == t else
      var e := p[|p| - 1];
      e < |g.edges| && g.edges[e].to == t && IsPath(g, s, g.edges[e].from, p[..|p| - 1])
  }

  /** The node reached after the first i edges of p. */
  ghost function NodeAt(g: Net, s: Id, p: seq<nat>, i: nat): Id
    requires i <= |p|
    requires forall j :: 0 <= j < |p| ==> p[j] < |g.edges|
  {
    if i == 0 then s else g.edges[p[i - 1]].to
  }

  lemma {:induction false} PathEdges(g: Net, s: Id, t: Id, p: seq<nat>)
    requires IsPath(g, s, t, p)
    ensures forall j :: 0 <= j < |p| ==> p[j] < |g.edges|
    ensures NodeAt(g, s, p, |p|) == t
    decreases |p|
  {
    if p != [] {
      var q := p[..|p| - 1];
      PathEdges(g, s, g.edges[p[|p| - 1]].from, q);
      forall j | 0 <= j < |p|
        ensures p[j] < |g.edges|
      {
        if j < |q| { assert q[j] == p[j]; }
      }
    }
  }

  lemma {:induction false} PathJoin(g: Net, s: Id, v: Id, t: Id, p: seq<nat>, q: seq<nat>)
    requires IsPath(g, s, v, p) && IsPath(g, v, t, q)
    ensures IsPath(g, s, t, p + q)
    decreases |q|
  {
    if q == [] {
      assert p + q == p;
    } else {
      var e := q[|q| - 1];
      PathJoin(g, s, v, g.edges[e].from, p, q[..|q| - 1]);
      assert (p + q)[..|p + q| - 1] == p + q[..|q| - 1];
    }
  }

  lemma {:induction false} PathSplit(g: Net, s: Id, t: Id, r: seq<nat>, i: nat)
    requires IsPath(g, s, t, r) && i <= |r|
    ensures forall j :: 0 <= j < |r| ==> r[j] < |g.edges|
    ensures IsPath(g, s, NodeAt(g, s, r, i), r[..i]) && IsPath(g, NodeAt(g, s, r, i), t, r[i..])
    decreases |r|
  {
    PathEdges(g, s, t, r);
    if i == |r| {
      assert r[..i] == r && r[i..] == [];
    } else {
      var e := r[|r| - 1];
      var q := r[..|r| - 1];
      PathSplit(g, s, g.edges[e].from, q, i);
      assert q[..i] == r[..i];
      assert r[i..][..|r[i..]| - 1] == q[i..];
      assert NodeAt(g, s, q, i) == NodeAt(g, s, r, i);
    }
  }

  lemma {:induction false} PathStaysInside(g: Net, s: Id, t: Id, p: seq<nat>)
    requires Closed(g) && s in g.nodes && IsPath(g, s, t, p)
    ensures t in g.nodes
    decreases |p|
  {
    if p != [] {
      PathStaysInside(g, s, g.edges[p[|p| - 1]].from, p[..|p| - 1]);
    }
  }

  /** All sequences of k edge numbers below n. */
  ghost function AllSeqs(n: nat, k: nat): (r: set<seq<nat>>)
    ensures forall p :: p in r <==> |p| == k && forall j :: 0 <= j < k ==> p[j] < n
  {
    if k == 0 then {[]} else
      var shorter := AllSeqs(n, k - 1);
      var r := set p, e: nat | p in shorter && e < n :: p + [e];
      assert forall p :: |p| == k && (forall j :: 0 <= j < k ==> p[j] < n) ==> p in r by {
        forall p: seq<nat> | |p| == k && forall j :: 0 <= j < k ==> p[j] < n ensures p in r {
          assert p == p[..k - 1] + [p[k - 1]];
          assert p[..k - 1] in shorter;
        }
      }
      r
  }

  ghost predicate IsPathSet(g: Net, k: nat, s: Id, t: Id, r: set<seq<nat>>) {
    forall p :: p in r <==> |p| == k && IsPath(g, s, t, p)
  }

  lemma PathsFinite(g: Net, k: nat, s: Id, t: Id)
    ensures exists r :: IsPathSet(g, k, s, t, r)
  {
    var r := set p | p in AllSeqs(|g.edges|, k) && IsPath(g, s, t, p);
    forall p | |p| == k && IsPath(g, s, t, p) ensures p in r {
      PathEdges(g, s, t, p);
    }
    assert IsPathSet(g, k, s, t, r);
  }

  /** The set of all paths from s to t with exactly k edges. */
  ghost function Paths(g: Net, k: nat, s: Id, t: Id): (r: set<seq<nat>>)
    ensures IsPathSet(g, k, s, t, r)
  {
    PathsFinite(g, k, s, t);
    var r :| IsPathSet(g, k, s, t, r);
    r
  }

  ghost predicate Reachable(g: Net, s: Id, t: Id) {
    exists p :: IsPath(g, s, t, p)
  }

  ghost predicate IsDist(g: Net, s: Id, t: Id, d: nat) {
    Paths(g, d, s, t) != {} && forall k: nat :: k < d ==> Paths(g, k, s, t) == {}
  }

  lemma {:induction false} DistExists(g: Net, s: Id, t: Id, p: seq<nat>)
    requires IsPath(g, s, t, p)
    ensures exists d: nat :: d <= |p| && IsDist(g, s, t, d)
    decreases |p|
  {
    if k: nat :| k < |p| && Paths(g, k, s, t) != {} {
      var q :| q in Paths(g, k, s, t);
      DistExists(g, s, t, q);
    } else {
      assert p in Paths(g, |p|, s, t);
      assert IsDist(g, s, t, |p|);
    }
  }

  /** The length of a shortest path, or -1 when there is no path. */
  ghost function Dist(g: Net, s: Id, t: Id): (d: int)
    ensures -1 <= d
    ensures d == -1 <==> !Reachable(g, s, t)
    ensures 0 <= d ==> IsDist(g, s, t, d)
  {
    if Reachable(g, s, t) then
      var p :| IsPath(g, s, t, p);
      DistExists(g, s, t, p);
      var d: nat :| d <= |p| && IsDist(g, s, t, d);
      d
    else -1
  }

  lemma DistMinimal(g: Net, s: Id, t: Id, p: seq<nat>)
    requires IsPath(g, s, t, p)
    ensures 0 <= Dist(g, s, t) <= |p|
  {
    assert p in Paths(g, |p|, s, t);
  }

  lemma DistSelf(g: Net, s: Id)
    ensures Dist(g, s, s) == 0
    ensures Shortest(g, s, s) == {[]}
  {
    assert IsPath(g, s, s, []);
    DistMinimal(g, s, s, []);
  }

  lemma DistZero(g: Net, s: Id, t: Id)
    requires Dist(g, s, t) == 0
    ensures s == t
  {
    var p :| p in Paths(g, 0, s, t);
  }

  lemma Triangle(g: Net, s: Id, v: Id, t: Id)
    requires 0 <= Dist(g, s, v) && 0 <= Dist(g, v, t)
    ensures 0 <= Dist(g, s, t) <= Dist(g, s, v) + Dist(g, v, t)
  {
    var p :| p in Paths(g, Dist(g, s, v), s, v);
    var q :| q in Paths(g, Dist(g, v, t), v, t);
    PathJoin(g, s, v, t, p, q);
    DistMinimal(g, s, t, p + q);
  }

  /** The set of shortest paths from s to t. */
  ghost function Shortest(g: Net, s: Id, t: Id): set<seq<nat>> {
    if Dist(g, s, t) < 0 then {} else Paths(g, Dist(g, s, t), s, t)
  }

  /** Number of paths with k edges. */
  ghost function Count(g: Net, k: nat, s: Id, t: Id): real {
    |Paths(g, k, s, t)| as real
  }

  /** Number of shortest paths. */
  ghost function Sigma(g: Net, s: Id, t: Id): real {
    |Shortest(g, s, t)| as real
  }

  lemma SigmaPositive(g: Net, s: Id, t: Id)
    ensures 0.0 <= Sigma(g, s, t)
    ensures 0 <= Dist(g, s, t) <==> 1.0 <= Sigma(g, s, t)
    ensures 0 <= Dist(g, s, t) ==> Sigma(g, s, t) == Count(g, Dist(g, s, t), s, t)
  {
  }

  ghost function Joined(A: set<seq<nat>>, B: set<seq<nat>>): set<seq<nat>> {
    set a, b | a in A && b in B :: a + b
  }

  lemma PrefixesDiffer(a: seq<nat>, b: seq<nat>, c: seq<nat>, d: seq<nat>)
    requires |a| == |c| && a + b == c + d
    ensures a == c && b == d
  {
    assert a == (a + b)[..|a|] == (c + d)[..|a|] == c;
    assert b == (a + b)[|a|..] == (c + d)[|a|..] == d;
  }

  ghost function Prefixed(a: seq<nat>, B: set<seq<nat>>): set<seq<nat>> {
    set b | b in B :: a + b
  }

  lemma {:induction false} PrefixedSize(a: seq<nat>, B: set<seq<nat>>)
    ensures |Prefixed(a, B)| == |B|
    decreases |B|
  {
    if B != {} {
      var c :| c in B;
      var rest := Prefixed(a, B - {c});
      PrefixedSize(a, B - {c});
      assert Prefixed(a, B) == rest + {a + c};
      assert a + c !in rest by {
        forall b | b in B - {c} ensures a + b != a + c {
          if a + b == a + c { PrefixesDiffer(a, b, a, c); }
        }
      }
    }
  }

  /** Paths of a fixed first length join with any paths without collisions. */
  lemma {:induction false} JoinedSize(A: set<seq<nat>>, B: set<seq<nat>>, k: nat)
    requires forall a :: a in A ==> |a| == k
    ensures |Joined(A, B)| == |A| * |B|
    decreases |A|
  {
    if A == {} {
      assert Joined(A, B) == {};
    } else {
      var a :| a in A;
      var rest := A - {a};
      JoinedSize(rest, B, k);
      PrefixedSize(a, B);
      JoinedStep(A, B, k, a);
      assert |A| == |rest| + 1;
      Grow(|rest|, |B|);
    }
  }

  lemma JoinedStep(A: set<seq<nat>>, B: set<seq<nat>>, k: nat, a: seq<nat>)
    requires forall x :: x in A ==> |x| == k
    requires a in A
    ensures |Joined(A, B)| == |Joined(A - {a}, B)| + |Prefixed(a, B)|
  {
    var rest := A - {a};
    forall p | p in Joined(A, B)
      ensures p in Joined(rest, B) + Prefixed(a, B)
    {
      var x, y :| x in A && y in B && p == x + y;
    }
    assert Joined(A, B) == Joined(rest, B) + Prefixed(a, B);
    forall x, y, b | x in rest && y in B && b in B
      ensures x + y != a + b
    {
      if x + y == a + b { PrefixesDiffer(x, y, a, b); }
    }
    assert Joined(rest, B) !! Prefixed(a, B);
  }

  lemma Grow(n: nat, m: nat)
    ensures (n + 1) * m == n * m + m
  {
  }

  /** The paths of length i + j whose node after i edges is v. */
  ghost function Via(g: Net, i: nat, j: nat, s: Id, v: Id, t: Id): set<seq<nat>> {
    set r | r in Paths(g, i + j, s, t) && MidNode(g, s, r, i) == v
  }

  ghost function MidNode(g: Net, s: Id, r: seq<nat>, i: nat): Id {
    if i <= |r| && forall j :: 0 <= j < |r| ==> r[j] < |g.edges| then NodeAt(g, s, r, i) else s
  }

  lemma ViaSplits(g: Net, i: nat, j: nat, s: Id, v: Id, t: Id, r: seq<nat>)
    requires r in Via(g, i, j, s, v, t)
    ensures r in Joined(Paths(g, i, s, v), Paths(g, j, v, t))
  {
    PathSplit(g, s, t, r, i);
    assert r == r[..i] + r[i..];
    assert r[..i] in Paths(g, i, s, v) && r[i..] in Paths(g, j, v, t);
  }

  lemma ViaJoins(g: Net, i: nat, j: nat, s: Id, v: Id, t: Id, a: seq<nat>, b: seq<nat>)
    requires a in Paths(g, i, s, v) && b in Paths(g, j, v, t)
    ensures a + b in Via(g, i, j, s, v, t)
  {
    var r := a + b;
    PathJoin(g, s, v, t, a, b);
    PathEdges(g, s, v, a);
    PathEdges(g, s, t, r);
    assert r in Paths(g, i + j, s, t);
    assert NodeAt(g, s, r, i) == NodeAt(g, s, a, i) == v;
    assert MidNode(g, s, r, i) == v;
  }

  lemma ViaIsJoined(g: Net, i: nat, j: nat, s: Id, v: Id, t: Id)
    ensures Via(g, i, j, s, v, t) == Joined(Paths(g, i, s, v), Paths(g, j, v, t))
  {
    forall r | r in Via(g, i, j, s, v, t)
      ensures r in Joined(Paths(g, i, s, v), Paths(g, j, v, t))
    {
      ViaSplits(g, i, j, s, v, t, r);
    }
    forall a, b | a in Paths(g, i, s, v) && b in Paths(g, j, v, t)
      ensures a + b in Via(g, i, j, s, v, t)
    {
      ViaJoins(g, i, j, s, v, t, a, b);
    }
  }

  lemma ViaCount(g: Net, i: nat, j: nat, s: Id, v: Id, t: Id)
    ensures |Via(g, i, j, s, v, t)| as real == Count(g, i, s, v) * Count(g, j, v, t)
  {
    hide Via, Paths;
    ViaIsJoined(g, i, j, s, v, t);
    JoinedSize(Paths(g, i, s, v), Paths(g, j, v, t), i);
    RealProduct(|Paths(g, i, s, v)|, |Paths(g, j, v, t)|);
  }

  lemma RealProduct(m: nat, n: nat)
    ensures (m * n) as real == m as real * n as real
  {
  }

  lemma MidInside(g: Net, i: nat, s: Id, t: Id, r: seq<nat>)
    requires Closed(g) && s in g.nodes && IsPath(g, s, t, r) && i <= |r|
    ensures MidNode(g, s, r, i) in g.nodes
  {
    PathSplit(g, s, t, r, i);
    PathStaysInside(g, s, NodeAt(g, s, r, i), r[..i]);
  }

  ghost function MidTerm(g: Net, i: nat, j: nat, s: Id, t: Id, v: Id): real {
    Count(g, i, s, v) * Count(g, j, v, t)
  }

  lemma AllMidsInside(g: Net, i: nat, j: nat, s: Id, t: Id)
    requires Closed(g) && s in g.nodes
    ensures forall r :: r in Paths(g, i + j, s, t) ==> MidNode(g, s, r, i) in g.nodes
  {
    forall r | r in Paths(g, i + j, s, t)
      ensures MidNode(g, s, r, i) in g.nodes
    {
      MidInside(g, i, s, t, r);
    }
  }

  /** Counting paths by their node after i edges. */
  lemma CountSplit(g: Net, i: nat, j: nat, s: Id, t: Id)
    requires Closed(g) && s in g.nodes
    ensures Count(g, i + j, s, t) == Sum(g.nodes, v => MidTerm(g, i, j, s, t, v))
  {
    var all := Paths(g, i + j, s, t);
    var key := r => MidNode(g, s, r, i);
    AllMidsInside(g, i, j, s, t);
    var size := v => MidTerm(g, i, j, s, t, v);
    forall v | v in g.nodes
      ensures |Fibre(all, key, v)| as real == size(v)
    {
      assert Fibre(all, key, v) == Via(g, i, j, s, v, t);
      ViaCount(g, i, j, s, v, t);
    }
    CardByFibres(all, g.nodes, key, size);
  }
}
