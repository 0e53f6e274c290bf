/** What the backward phase needs from the forward phase, and why popping nodes farthest first
    makes each accumulated dependency final. */
module Backward {
  import opened Ordering
  import opened Sums
  import opened ShortestPaths
  import opened Dependency
  import opened Brandes

  /** True distances, true path counts, exact predecessor lists, nodes nearest first. */
  ghost predicate Exact(g: Net, s: Id, stack: seq<Id>, m: Maps) {
    && m.pred.Keys == m.sigma.Keys == m.dist.Keys == g.nodes
    && Distinct(stack)
    && (forall u :: u in g.nodes ==> m.dist[u] == Dist(g, s, u))
    && (forall u :: u in stack <==> u in g.nodes && 0 <= Dist(g, s, u))
    && (forall i, j :: 0 <= i < j < |stack| ==> Dist(g, s, stack[i]) <= Dist(g, s, stack[j]))
    && (forall u :: u in g.nodes ==> m.sigma[u] == Sigma(g, s, u))
    && (forall u, w :: u in g.nodes && w in g.nodes ==> multiset(m.pred[w])[u] as real == TightPaths(g, s, u, w))
    && (forall u, w :: w in g.nodes && u in m.pred[w] ==> u in g.nodes)
  }

  /** Number of parallel edges u -> w that end shortest paths from s to w. */
  ghost function TightPaths(g: Net, s: Id, u: Id, w: Id): real {
    if Tight(g, s, u, w) then Count(g, 1, u, w) else 0.0
  }

  /** The forward phase computes exactly the shortest-path structure of its source. */
  lemma ForwardExact(g: Net, adj: Adjacency, s: Id, stack: seq<Id>, m: Maps)
    requires Closed(g) && s in g.nodes && ForwardDone(g, adj, s, stack, m)
    ensures Exact(g, s, stack, m)
  {
    hide Closed, Dist, Sigma, IsAdjacency, Explored;
    forall u | u in g.nodes
      ensures m.dist[u] == Dist(g, s, u) && m.sigma[u] == Sigma(g, s, u)
    {
      DistCorrect(g, adj, s, stack, m, u);
      SigmaCorrect(g, adj, s, stack, m, u);
    }
    forall u, w | u in g.nodes && w in g.nodes
      ensures multiset(m.pred[w])[u] as real == TightPaths(g, s, u, w)
    {
      PredCount(g, adj, s, stack, m, u, w);
    }
  }

  lemma BehindHolds(stack: seq<Id>, i: nat, k: nat)
    requires i < k < |stack|
    ensures stack[k] in Elements(stack[i + 1..])
  {
    assert stack[k] == stack[i + 1..][k - i - 1];
  }

  lemma NothingElsewhere(g: Net, s: Id, stack: seq<Id>, m: Maps, i: nat, x: Id)
    requires Closed(g) && Exact(g, s, stack, m) && i < |stack| && x in g.nodes && x !in Elements(stack[i + 1..])
    ensures FlowTerm(g, s, stack[i], x) == 0.0
  {
    if x in stack {
      var k: nat :| k < |stack| && stack[k] == x;
      if i < k { BehindHolds(stack, i, k); }
    }
  }

  /** Once everything behind w has been popped, nothing will be added to w any more. */
  lemma DependencyFinal(g: Net, s: Id, stack: seq<Id>, m: Maps, i: nat)
    requires Closed(g) && Exact(g, s, stack, m) && i < |stack|
    ensures FlowFrom(g, s, stack[i], stack, i + 1) == Dep(g, s, stack[i])
  {
    var w := stack[i];
    var behind := Elements(stack[i + 1..]);
    var f := x => FlowTerm(g, s, w, x);
    forall x | x in g.nodes - behind ensures f(x) == 0.0 {
      NothingElsewhere(g, s, stack, m, i, x);
    }
    SumSubset(behind, g.nodes, f);
    DependencyRecursion(g, s, w);
  }

  lemma PopSets(stack: seq<Id>, i: nat)
    requires Distinct(stack) && i < |stack|
    ensures Elements(stack[i..]) == Elements(stack[i + 1..]) + {stack[i]}
    ensures stack[i] !in Elements(stack[i + 1..])
  {
    assert stack[i..] == [stack[i]] + stack[i + 1..];
  }

  ghost function FlowFrom(g: Net, s: Id, v: Id, stack: seq<Id>, i: nat): real
    requires i <= |stack|
  {
    Sum(Elements(stack[i..]), x => FlowTerm(g, s, v, x))
  }

  /** delta holds what the nodes from position i on have passed back. */
  ghost predicate Collected(g: Net, s: Id, stack: seq<Id>, i: nat, delta: map<Id, real>) {
    i <= |stack| && delta.Keys == g.nodes && forall v :: v in g.nodes ==> delta[v] == FlowFrom(g, s, v, stack, i)
  }

  /** delta is delta0 plus one Flow per entry of the predecessor list p of w. */
  ghost predicate Accumulated(g: Net, s: Id, w: Id, p: seq<Id>, delta0: map<Id, real>, delta: map<Id, real>) {
    && delta0.Keys == delta.Keys == g.nodes
    && forall v :: v in g.nodes ==> delta[v] == delta0[v] + Times(multiset(p)[v], Flow(g, s, v, w))
  }

  /** n copies of x added up. */
  ghost function Times(n: nat, x: real): real {
    if n == 0 then 0.0 else Times(n - 1, x) + x
  }

  lemma {:induction false} TimesIsScale(n: nat, x: real)
    ensures Times(n, x) == Scale(n as real, x)
  {
    if n > 0 {
      TimesIsScale(n - 1, x);
      OneMore(n - 1, x);
    }
  }

  lemma AccumulateStep(g: Net, s: Id, w: Id, p: seq<Id>, x: Id, delta0: map<Id, real>, delta: map<Id, real>, c: real)
    requires Accumulated(g, s, w, p, delta0, delta) && x in g.nodes && c == Flow(g, s, x, w)
    ensures Accumulated(g, s, w, p + [x], delta0, delta[x := delta[x] + c])
  {
    hide Flow;
    forall v | v in g.nodes && v != x
      ensures multiset(p + [x])[v] == multiset(p)[v]
    {
    }
  }

  lemma PassedTerm(g: Net, s: Id, v: Id, w: Id, n: nat)
    requires n as real == TightPaths(g, s, v, w)
    ensures Times(n, Flow(g, s, v, w)) == FlowTerm(g, s, v, w)
  {
    TimesIsScale(n, Flow(g, s, v, w));
  }

  lemma FlowFromStep(g: Net, s: Id, stack: seq<Id>, i: nat, v: Id)
    requires Distinct(stack) && i < |stack|
    ensures FlowFrom(g, s, v, stack, i) == FlowFrom(g, s, v, stack, i + 1) + FlowTerm(g, s, v, stack[i])
  {
    PopSets(stack, i);
    SumPick(Elements(stack[i..]), x => FlowTerm(g, s, v, x), stack[i]);
    assert Elements(stack[i..]) - {stack[i]} == Elements(stack[i + 1..]);
  }

  /** After the whole predecessor list of w the collection reaches one position further down. */
  lemma CollectStep(g: Net, s: Id, stack: seq<Id>, m: Maps, i: nat, w: Id, p: seq<Id>, delta0: map<Id, real>, delta: map<Id, real>)
    requires Exact(g, s, stack, m) && i < |stack| && w == stack[i] && w in g.nodes && p == m.pred[w]
    requires Collected(g, s, stack, i + 1, delta0)
    requires Accumulated(g, s, w, p, delta0, delta)
    ensures Collected(g, s, stack, i, delta)
  {
    forall v | v in g.nodes
      ensures delta[v] == FlowFrom(g, s, v, stack, i)
    {
      FlowFromStep(g, s, stack, i, v);
      PassedTerm(g, s, v, w, multiset(p)[v]);
    }
  }

  /** A predecessor entry: another node, and w has at least one shortest path. */
  lemma OneEntry(g: Net, s: Id, stack: seq<Id>, m: Maps, w: Id, v: Id)
    requires Exact(g, s, stack, m) && w in g.nodes && v in m.pred[w]
    ensures v in g.nodes && v != w && m.sigma[w] == Sigma(g, s, w) != 0.0 && m.sigma[v] == Sigma(g, s, v)
  {
    assert multiset(m.pred[w])[v] > 0;
    assert TightPaths(g, s, v, w) > 0.0;
    SigmaPositive(g, s, w);
  }

  /** Everything the accumulation of one predecessor list of w reads is what it should be. */
  ghost predicate EntriesReady(g: Net, s: Id, w: Id, p: seq<Id>, sigma: map<Id, real>) {
    && w in g.nodes && sigma.Keys == g.nodes
    && forall v :: v in p ==>
         v in g.nodes && v != w && sigma[w] == Sigma(g, s, w) != 0.0 && sigma[v] == Sigma(g, s, v)
  }

  lemma EntriesAreReady(g: Net, s: Id, stack: seq<Id>, m: Maps, w: Id)
    requires Exact(g, s, stack, m) && w in g.nodes
    ensures EntriesReady(g, s, w, m.pred[w], m.sigma)
  {
    forall v | v in m.pred[w]
      ensures v in g.nodes && v != w && m.sigma[w] == Sigma(g, s, w) != 0.0 && m.sigma[v] == Sigma(g, s, v)
    {
      OneEntry(g, s, stack, m, w, v);
    }
  }

  lemma PrefixStep(p: seq<Id>, j: nat)
    requires j < |p|
    ensures p[..j + 1] == p[..j] + [p[j]] && p[j] in p
  {
  }

  ghost function OwnShare(g: Net, s: Id, v: Id): real {
    if v == s then 0.0 else SourceShare(g, s, v)
  }

  /** The nodes from position i on have received their share for source s. */
  ghost predicate Credited(g: Net, s: Id, stack: seq<Id>, i: nat, before: map<Id, real>, after: map<Id, real>) {
    && i <= |stack| && before.Keys == after.Keys == g.nodes
    && forall v :: v in g.nodes ==> after[v] == before[v] + if v in stack[i..] then OwnShare(g, s, v) else 0.0
  }

  lemma CreditStep(g: Net, s: Id, stack: seq<Id>, i: nat, w: Id, before: map<Id, real>, mid: map<Id, real>, after: map<Id, real>, x: real)
    requires i < |stack| && Distinct(stack) && s in g.nodes && w == stack[i] && w in g.nodes
    requires Credited(g, s, stack, i + 1, before, mid) && x == Dep(g, s, w)
    requires after.Keys == g.nodes && forall v :: v in g.nodes ==> after[v] == if v == w && w != s then mid[v] + x else mid[v]
    ensures Credited(g, s, stack, i, before, after)
  {
    PopSets(stack, i);
    if w != s { DepIsSourceShare(g, s, w); }
    forall v | v in g.nodes
      ensures after[v] == before[v] + if v in stack[i..] then OwnShare(g, s, v) else 0.0
    {
      assert v in stack[i..] <==> v in stack[i + 1..] || v == w;
      assert w !in stack[i + 1..];
    }
  }

  /** Nodes that were never reached have no share to receive. */
  lemma CreditAll(g: Net, s: Id, stack: seq<Id>, m: Maps, before: map<Id, real>, after: map<Id, real>)
    requires s in g.nodes && Exact(g, s, stack, m) && Credited(g, s, stack, 0, before, after)
    ensures forall v :: v in g.nodes ==> after[v] == before[v] + OwnShare(g, s, v)
  {
    forall v | v in g.nodes
      ensures after[v] == before[v] + OwnShare(g, s, v)
    {
      if v !in stack && v != s { UnreachedShare(g, s, v); }
    }
  }

  lemma UnreachedShare(g: Net, s: Id, v: Id)
    requires s in g.nodes && v in g.nodes && s != v && Dist(g, s, v) < 0
    ensures SourceShare(g, s, v) == 0.0
  {
    DepIsSourceShare(g, s, v);
    SumConst(g.nodes, t => DepTerm(g, s, v, t), 0.0);
  }

  lemma BeforePop(g: Net, s: Id, stack: seq<Id>, m: Maps, i: nat, delta: map<Id, real>)
    requires Closed(g) && Exact(g, s, stack, m) && i < |stack| && Collected(g, s, stack, i + 1, delta)
    ensures stack[i] in g.nodes && delta[stack[i]] == Dep(g, s, stack[i])
    ensures EntriesReady(g, s, stack[i], m.pred[stack[i]], m.sigma)
  {
    DependencyFinal(g, s, stack, m, i);
    EntriesAreReady(g, s, stack, m, stack[i]);
  }
}
