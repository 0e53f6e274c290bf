/** The Merkle root with the odd last node paired with itself. */
module Merkle {
  import opened Bytes

  /** What is hashed for the i-th node of the next level. */
  function PairAt(level: seq<string>, i: nat): string
    requires 2 * i < |level|
  {
    Joined(level[2 * i], if 2 * i + 1 < |level| then level[2 * i + 1] else level[2 * i])
  }

  function Joined(left: string, right: string): string {
    left + right
  }

  ghost predicate AllDigests(level: seq<string>) {
    forall i :: 0 <= i < |level| ==> IsHexDigest(level[i])
  }

  function NextLevel(h: Hash, level: seq<string>): (r: seq<string>)
    ensures |r| == (|level| + 1) / 2
    ensures forall i :: 0 <= i < |r| ==> r[i] == h(PairAt(level, i))
  {
    seq<string>((|level| + 1) / 2, i requires 0 <= i < (|level| + 1) / 2 => h(PairAt(level, i)))
  }

  function Root(h: Hash, level: seq<string>): string
    decreases |level|
  {
    if level == [] then Zeros(64)
    else if |level| == 1 then level[0]
    else Root(h, NextLevel(h, level))
  }

  method ComputeMerkleRoot(h: Hash, leaves: seq<string>) returns (root: string)
    ensures root == Root(h, leaves)
  {
    if leaves == [] {
      return Zeros(64);
    }
    if |leaves| == 1 {
      return leaves[0];
    }
    var current := leaves;
    while |current| > 1
      invariant |current| >= 1 && Root(h, current) == Root(h, leaves)
      decreases |current|
    {
      var next: seq<string> := [];
      var len := |current|;
      var i := 0;
      while i < len
        invariant i == 2 * |next| && |next| <= (len + 1) / 2
        invariant next == NextLevel(h, current)[..|next|]
      {
        var left := current[i];
        var right := if i + 1 < len then current[i + 1] else current[i];
        next := next + [h(Joined(left, right))];
        i := i + 2;
      }
      assert next == NextLevel(h, current);
      current := next;
    }
    root := current[0];
  }

  /** Every string hashed while computing the root. */
  ghost function TreeInputs(h: Hash, level: seq<string>): set<string>
    decreases |level|
  {
    if |level| <= 1 then {} else
      (set i | 0 <= i < (|level| + 1) / 2 :: PairAt(level, i)) + TreeInputs(h, NextLevel(h, level))
  }

  lemma SameNextLevel(h: Hash, a: seq<string>, b: seq<string>)
    requires |a| == |b| && AllDigests(a) && AllDigests(b) && NextLevel(h, a) == NextLevel(h, b)
    requires forall i :: 0 <= i < (|a| + 1) / 2 && h(PairAt(a, i)) == h(PairAt(b, i)) ==> PairAt(a, i) == PairAt(b, i)
    ensures a == b
  {
    forall j | 0 <= j < |a|
      ensures a[j] == b[j]
    {
      var i := j / 2;
      assert NextLevel(h, a)[i] == NextLevel(h, b)[i];
      assert PairAt(a, i) == PairAt(b, i);
      SplitEqual(a[2 * i], if 2 * i + 1 < |a| then a[2 * i + 1] else a[2 * i],
                 b[2 * i], if 2 * i + 1 < |b| then b[2 * i + 1] else b[2 * i]);
    }
  }

  /** For equally many leaves the root determines the leaves, duplicated odd node or not, unless
      two of the strings that were hashed collide. */
  lemma {:induction false} RootDeterminesLeaves(h: Hash, a: seq<string>, b: seq<string>)
    requires |a| == |b| && AllDigests(a) && AllDigests(b) && Root(h, a) == Root(h, b)
    requires CollisionFree(h, TreeInputs(h, a) + TreeInputs(h, b))
    ensures a == b
    decreases |a|
  {
    if |a| > 1 {
      RootDeterminesLeaves(h, NextLevel(h, a), NextLevel(h, b));
      forall i | 0 <= i < (|a| + 1) / 2 && h(PairAt(a, i)) == h(PairAt(b, i))
        ensures PairAt(a, i) == PairAt(b, i)
      {
        assert PairAt(a, i) in TreeInputs(h, a) && PairAt(b, i) in TreeInputs(h, b);
      }
      SameNextLevel(h, a, b);
    }
  }

  lemma RepeatedLevel(h: Hash, a: seq<string>)
    requires |a| % 2 == 1
    ensures NextLevel(h, a) == NextLevel(h, a + [a[|a| - 1]])
  {
    var b := a + [a[|a| - 1]];
    forall i | 0 <= i < (|a| + 1) / 2 ensures PairAt(a, i) == PairAt(b, i) {
    }
    assert NextLevel(h, a) == NextLevel(h, b);
  }

  /** The root alone does not fix the number of leaves: repeating the last of an odd number of
      leaves changes nothing. A checkpoint is only meaningful together with its block count. */
  lemma RepeatedLastLeaf(h: Hash, a: seq<string>)
    requires |a| % 2 == 1 && |a| >= 3
    ensures Root(h, a) == Root(h, a + [a[|a| - 1]])
  {
    RepeatedLevel(h, a);
    hide NextLevel;
  }
}
