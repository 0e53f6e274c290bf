/** The nearest-rank percentile: which sample it returns, and why it does not depend on the order of
    the samples. */
module NearestRank {
  import opened Wrappers
  import opened Ordering

  /** How many samples are at most `r`, or below it when `strict`. */
  function Count(s: seq<real>, r: real, strict: bool): nat {
    if s == [] then 0 else Count(s[..|s| - 1], r, strict) + if s[|s| - 1] < r || (!strict && s[|s| - 1] == r) then 1 else 0
  }

  lemma {:induction false} CountConcat(a: seq<real>, b: seq<real>, r: real, strict: bool)
    ensures Count(a + b, r, strict) == Count(a, r, strict) + Count(b, r, strict)
  {
    if b == [] {
      assert a + b == a;
    } else {
      assert (a + b)[..|a + b| - 1] == a + b[..|b| - 1];
      CountConcat(a, b[..|b| - 1], r, strict);
    }
  }

  /** Taking one sample out. */
  lemma Without(b: seq<real>, k: nat, r: real, strict: bool)
    requires k < |b|
    ensures var d := b[..k] + b[k + 1..];
      && multiset(d) == multiset(b) - multiset{b[k]}
      && Count(b, r, strict) == Count(d, r, strict) + Count([b[k]], r, strict)
  {
    var x := b[k];
    assert b == b[..k] + ([x] + b[k + 1..]);
    CountConcat(b[..k], [x] + b[k + 1..], r, strict);
    CountConcat([x], b[k + 1..], r, strict);
    CountConcat(b[..k], b[k + 1..], r, strict);
  }

  /** Counting ignores order. */
  lemma {:induction false} CountPermuted(a: seq<real>, b: seq<real>, r: real, strict: bool)
    requires multiset(a) == multiset(b)
    ensures Count(a, r, strict) == Count(b, r, strict)
    decreases |a|
  {
    if a == [] {
      assert |multiset(b)| == 0;
    } else {
      var n := |a| - 1;
      assert a[n] in multiset(b);
      var k :| 0 <= k < |b| && b[k] == a[n];
      Without(a, n, r, strict);
      Without(b, k, r, strict);
      hide Count;
      CountPermuted(a[..n] + a[n + 1..], b[..k] + b[k + 1..], r, strict);
    }
  }

  /** In a sorted list, at least i + 1 samples are at most the i-th and at most i are below it. */
  lemma {:induction false} CountSorted(s: seq<real>, i: nat)
    requires Sorted(s, RealLeq) && i < |s|
    ensures Count(s, s[i], false) >= i + 1 && Count(s, s[i], true) <= i
  {
    assert s == s[..i + 1] + s[i + 1..] && s == s[..i] + s[i..];
    CountConcat(s[..i + 1], s[i + 1..], s[i], false);
    CountConcat(s[..i], s[i..], s[i], true);
    var head, tail := s[..i + 1], s[i..];
    forall j | 0 <= j < |head| ensures head[j] <= s[i] {
      if j < i { assert RealLeq(s[j], s[i]); }
    }
    forall j | 0 <= j < |tail| ensures tail[j] >= s[i] {
      if 0 < j { assert RealLeq(s[i], s[i + j]); }
    }
    AllCounted(s[..i + 1], s[i]);
    NoneCounted(s[i..], s[i]);
    CountBounded(s[..i], s[i], true);
  }

  lemma {:induction false} CountBounded(s: seq<real>, r: real, strict: bool)
    ensures Count(s, r, strict) <= |s|
  {
    if s != [] { CountBounded(s[..|s| - 1], r, strict); }
  }

  lemma {:induction false} AllCounted(s: seq<real>, r: real)
    requires forall j :: 0 <= j < |s| ==> s[j] <= r
    ensures Count(s, r, false) == |s|
  {
    if s != [] { AllCounted(s[..|s| - 1], r); }
  }

  lemma {:induction false} NoneCounted(s: seq<real>, r: real)
    requires forall j :: 0 <= j < |s| ==> s[j] >= r
    ensures Count(s, r, true) == 0
  {
    if s != [] { NoneCounted(s[..|s| - 1], r); }
  }

  lemma {:induction false} CountMonotone(s: seq<real>, x: real, y: real)
    requires x < y
    ensures Count(s, x, false) <= Count(s, y, true)
  {
    if s != [] { CountMonotone(s[..|s| - 1], x, y); }
  }

  function Ceiling(x: real): int {
    -((-x).Floor)
  }

  /** The rank asked for: the least whole number that is at least p per cent of n. */
  function RankFor(p: real, n: nat): int {
    Ceiling(p * n as real / 100.0)
  }

  /** `r` is the sample of this rank: at least `rank` samples are at most r, fewer are below it. */
  ghost predicate HasRank(s: seq<real>, r: real, rank: int) {
    r in s && Count(s, r, false) >= rank && Count(s, r, true) < rank
  }

  /** At most one sample value has a given rank, whatever the order. */
  lemma RankUnique(s: seq<real>, x: real, y: real, rank: int)
    requires HasRank(s, x, rank) && HasRank(s, y, rank)
    ensures x == y
  {
    if x < y { CountMonotone(s, x, y); }
    if y < x { CountMonotone(s, y, x); }
  }

  /** A higher rank is not a smaller sample. */
  lemma RankMonotone(s: seq<real>, x: real, j: int, y: real, k: int)
    requires HasRank(s, x, j) && HasRank(s, y, k) && j <= k
    ensures x <= y
  {
    if y < x { CountMonotone(s, y, x); }
  }

  predicate ValidSamples(values: seq<real>) {
    values != [] && forall i :: 0 <= i < |values| ==> values[i] >= 0.0
  }

  method ValidateSamples(values: seq<real>) returns (r: Result<(), string>)
    ensures r.Ok? <==> ValidSamples(values)
  {
    if values == [] {
      return Err("no samples");
    }
    for i := 0 to |values|
      invariant forall k :: 0 <= k < i ==> values[k] >= 0.0
    {
      if values[i] < 0.0 {
        return Err("sample is negative");
      }
    }
    r := Ok(());
  }

  /** The rank that the percentile picks: at least the first. */
  function PickedRank(p: real, n: nat): int {
    if RankFor(p, n) < 1 then 1 else RankFor(p, n)
  }

  lemma RankInRange(p: real, n: nat)
    requires 0.0 <= p <= 100.0 && n >= 1
    ensures 0 <= RankFor(p, n) <= n && (p > 0.0 ==> RankFor(p, n) >= 1)
  {
    var x := p * n as real;
    assert 0.0 <= x <= 100.0 * n as real;
    assert p > 0.0 ==> x > 0.0;
  }

  lemma RankGrows(p: real, q: real, n: nat)
    requires 0.0 <= p <= q
    ensures RankFor(p, n) <= RankFor(q, n)
  {
    assert p * n as real <= q * n as real;
  }

  method PercentileNearestRank(values: seq<real>, p: real) returns (r: Result<real, string>)
    ensures r.Ok? <==> ValidSamples(values) && 0.0 <= p <= 100.0
    ensures r.Ok? ==> HasRank(values, r.value, PickedRank(p, |values|))
    ensures r.Ok? && p > 0.0 ==> HasRank(values, r.value, RankFor(p, |values|))
  {
    var _ :- ValidateSamples(values);
    if p < 0.0 || p > 100.0 {
      return Err("percentile must be within 0..=100");
    }
    RealOrder();
    hide TotalOrder, Sorted, HasRank, Ceiling;
    var sorted := SortBy(values, RealLeq);
    assert |multiset(sorted)| == |sorted| && |multiset(values)| == |values|;
    var n := |sorted|;
    var rank := Ceiling(p * n as real / 100.0) - 1;
    assert rank == RankFor(p, n) - 1;
    RankInRange(p, n);
    hide RankFor;
    var index := if rank < 0 then 0 else if rank > n - 1 then n - 1 else rank;
    SortedHasRank(sorted, values, index);
    r := Ok(sorted[index]);
  }

  lemma SortedHasRank(sorted: seq<real>, values: seq<real>, i: nat)
    requires Sorted(sorted, RealLeq) && multiset(sorted) == multiset(values) && i < |sorted|
    ensures HasRank(values, sorted[i], i + 1)
  {
    CountSorted(sorted, i);
    CountPermuted(sorted, values, sorted[i], false);
    CountPermuted(sorted, values, sorted[i], true);
    hide Count;
    assert sorted[i] in multiset(values);
  }

  method Median(values: seq<real>) returns (r: Result<real, string>)
    ensures r.Ok? <==> ValidSamples(values)
    ensures r.Ok? ==> HasRank(values, r.value, RankFor(50.0, |values|))
  {
    r := PercentileNearestRank(values, 50.0);
  }

  method P95IfSufficient(values: seq<real>, minSamples: nat) returns (r: Result<Option<real>, string>)
    ensures r.Ok? <==> ValidSamples(values)
    ensures r.Ok? ==> (r.value.Some? <==> |values| >= minSamples)
    ensures r.Ok? && r.value.Some? ==> HasRank(values, r.value.value, RankFor(95.0, |values|))
  {
    var _ :- ValidateSamples(values);
    if |values| < minSamples {
      return Ok(None);
    }
    var p := PercentileNearestRank(values, 95.0);
    r := Ok(Some(p.value));
  }

  /** The median never exceeds the 95th percentile of the same samples. */
  lemma MedianAtMostP95(values: seq<real>, median: real, p95: real)
    requires HasRank(values, median, RankFor(50.0, |values|)) && HasRank(values, p95, RankFor(95.0, |values|))
    ensures median <= p95
  {
    RankGrows(50.0, 95.0, |values|);
    RankMonotone(values, median, RankFor(50.0, |values|), p95, RankFor(95.0, |values|));
  }
}
