/** The paired bootstrap comparison over exact reals: resampled means, the 99% interval read from
    the sorted means, the two-sided p-value, and how the two are tied together. */
module Bootstrap {
  import opened Wrappers
  import opened Ordering
  import opened Prng

  const DEFAULT_RESAMPLES: nat := 10000

  /** `floor(0.005 * b)`, at most b - 1. */
  function LowerIndex(b: nat): (i: nat)
    requires b > 0
    ensures i < b
  {
    var i := (0.005 * b as real).Floor;
    if i < b - 1 then i else b - 1
  }

  /** `ceil(0.995 * b)`, at most b - 1. */
  function UpperIndex(b: nat): (i: nat)
    requires b > 0
    ensures i < b
  {
    var i := Ceil(0.995 * b as real);
    if i < b - 1 then i else b - 1
  }

  function Ceil(x: real): int {
    -((-x).Floor)
  }

  lemma Indices(b: nat)
    requires b > 0
    ensures LowerIndex(b) == b / 200
    ensures UpperIndex(b) == if b < 200 then b - 1 else b - b / 200
    ensures LowerIndex(b) <= UpperIndex(b)
  {
    var q, r := b / 200, b % 200;
    assert b == 200 * q + r;
    assert 0.005 * b as real == q as real + r as real / 200.0;
    assert 0.995 * b as real == (b - q) as real - r as real / 200.0;
  }

  function CountNonPositive(s: seq<real>): nat {
    if s == [] then 0 else CountNonPositive(s[..|s| - 1]) + if s[|s| - 1] <= 0.0 then 1 else 0
  }

  function CountNonNegative(s: seq<real>): nat {
    if s == [] then 0 else CountNonNegative(s[..|s| - 1]) + if s[|s| - 1] >= 0.0 then 1 else 0
  }

  function Min(a: nat, b: nat): nat {
    if a < b then a else b
  }

  function PValue(means: seq<real>): real
    requires means != []
  {
    var p := 2.0 * (Min(CountNonPositive(means), CountNonNegative(means)) as real / |means| as real);
    if p < 1.0 then p else 1.0
  }

  /** In a sorted sequence the non-positive values are the first ones and the non-negative values
      the last ones. */
  lemma {:induction false} SignBlocks(s: seq<real>)
    requires Sorted(s, RealLeq)
    ensures CountNonPositive(s) <= |s| && CountNonNegative(s) <= |s|
    ensures forall i :: 0 <= i < |s| ==> (s[i] <= 0.0 <==> i < CountNonPositive(s))
    ensures forall i :: 0 <= i < |s| ==> (s[i] >= 0.0 <==> |s| - CountNonNegative(s) <= i)
  {
    if s != [] {
      var n := |s| - 1;
      SignBlocks(s[..n]);
      forall i | 0 <= i < |s|
        ensures s[i] <= 0.0 <==> i < CountNonPositive(s)
        ensures s[i] >= 0.0 <==> |s| - CountNonNegative(s) <= i
      {
        if i < n {
          assert s[..n][i] == s[i];
          assert RealLeq(s[i], s[n]);
        } else if n > 0 {
          assert s[..n][n - 1] == s[n - 1];
          assert RealLeq(s[n - 1], s[n]);
        }
      }
    }
  }

  lemma Hundredth(c: nat, b: nat)
    requires b > 0
    ensures 2.0 * (c as real / b as real) < 0.01 <==> 200 * c < b
  {
    var x, y := c as real, b as real;
    var share := x / y;
    assert x == share * y;
    if share < 0.005 {
      SmallerProduct(share, 0.005, y);
    } else if share > 0.005 {
      SmallerProduct(0.005, share, y);
    }
  }

  lemma SmallerProduct(p: real, q: real, y: real)
    requires p < q && 0.0 < y
    ensures p * y < q * y
  {
  }

  /** The p-value at every level below 1: it is at most `x` exactly when twice one of the two sign
      counts is at most that share of the means. */
  lemma PValueAtMost(means: seq<real>, x: real)
    requires means != [] && x < 1.0
    ensures PValue(means) <= 1.0
    ensures PValue(means) <= x <==>
      || 2.0 * CountNonPositive(means) as real <= x * |means| as real
      || 2.0 * CountNonNegative(means) as real <= x * |means| as real
  {
    var m, n := Min(CountNonPositive(means), CountNonNegative(means)), |means|;
    hide CountNonPositive, CountNonNegative;
    ShareAtMost(m, n, x);
  }

  lemma ShareAtMost(m: nat, n: nat, x: real)
    requires n > 0
    ensures 2.0 * (m as real / n as real) <= x <==> 2.0 * m as real <= x * n as real
  {
    var share, y := m as real / n as real, n as real;
    assert share * y == m as real;
    if 2.0 * share > x {
      SmallerProduct(x, 2.0 * share, y);
    } else if 2.0 * share < x {
      SmallerProduct(2.0 * share, x, y);
    }
    assert 2.0 * share * y == 2.0 * m as real;
  }

  lemma SmallShare(means: seq<real>)
    requires means != [] && PValue(means) < 0.01
    ensures 200 * Min(CountNonPositive(means), CountNonNegative(means)) < |means|
  {
    Hundredth(Min(CountNonPositive(means), CountNonNegative(means)), |means|);
  }

  /** A p-value below 0.01 because few means are non-positive puts the whole interval above 0. */
  lemma PositiveInterval(means: seq<real>)
    requires means != [] && Sorted(means, RealLeq) && PValue(means) < 0.01
    requires CountNonPositive(means) <= CountNonNegative(means)
    ensures means[LowerIndex(|means|)] > 0.0
  {
    SmallShare(means);
    SignBlocks(means);
    Indices(|means|);
  }

  /** The resample counts for which the upper end of the interval mirrors the lower end. */
  predicate Mirrored(b: nat) {
    b < 200 || b % 200 == 0
  }

  /** A p-value below 0.01 because few means are non-negative puts the whole interval below 0,
      for these resample counts. */
  lemma NegativeInterval(means: seq<real>)
    requires means != [] && Sorted(means, RealLeq) && PValue(means) < 0.01
    requires CountNonNegative(means) <= CountNonPositive(means) && Mirrored(|means|)
    ensures means[UpperIndex(|means|)] < 0.0
  {
    SmallShare(means);
    SignBlocks(means);
    Indices(|means|);
  }

  /** A p-value below 0.01 that comes from the non-negative side. */
  predicate MostlyNegative(means: seq<real>) {
    means != [] && PValue(means) < 0.01 && CountNonNegative(means) <= CountNonPositive(means)
  }

  lemma NoMeans()
    ensures CountNonPositive([]) == 0 && CountNonNegative([]) == 0
  {
  }

  lemma OneMoreMean(s: seq<real>, x: real)
    ensures CountNonPositive(s + [x]) == CountNonPositive(s) + if x <= 0.0 then 1 else 0
    ensures CountNonNegative(s + [x]) == CountNonNegative(s) + if x >= 0.0 then 1 else 0
  {
    assert (s + [x])[..|s + [x]| - 1] == s;
  }

  datatype BootstrapEstimate = BootstrapEstimate(
    sampleSize: nat, resamplesCount: nat, parentMean: real, candidateMean: real, deltaMean: real,
    deltaPct: real, ciLower: real, ciUpper: real, pValue: real, isSignificant: bool)

  /** The generator after n draws of a number below m. */
  function Drawn(s: State, m: nat, n: nat): State {
    if n == 0 then s else
      var before := Drawn(s, m, n - 1);
      if m > 1 then Step(before) else before
  }

  /** The number below m that this state draws. */
  function DrawnIndex(s: State, m: nat): (i: nat)
    requires m > 0
    ensures i < m
  {
    if m > 1 then Value(Output(s)) % m else 0
  }

  /** The first n differences drawn from s on, with replacement. */
  function Sample(diffs: seq<real>, s: State, n: nat): (r: seq<real>)
    requires diffs != []
    ensures |r| == n && forall x :: x in r ==> x in diffs
  {
    if n == 0 then [] else Sample(diffs, s, n - 1) + [diffs[DrawnIndex(Drawn(s, |diffs|, n - 1), |diffs|)]]
  }

  function Total(s: seq<real>): real {
    if s == [] then 0.0 else Total(s[..|s| - 1]) + s[|s| - 1]
  }

  function Mean(s: seq<real>): real
    requires s != []
  {
    Total(s) / |s| as real
  }

  /** The means of b resamples as large as the list of differences, drawn one after another. */
  function DrawnMeans(diffs: seq<real>, s: State, b: nat): (means: seq<real>)
    requires diffs != []
    ensures |means| == b
  {
    if b == 0 then [] else DrawnMeans(diffs, s, b - 1) + [Mean(Sample(diffs, AfterMeans(s, |diffs|, b - 1), |diffs|))]
  }

  /** The generator after b resamples of m draws each. */
  function AfterMeans(s: State, m: nat, b: nat): State {
    if b == 0 then s else Drawn(AfterMeans(s, m, b - 1), m, m)
  }

  ghost predicate Negates(s: seq<real>, t: seq<real>) {
    |s| == |t| && forall i :: 0 <= i < |s| ==> t[i] == -s[i]
  }

  lemma {:induction false} NegatedTotal(s: seq<real>, t: seq<real>)
    requires Negates(s, t)
    ensures Total(t) == -Total(s)
  {
    if s != [] {
      NegatedTotal(s[..|s| - 1], t[..|t| - 1]);
    }
  }

  lemma {:induction false} NegatedSample(d: seq<real>, e: seq<real>, s: State, n: nat)
    requires d != [] && Negates(d, e)
    ensures Negates(Sample(d, s, n), Sample(e, s, n))
  {
    if n > 0 {
      NegatedSample(d, e, s, n - 1);
    }
  }

  lemma NegatedMean(s: seq<real>, t: seq<real>)
    requires s != [] && Negates(s, t)
    ensures Mean(t) == -Mean(s)
  {
    NegatedTotal(s, t);
  }

  /** With the same seed, swapping parent and candidate turns every resample mean around. */
  lemma {:induction false} NegatedMeans(d: seq<real>, e: seq<real>, s: State, b: nat)
    requires d != [] && Negates(d, e)
    ensures Negates(DrawnMeans(d, s, b), DrawnMeans(e, s, b))
  {
    hide Sample, Mean, AfterMeans;
    if b > 0 {
      NegatedMeans(d, e, s, b - 1);
      var from := AfterMeans(s, |d|, b - 1);
      NegatedSample(d, e, from, |d|);
      NegatedMean(Sample(d, from, |d|), Sample(e, from, |d|));
    }
  }

  ghost predicate Within(s: seq<real>, lo: real, hi: real) {
    forall i :: 0 <= i < |s| ==> lo <= s[i] <= hi
  }

  lemma TimesLess(x: real, y: real, m: nat)
    requires x < y && m > 0
    ensures x * m as real < y * m as real
  {
  }

  lemma Squeezed(x: real, lo: real, hi: real, m: nat)
    requires m > 0 && lo * m as real <= x * m as real <= hi * m as real
    ensures lo <= x <= hi
  {
    if x < lo { TimesLess(x, lo, m); }
    if x > hi { TimesLess(hi, x, m); }
  }

  lemma {:induction false} TotalWithin(s: seq<real>, lo: real, hi: real)
    requires Within(s, lo, hi)
    ensures lo * |s| as real <= Total(s) <= hi * |s| as real
  {
    if s != [] {
      var n := |s| - 1;
      TotalWithin(s[..n], lo, hi);
      assert lo * |s| as real == lo * n as real + lo && hi * |s| as real == hi * n as real + hi;
    }
  }

  lemma MeanTimesCount(s: seq<real>)
    requires s != []
    ensures Mean(s) * |s| as real == Total(s)
  {
    Quotient(Total(s), |s| as real);
  }

  lemma Quotient(x: real, y: real)
    requires y != 0.0
    ensures x / y * y == x
  {
  }

  lemma MeanWithin(s: seq<real>, lo: real, hi: real)
    requires s != [] && Within(s, lo, hi)
    ensures lo <= Mean(s) <= hi
  {
    TotalWithin(s, lo, hi);
    MeanTimesCount(s);
    hide Mean, Total;
    Squeezed(Mean(s), lo, hi, |s|);
  }

  lemma SampleWithin(diffs: seq<real>, s: State, n: nat, lo: real, hi: real)
    requires diffs != [] && Within(diffs, lo, hi)
    ensures Within(Sample(diffs, s, n), lo, hi)
  {
    forall i | 0 <= i < n ensures lo <= Sample(diffs, s, n)[i] <= hi {
      assert Sample(diffs, s, n)[i] in diffs;
    }
  }

  lemma {:induction false} MeansWithin(diffs: seq<real>, s: State, b: nat, lo: real, hi: real)
    requires diffs != [] && Within(diffs, lo, hi)
    ensures Within(DrawnMeans(diffs, s, b), lo, hi)
  {
    if b > 0 {
      MeansWithin(diffs, s, b - 1, lo, hi);
      var sample := Sample(diffs, AfterMeans(s, |diffs|, b - 1), |diffs|);
      SampleWithin(diffs, AfterMeans(s, |diffs|, b - 1), |diffs|, lo, hi);
      MeanWithin(sample, lo, hi);
    }
  }

  lemma OneMoreTotal(s: seq<real>, x: real)
    ensures Total(s + [x]) == Total(s) + x
  {
    assert (s + [x])[..|s|] == s;
  }

  /** The mean of one resample, drawn with replacement. */
  method ResampleMean(prng: FastPrng, diffs: seq<real>) returns (mean: real)
    requires prng.Valid() && diffs != []
    modifies prng
    ensures prng.Valid() && prng.s == Drawn(old(prng.s), |diffs|, |diffs|)
    ensures mean == Mean(Sample(diffs, old(prng.s), |diffs|))
  {
    hide Step, Output, Value, Total;
    var m := |diffs|;
    ghost var start := prng.s;
    var sum := 0.0;
    NoTotal();
    for j := 0 to m
      invariant prng.Valid() && prng.s == Drawn(start, m, j)
      invariant sum == Total(Sample(diffs, start, j))
    {
      OneMoreTotal(Sample(diffs, start, j), diffs[DrawnIndex(prng.s, m)]);
      var idx := prng.GenRange(m);
      sum := sum + diffs[idx];
    }
    mean := sum / m as real;
  }

  lemma NoTotal()
    ensures Total([]) == 0.0
  {
  }

  lemma SortedStaysWithin(a: seq<real>, b: seq<real>, lo: real, hi: real)
    requires Within(a, lo, hi) && multiset(a) == multiset(b)
    ensures Within(b, lo, hi) && |a| == |b|
  {
    assert |multiset(a)| == |multiset(b)|;
    forall i | 0 <= i < |b|
      ensures lo <= b[i] <= hi
    {
      assert b[i] in multiset(a);
    }
  }

  lemma IntervalOrdered(means: seq<real>)
    requires means != [] && Sorted(means, RealLeq)
    ensures means[LowerIndex(|means|)] <= means[UpperIndex(|means|)]
  {
    Indices(|means|);
    var i, j := LowerIndex(|means|), UpperIndex(|means|);
    if i < j { assert RealLeq(means[i], means[j]); }
  }

  /** Candidate minus parent, pair by pair. */
  function Differences(parent: seq<real>, candidate: seq<real>): (d: seq<real>)
    requires |parent| == |candidate|
    ensures |d| == |parent|
  {
    seq(|parent|, i requires 0 <= i < |parent| => candidate[i] - parent[i])
  }

  /** The differences and the three running sums. */
  method PairUp(parent: seq<real>, candidate: seq<real>)
    returns (diffs: seq<real>, sumParent: real, sumCandidate: real, sumDiff: real)
    requires |parent| == |candidate|
    ensures diffs == Differences(parent, candidate)
    ensures sumParent == Total(parent) && sumCandidate == Total(candidate)
    ensures sumDiff == sumCandidate - sumParent
  {
    diffs, sumParent, sumCandidate, sumDiff := [], 0.0, 0.0, 0.0;
    for i := 0 to |parent|
      invariant diffs == Differences(parent, candidate)[..i]
      invariant sumParent == Total(parent[..i]) && sumCandidate == Total(candidate[..i])
      invariant sumDiff == sumCandidate - sumParent
    {
      var p, c := parent[i], candidate[i];
      var d := c - p;
      diffs := diffs + [d];
      sumParent := sumParent + p;
      sumCandidate := sumCandidate + c;
      sumDiff := sumDiff + d;
      assert parent[..i + 1][..i] == parent[..i] && candidate[..i + 1][..i] == candidate[..i];
    }
    assert parent[..|parent|] == parent && candidate[..|candidate|] == candidate;
  }

  /** All resample means, sorted. */
  method SortedMeans(diffs: seq<real>, b: nat, seed: Word) returns (means: seq<real>)
    requires diffs != []
    ensures Sorted(means, RealLeq) && multiset(means) == multiset(DrawnMeans(diffs, Seeded(seed), b))
  {
    hide Step, Seeded;
    var prng := new FastPrng(seed);
    var drawn: seq<real> := [];
    for k := 0 to b
      invariant prng.Valid() && fresh(prng) && prng.s == AfterMeans(Seeded(seed), |diffs|, k)
      invariant drawn == DrawnMeans(diffs, Seeded(seed), k)
    {
      var mean := ResampleMean(prng, diffs);
      drawn := drawn + [mean];
    }
    RealOrder();
    means := SortBy(drawn, RealLeq);
  }

  function DeltaPct(deltaMean: real, parentMean: real): real {
    var size := if parentMean < 0.0 then -parentMean else parentMean;
    if size > 0.000000001 then deltaMean / parentMean * 100.0 else 0.0
  }

  /** The relative change in percent: times the parent mean it is a hundred times the difference, and it
      is zero when the parent mean is within 1e-9 of zero. */
  lemma DeltaPctExactly(deltaMean: real, parentMean: real)
    ensures if -0.000000001 <= parentMean <= 0.000000001 then DeltaPct(deltaMean, parentMean) == 0.0
      else DeltaPct(deltaMean, parentMean) * parentMean == 100.0 * deltaMean
  {
    if parentMean != 0.0 {
      var share := deltaMean / parentMean;
      assert share * parentMean == deltaMean;
      assert share * 100.0 * parentMean == 100.0 * (share * parentMean);
    }
  }

  /** What the estimate says about the sorted resample means it was read from. */
  ghost predicate Reads(e: BootstrapEstimate, means: seq<real>) {
    && means != [] && Sorted(means, RealLeq) && e.resamplesCount == |means|
    && e.ciLower == means[LowerIndex(|means|)] && e.ciUpper == means[UpperIndex(|means|)]
    && e.pValue == PValue(means)
    && (e.isSignificant <==> e.pValue < 0.01 && (e.ciLower > 0.0 || e.ciUpper < 0.0))
  }

  /** For mirrored resample counts the significance flag is the p-value test alone. */
  lemma SignificanceIsPValue(e: BootstrapEstimate, means: seq<real>)
    requires Reads(e, means) && Mirrored(e.resamplesCount)
    ensures e.isSignificant <==> e.pValue < 0.01
  {
    if e.pValue < 0.01 {
      if CountNonPositive(means) <= CountNonNegative(means) {
        PositiveInterval(means);
      } else {
        NegativeInterval(means);
      }
    }
  }

  lemma {:induction false} TotalOfDifferences(parent: seq<real>, candidate: seq<real>)
    requires |parent| == |candidate|
    ensures Total(Differences(parent, candidate)) == Total(candidate) - Total(parent)
  {
    if parent != [] {
      var n := |parent| - 1;
      TotalOfDifferences(parent[..n], candidate[..n]);
      assert Differences(parent, candidate)[..n] == Differences(parent[..n], candidate[..n]);
    }
  }

  /** The estimate of b resamples of these samples with this seed, read from the sorted resample
      means. */
  ghost predicate Estimates(e: BootstrapEstimate, parent: seq<real>, candidate: seq<real>, b: nat, seed: Word, means: seq<real>) {
    && |parent| == |candidate| == e.sampleSize > 0 && b > 0
    && Reads(e, means) && e.resamplesCount == b && multiset(means) == multiset(DrawnMeans(Differences(parent, candidate), Seeded(seed), b))
    && e.parentMean == Mean(parent) && e.candidateMean == Mean(candidate) && e.deltaMean == Mean(Differences(parent, candidate))
    && e.deltaPct == DeltaPct(e.deltaMean, e.parentMean)
  }

  /** Whatever bounds every paired difference bounds the interval, which is in order. */
  lemma IntervalWithin(e: BootstrapEstimate, parent: seq<real>, candidate: seq<real>, b: nat, seed: Word, means: seq<real>, lo: real, hi: real)
    requires Estimates(e, parent, candidate, b, seed, means) && Within(Differences(parent, candidate), lo, hi)
    ensures lo <= e.ciLower <= e.ciUpper <= hi
  {
    hide DrawnMeans, Seeded, Sorted;
    var drawn := DrawnMeans(Differences(parent, candidate), Seeded(seed), b);
    MeansWithin(Differences(parent, candidate), Seeded(seed), b, lo, hi);
    SortedStaysWithin(drawn, means, lo, hi);
    IntervalOrdered(means);
  }

  lemma MeanOfDifferences(parent: seq<real>, candidate: seq<real>)
    requires |parent| == |candidate| > 0
    ensures Mean(Differences(parent, candidate)) == Mean(candidate) - Mean(parent)
  {
    TotalOfDifferences(parent, candidate);
    assert (Total(candidate) - Total(parent)) / |parent| as real == Mean(candidate) - Mean(parent);
  }

  lemma SameLargest(a: seq<real>, b: seq<real>)
    requires a != [] && b != [] && Sorted(a, RealLeq) && Sorted(b, RealLeq) && multiset(a) == multiset(b)
    ensures a[|a| - 1] == b[|b| - 1]
  {
    var x, y := a[|a| - 1], b[|b| - 1];
    assert x in multiset(b) && y in multiset(a);
    var i :| 0 <= i < |b| && b[i] == x;
    var j :| 0 <= j < |a| && a[j] == y;
    if i < |b| - 1 { assert RealLeq(b[i], y); }
    if j < |a| - 1 { assert RealLeq(a[j], x); }
  }

  lemma SameRest(a: seq<real>, b: seq<real>)
    requires a != [] && b != [] && multiset(a) == multiset(b) && a[|a| - 1] == b[|b| - 1]
    ensures multiset(a[..|a| - 1]) == multiset(b[..|b| - 1])
  {
    assert a == a[..|a| - 1] + [a[|a| - 1]] && b == b[..|b| - 1] + [b[|b| - 1]];
    assert multiset(a[..|a| - 1]) == multiset(a) - multiset{a[|a| - 1]};
    assert multiset(b[..|b| - 1]) == multiset(b) - multiset{b[|b| - 1]};
  }

  /** Two sorted lists of the same reals are the same list. */
  lemma {:induction false} SortedOnce(a: seq<real>, b: seq<real>)
    requires Sorted(a, RealLeq) && Sorted(b, RealLeq) && multiset(a) == multiset(b)
    ensures a == b
  {
    assert |multiset(a)| == |multiset(b)|;
    if a != [] {
      SameLargest(a, b);
      SameRest(a, b);
      SortedOnce(a[..|a| - 1], b[..|b| - 1]);
      assert a == a[..|a| - 1] + [a[|a| - 1]] && b == b[..|b| - 1] + [b[|b| - 1]];
    }
  }

  /** The estimate depends on the samples, the count and the seed only. */
  lemma EstimateIsFixed(e: BootstrapEstimate, f: BootstrapEstimate, parent: seq<real>, candidate: seq<real>, b: nat, seed: Word,
                        means: seq<real>, others: seq<real>)
    requires Estimates(e, parent, candidate, b, seed, means) && Estimates(f, parent, candidate, b, seed, others)
    ensures e == f
  {
    SortedOnce(means, others);
  }

  /** The values with their signs turned, last one first. */
  function Mirror(s: seq<real>): (r: seq<real>)
    ensures |r| == |s|
  {
    seq(|s|, i requires 0 <= i < |s| => -s[|s| - 1 - i])
  }

  lemma AppendedCount(s: seq<real>, y: real, x: real)
    ensures multiset(s + [y])[x] == multiset(s)[x] + if x == y then 1 else 0
  {
  }

  lemma PrependedCount(y: real, s: seq<real>, x: real)
    ensures multiset([y] + s)[x] == multiset(s)[x] + if x == y then 1 else 0
  {
  }

  lemma MirrorStep(s: seq<real>)
    requires s != []
    ensures Mirror(s) == [-s[|s| - 1]] + Mirror(s[..|s| - 1])
    ensures s == s[..|s| - 1] + [s[|s| - 1]]
  {
  }

  lemma MirrorCount(s: seq<real>, x: real)
    requires s != []
    ensures multiset(Mirror(s))[x] == multiset(Mirror(s[..|s| - 1]))[x] + if -x == s[|s| - 1] then 1 else 0
    ensures multiset(s)[-x] == multiset(s[..|s| - 1])[-x] + if -x == s[|s| - 1] then 1 else 0
  {
    hide Mirror;
    MirrorStep(s);
    PrependedCount(-s[|s| - 1], Mirror(s[..|s| - 1]), x);
    AppendedCount(s[..|s| - 1], s[|s| - 1], -x);
  }

  lemma {:induction false} MirrorCounts(s: seq<real>, x: real)
    ensures multiset(Mirror(s))[x] == multiset(s)[-x]
  {
    hide Mirror;
    if s == [] {
      assert Mirror(s) == [];
    } else {
      MirrorCounts(s[..|s| - 1], x);
      MirrorCount(s, x);
    }
  }

  lemma {:induction false} NegatedCounts(s: seq<real>, t: seq<real>, x: real)
    requires Negates(s, t)
    ensures multiset(t)[x] == multiset(s)[-x]
  {
    if s != [] {
      var n := |s| - 1;
      NegatedCounts(s[..n], t[..n], x);
      assert s == s[..n] + [s[n]] && t == t[..n] + [t[n]];
      AppendedCount(s[..n], s[n], -x);
      AppendedCount(t[..n], t[n], x);
    }
  }

  lemma MirrorSorted(s: seq<real>)
    requires Sorted(s, RealLeq)
    ensures Sorted(Mirror(s), RealLeq)
  {
    forall i, j | 0 <= i < j < |s| ensures RealLeq(Mirror(s)[i], Mirror(s)[j]) {
      assert RealLeq(s[|s| - 1 - j], s[|s| - 1 - i]);
    }
  }

  lemma MirroredMeans(drawn: seq<real>, turned: seq<real>, means: seq<real>, others: seq<real>)
    requires Negates(drawn, turned) && multiset(means) == multiset(drawn) && multiset(others) == multiset(turned)
    requires Sorted(means, RealLeq) && Sorted(others, RealLeq)
    ensures others == Mirror(means)
  {
    forall x ensures multiset(Mirror(means))[x] == multiset(others)[x] {
      MirrorCounts(means, x);
      NegatedCounts(drawn, turned, x);
    }
    MirrorSorted(means);
    SortedOnce(others, Mirror(means));
  }

  lemma {:induction false} FrontCounts(x: real, s: seq<real>)
    ensures CountNonPositive([x] + s) == CountNonPositive(s) + if x <= 0.0 then 1 else 0
    ensures CountNonNegative([x] + s) == CountNonNegative(s) + if x >= 0.0 then 1 else 0
  {
    hide CountNonPositive, CountNonNegative;
    if s == [] {
      NoMeans();
      OneMoreMean([], x);
      assert [x] + s == [] + [x];
    } else {
      var n := |s| - 1;
      FrontCounts(x, s[..n]);
      OneMoreMean(s[..n], s[n]);
      OneMoreMean([x] + s[..n], s[n]);
      assert s == s[..n] + [s[n]] && [x] + s == [x] + s[..n] + [s[n]];
    }
  }

  lemma {:induction false} MirrorSigns(s: seq<real>)
    ensures CountNonPositive(Mirror(s)) == CountNonNegative(s)
    ensures CountNonNegative(Mirror(s)) == CountNonPositive(s)
  {
    if s != [] {
      MirrorSigns(s[..|s| - 1]);
      MirrorStep(s);
      FrontCounts(-s[|s| - 1], Mirror(s[..|s| - 1]));
    }
  }

  /** Swapping parent and candidate with the same seed turns the difference around and keeps the
      p-value. The interval turns around too, but from 200 resamples on its upper end reaches one
      rank further out than its lower end. */
  lemma SwappedEstimate(e: BootstrapEstimate, f: BootstrapEstimate, parent: seq<real>, candidate: seq<real>, b: nat, seed: Word,
                        means: seq<real>, others: seq<real>)
    requires Estimates(e, parent, candidate, b, seed, means) && Estimates(f, candidate, parent, b, seed, others)
    ensures f.pValue == e.pValue && f.deltaMean == -e.deltaMean
    ensures others == Mirror(means) && f.ciLower >= -e.ciUpper && f.ciUpper >= -e.ciLower
    ensures b < 200 ==> f.ciLower == -e.ciUpper && f.ciUpper == -e.ciLower
  {
    hide DrawnMeans, Seeded, LowerIndex, UpperIndex;
    var d, x := Differences(parent, candidate), Differences(candidate, parent);
    NegatedMeans(d, x, Seeded(seed), b);
    MirroredMeans(DrawnMeans(d, Seeded(seed), b), DrawnMeans(x, Seeded(seed), b), means, others);
    MirrorSigns(means);
    MeanOfDifferences(parent, candidate);
    MeanOfDifferences(candidate, parent);
    Indices(b);
    var q := b / 200;
    assert RealLeq(others[q], others[q]);
    if b >= 200 {
      assert RealLeq(means[b - 1 - q], means[b - q]) && RealLeq(means[q - 1], means[q]);
    }
  }

  /** When few means are non-negative, the upper end is below zero exactly when their number does not
      reach b / 200, or there are fewer than 200 means. */
  lemma UpperEndExactly(e: BootstrapEstimate, means: seq<real>)
    requires Reads(e, means) && MostlyNegative(means)
    ensures e.ciUpper < 0.0 <==> |means| < 200 || CountNonNegative(means) < |means| / 200
    ensures CountNonNegative(means) <= |means| / 200
    ensures Mirrored(|means|) ==> e.ciUpper < 0.0
  {
    SmallShare(means);
    SignBlocks(means);
    Indices(|means|);
  }

  /** Every value with t added. */
  function Raised(s: seq<real>, t: real): (r: seq<real>)
    ensures |r| == |s|
  {
    seq(|s|, i requires 0 <= i < |s| => s[i] + t)
  }

  lemma RaisedStep(s: seq<real>, t: real)
    requires s != []
    ensures Raised(s, t) == Raised(s[..|s| - 1], t) + [s[|s| - 1] + t]
    ensures s == s[..|s| - 1] + [s[|s| - 1]]
  {
  }

  lemma RaisedAppend(s: seq<real>, x: real, t: real)
    ensures Raised(s + [x], t) == Raised(s, t) + [x + t]
  {
  }

  lemma {:induction false} RaisedTotal(s: seq<real>, t: real)
    ensures Total(Raised(s, t)) == Total(s) + t * |s| as real
  {
    if s == [] {
      assert Raised(s, t) == [];
    } else {
      var n := |s| - 1;
      RaisedStep(s, t);
      RaisedTotal(s[..n], t);
      OneMoreTotal(Raised(s[..n], t), s[n] + t);
      OneMoreTotal(s[..n], s[n]);
      assert t * |s| as real == t * n as real + t;
    }
  }

  lemma RaisedMean(s: seq<real>, t: real)
    requires s != []
    ensures Mean(Raised(s, t)) == Mean(s) + t
  {
    RaisedTotal(s, t);
    MeanTimesCount(s);
    MeanTimesCount(Raised(s, t));
    SameQuotient(Mean(Raised(s, t)), Mean(s), t, |s| as real);
  }

  lemma SameQuotient(x: real, y: real, t: real, n: real)
    requires n > 0.0 && x * n == y * n + t * n
    ensures x == y + t
  {
    assert (x - y - t) * n == 0.0;
  }

  lemma {:induction false} RaisedSample(d: seq<real>, t: real, s: State, n: nat)
    requires d != []
    ensures Sample(Raised(d, t), s, n) == Raised(Sample(d, s, n), t)
  {
    hide Drawn, DrawnIndex;
    if n > 0 {
      var i := DrawnIndex(Drawn(s, |d|, n - 1), |d|);
      var shorter := Sample(d, s, n - 1);
      RaisedSample(d, t, s, n - 1);
      assert Sample(d, s, n) == shorter + [d[i]];
      RaisedAppend(shorter, d[i], t);
      assert Raised(d, t)[i] == d[i] + t;
    }
  }

  /** With the same seed, raising the candidate raises every resample mean by as much. */
  lemma {:induction false} RaisedMeans(d: seq<real>, t: real, s: State, b: nat)
    requires d != []
    ensures DrawnMeans(Raised(d, t), s, b) == Raised(DrawnMeans(d, s, b), t)
  {
    hide Sample, Mean, AfterMeans;
    if b > 0 {
      var from := AfterMeans(s, |d|, b - 1);
      RaisedMeans(d, t, s, b - 1);
      RaisedSample(d, t, from, |d|);
      RaisedMean(Sample(d, from, |d|), t);
      RaisedStep(DrawnMeans(d, s, b), t);
    }
  }

  lemma {:induction false} RaisedCounts(s: seq<real>, t: real, x: real)
    ensures multiset(Raised(s, t))[x] == multiset(s)[x - t]
  {
    if s == [] {
      assert Raised(s, t) == [];
    } else {
      var n := |s| - 1;
      RaisedStep(s, t);
      hide Raised;
      RaisedCounts(s[..n], t, x);
      AppendedCount(Raised(s[..n], t), s[n] + t, x);
      AppendedCount(s[..n], s[n], x - t);
    }
  }

  lemma RaisedSameReals(a: seq<real>, b: seq<real>, t: real)
    requires multiset(a) == multiset(b)
    ensures multiset(Raised(a, t)) == multiset(Raised(b, t))
  {
    forall x ensures multiset(Raised(a, t))[x] == multiset(Raised(b, t))[x] {
      RaisedCounts(a, t, x);
      RaisedCounts(b, t, x);
    }
  }

  lemma RaisedSorted(s: seq<real>, t: real)
    requires Sorted(s, RealLeq)
    ensures Sorted(Raised(s, t), RealLeq)
  {
    forall i, j | 0 <= i < j < |s| ensures RealLeq(Raised(s, t)[i], Raised(s, t)[j]) {
      assert RealLeq(s[i], s[j]);
    }
  }

  /** The sorted resample means of these samples. */
  ghost predicate SortedDraw(means: seq<real>, parent: seq<real>, candidate: seq<real>, b: nat, seed: Word)
    requires |parent| == |candidate| > 0
  {
    Sorted(means, RealLeq) && multiset(means) == multiset(DrawnMeans(Differences(parent, candidate), Seeded(seed), b))
  }

  lemma RaisedDifferences(parent: seq<real>, candidate: seq<real>, t: real)
    requires |parent| == |candidate|
    ensures Differences(parent, Raised(candidate, t)) == Raised(Differences(parent, candidate), t)
  {
  }

  lemma RaisedDraw(means: seq<real>, parent: seq<real>, candidate: seq<real>, b: nat, seed: Word, t: real)
    requires |parent| == |candidate| > 0 && SortedDraw(means, parent, candidate, b, seed)
    ensures SortedDraw(Raised(means, t), parent, Raised(candidate, t), b, seed) && |means| == b
  {
    var d := Differences(parent, candidate);
    RaisedDifferences(parent, candidate, t);
    hide DrawnMeans, Seeded, Raised, Differences, Sorted;
    RaisedMeans(d, t, Seeded(seed), b);
    RaisedSameReals(means, DrawnMeans(d, Seeded(seed), b), t);
    RaisedSorted(means, t);
    assert |multiset(means)| == b;
  }

  /** The comparison finds p < 0.01 with few non-negative means, and still an upper end that is not
      below zero. */
  ghost predicate UpperEndMisses(parent: seq<real>, candidate: seq<real>, b: nat, seed: Word) {
    exists e, means :: Estimates(e, parent, candidate, b, seed, means) && MostlyNegative(means) && e.ciUpper >= 0.0
  }

  /** The estimate read from these sorted means. */
  function EstimateOf(parent: seq<real>, candidate: seq<real>, means: seq<real>): BootstrapEstimate
    requires |parent| == |candidate| > 0 && means != []
  {
    var b, p := |means|, PValue(means);
    var lower, upper, delta := means[LowerIndex(b)], means[UpperIndex(b)], Mean(Differences(parent, candidate));
    BootstrapEstimate(|parent|, b, Mean(parent), Mean(candidate), delta, DeltaPct(delta, Mean(parent)),
                      lower, upper, p, p < 0.01 && (lower > 0.0 || upper < 0.0))
  }

  lemma MissedBySign(parent: seq<real>, candidate: seq<real>, b: nat, seed: Word, means: seq<real>)
    requires |parent| == |candidate| > 0 && b > 0 && SortedDraw(means, parent, candidate, b, seed) && |means| == b
    ensures UpperEndMisses(parent, candidate, b, seed) <==>
      !Mirrored(b) && means[b - b / 200 - 1] < 0.0 <= means[b - b / 200]
  {
    hide DrawnMeans, Seeded;
    if UpperEndMisses(parent, candidate, b, seed) {
      var e, others :| Estimates(e, parent, candidate, b, seed, others) && MostlyNegative(others) && e.ciUpper >= 0.0;
      SortedOnce(means, others);
      UpperEndExactly(e, means);
      SignBlocks(means);
    }
    if !Mirrored(b) && means[b - b / 200 - 1] < 0.0 <= means[b - b / 200] {
      ReachedBySign(means);
      assert Estimates(EstimateOf(parent, candidate, means), parent, candidate, b, seed, means);
    }
  }

  lemma ReachedBySign(means: seq<real>)
    requires var b := |means|; b > 0 && Sorted(means, RealLeq) && !Mirrored(b) && means[b - b / 200 - 1] < 0.0 <= means[b - b / 200]
    ensures MostlyNegative(means) && means[UpperIndex(|means|)] >= 0.0
  {
    var b := |means|;
    SignBlocks(means);
    Indices(b);
    assert CountNonNegative(means) == b / 200 <= CountNonPositive(means);
    Hundredth(b / 200, b);
  }

  /** The comparison misses for some constant added to the candidate exactly when the resample count
      is not mirrored and the sorted means of these samples rise at the upper end. */
  lemma ShiftMisses(parent: seq<real>, candidate: seq<real>, b: nat, seed: Word, means: seq<real>)
    requires |parent| == |candidate| > 0 && b > 0 && SortedDraw(means, parent, candidate, b, seed)
    ensures |means| == b
    ensures (exists t :: UpperEndMisses(parent, Raised(candidate, t), b, seed)) <==>
      !Mirrored(b) && means[b - b / 200 - 1] < means[b - b / 200]
  {
    hide SortedDraw, UpperEndMisses;
    RaisedDraw(means, parent, candidate, b, seed, 0.0);
    forall t ensures UpperEndMisses(parent, Raised(candidate, t), b, seed) <==>
      !Mirrored(b) && means[b - b / 200 - 1] + t < 0.0 <= means[b - b / 200] + t
    {
      RaisedDraw(means, parent, candidate, b, seed, t);
      MissedBySign(parent, Raised(candidate, t), b, seed, Raised(means, t));
    }
    if !Mirrored(b) && means[b - b / 200 - 1] < means[b - b / 200] {
      var t := -means[b - b / 200];
      assert UpperEndMisses(parent, Raised(candidate, t), b, seed);
    }
  }

  const DEFAULT_SEED: nat := 0x1337_c0d3_beef

  /** The paired bootstrap. */
  method PairedComparison(parent: seq<real>, candidate: seq<real>, resamplesCount: nat, seed: Option<Word>)
    returns (r: Result<BootstrapEstimate, string>, ghost means: seq<real>)
    ensures r.Err? <==> parent == [] || |parent| != |candidate|
    ensures r.Ok? ==> Estimates(r.value, parent, candidate, if resamplesCount > 0 then resamplesCount else DEFAULT_RESAMPLES,
                                if seed.Some? then seed.value else Truncated(DEFAULT_SEED), means)
  {
    means := [];
    var m := |parent|;
    if m == 0 || m != |candidate| {
      return Err("Invalid paired sample lengths"), means;
    }
    var diffs, sumParent, sumCandidate, sumDiff := PairUp(parent, candidate);
    var parentMean, candidateMean, deltaMean := sumParent / m as real, sumCandidate / m as real, sumDiff / m as real;
    TotalOfDifferences(parent, candidate);
    assert parentMean == Mean(parent) && candidateMean == Mean(candidate) && deltaMean == Mean(diffs);
    hide Seeded, DrawnMeans, Mean, Sorted, PValue, LowerIndex, UpperIndex, Differences, Truncated;
    var b := if resamplesCount > 0 then resamplesCount else DEFAULT_RESAMPLES;
    var sorted := SortedMeans(diffs, b, if seed.Some? then seed.value else Truncated(DEFAULT_SEED));
    assert |multiset(sorted)| == b;
    var ciLower, ciUpper, p := sorted[LowerIndex(b)], sorted[UpperIndex(b)], PValue(sorted);
    r := Ok(BootstrapEstimate(m, b, parentMean, candidateMean, deltaMean, DeltaPct(deltaMean, parentMean),
                              ciLower, ciUpper, p, p < 0.01 && (ciLower > 0.0 || ciUpper < 0.0)));
    means := sorted;
  }
}
