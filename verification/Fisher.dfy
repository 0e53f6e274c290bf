/** Fisher's exact test on a two-by-two table in exact arithmetic: the logarithms of factorials of
    the source become factorials, their sums and differences products and quotients. */
module Fisher {
  import opened Wrappers

  function Fact(n: nat): (f: nat)
    ensures f >= 1
  {
    if n == 0 then 1 else
      Grows(n, Fact(n - 1));
      n * Fact(n - 1)
  }

  lemma Grows(n: nat, f: nat)
    requires n >= 1 && f >= 1
    ensures n * f >= 1
  {
  }

  function Choose(n: nat, k: nat): nat {
    if k == 0 then 1 else if n == 0 then 0 else Choose(n - 1, k - 1) + Choose(n - 1, k)
  }

  lemma {:induction false} ChooseBeyond(n: nat, k: nat)
    requires n < k
    ensures Choose(n, k) == 0
  {
    if n > 0 {
      ChooseBeyond(n - 1, k - 1);
      ChooseBeyond(n - 1, k);
    }
  }

  lemma {:induction false} ChooseFact(n: nat, k: nat)
    requires k <= n
    ensures Choose(n, k) * (Fact(k) * Fact(n - k)) == Fact(n)
    ensures Choose(n, k) >= 1
  {
    if k == 0 {
    } else if k == n {
      ChooseBeyond(n - 1, n);
      ChooseFact(n - 1, n - 1);
    } else {
      ChooseFact(n - 1, k - 1);
      ChooseFact(n - 1, k);
      PascalStep(Choose(n - 1, k - 1), Choose(n - 1, k), k, n - k, Fact(k - 1), Fact(n - k - 1), Fact(n - 1));
    }
  }

  lemma PascalStep(a: nat, b: nat, k: nat, j: nat, fk: nat, fj: nat, f: nat)
    requires a * (fk * (j * fj)) == f && b * ((k * fk) * fj) == f
    ensures (a + b) * ((k * fk) * (j * fj)) == (k + j) * f
  {
    calc {
      (a + b) * ((k * fk) * (j * fj));
      a * ((k * fk) * (j * fj)) + b * ((k * fk) * (j * fj));
      { Rotate(a, k, fk, j * fj); Rotate(b, j, fj, k * fk); assert (k * fk) * (j * fj) == (j * fj) * (k * fk); }
      k * (a * (fk * (j * fj))) + j * (b * (fj * (k * fk)));
      { assert fj * (k * fk) == (k * fk) * fj; }
      k * f + j * f;
    }
  }

  lemma Rotate(a: nat, k: nat, x: nat, y: nat)
    ensures a * ((k * x) * y) == k * (a * (x * y))
  {
    assert (k * x) * y == k * (x * y);
    assert a * (k * (x * y)) == k * (a * (x * y));
  }

  /** Ways to draw c from a first group of m and a second group of n, at most k - 1 of them from
      the first. */
  function Draws(m: nat, n: nat, c: nat, k: nat): nat
    requires k <= c + 1
  {
    if k == 0 then 0 else Draws(m, n, c, k - 1) + Choose(m, k - 1) * Choose(n, c - (k - 1))
  }

  lemma {:induction false} DrawsFromEmpty(n: nat, c: nat, k: nat)
    requires 1 <= k <= c + 1
    ensures Draws(0, n, c, k) == Choose(n, c)
  {
    if k > 1 {
      DrawsFromEmpty(n, c, k - 1);
    }
  }

  lemma {:induction false} DrawsStep(m: nat, n: nat, c: nat, k: nat)
    requires 1 <= k <= c + 1
    ensures Draws(m + 1, n, c, k) == Draws(m, n, c, k) + if c == 0 then 0 else Draws(m, n, c - 1, k - 1)
  {
    if k > 1 {
      DrawsStep(m, n, c, k - 1);
      var x := Choose(n, c - (k - 1));
      assert Choose(m + 1, k - 1) == Choose(m, k - 2) + Choose(m, k - 1);
      Distribute(Choose(m, k - 2), Choose(m, k - 1), x);
      assert Draws(m, n, c - 1, k - 1) == Draws(m, n, c - 1, k - 2) + Choose(m, k - 2) * x;
    }
  }

  lemma Distribute(a: nat, b: nat, x: nat)
    ensures (a + b) * x == a * x + b * x
  {
  }

  /** Vandermonde's identity. */
  lemma {:induction false} Vandermonde(m: nat, n: nat, c: nat)
    ensures Draws(m, n, c, c + 1) == Choose(m + n, c)
    decreases m
  {
    if m == 0 {
      DrawsFromEmpty(n, c, c + 1);
    } else {
      DrawsStep(m - 1, n, c, c + 1);
      Vandermonde(m - 1, n, c);
      if c > 0 { Vandermonde(m - 1, n, c - 1); }
    }
  }

  /** The margins of a table: row sums r1 and r2, first column sum c1. */
  datatype Margins = Margins(r1: nat, r2: nat, c1: nat) {
    predicate Fit() {
      c1 <= r1 + r2
    }

    function Low(): nat {
      if c1 > r2 then c1 - r2 else 0
    }

    function High(): nat {
      if r1 < c1 then r1 else c1
    }

    predicate Possible(k: int) {
      Low() <= k <= High()
    }
  }

  /** The probability of k in the upper left cell, from factorials as the source computes it. */
  function Prob(m: Margins, k: nat): (p: real)
    requires m.Fit() && m.Possible(k)
  {
    Quotient(Fact(m.r1), Fact(m.r2), Fact(m.c1), Fact(m.r1 + m.r2 - m.c1), Fact(m.r1 + m.r2),
             Fact(k), Fact(m.r1 - k), Fact(m.c1 - k), Fact(m.r2 - (m.c1 - k)))
  }

  function Quotient(a: nat, b: nat, c: nat, d: nat, n: nat, x1: nat, x2: nat, y1: nat, y2: nat): real {
    if n == 0 || x1 == 0 || x2 == 0 || y1 == 0 || y2 == 0 then 0.0 else
      RealQuotient(a as real, b as real, c as real, d as real, n as real, x1 as real, x2 as real, y1 as real, y2 as real)
  }

  function RealQuotient(a: real, b: real, c: real, d: real, n: real, x1: real, x2: real, y1: real, y2: real): real
    requires n != 0.0 && x1 != 0.0 && x2 != 0.0 && y1 != 0.0 && y2 != 0.0
  {
    Fraction(a * b * c * d, n, x1, x2, y1, y2)
  }

  function Fraction(v: real, n: real, x1: real, x2: real, y1: real, y2: real): real
    requires n != 0.0 && x1 != 0.0 && x2 != 0.0 && y1 != 0.0 && y2 != 0.0
  {
    v / n / x1 / x2 / y1 / y2
  }

  function Weight(m: Margins, k: int): nat {
    if 0 <= k <= m.c1 then Choose(m.r1, k) * Choose(m.r2, m.c1 - k) else 0
  }

  function Share(w: nat, total: nat): real {
    if total == 0 then 0.0 else w as real / total as real
  }

  lemma Cancel(a: nat, b: nat, z1: nat, z2: nat, n: nat, x1: nat, x2: nat, y1: nat, y2: nat, p: nat, q: nat, t: nat)
    requires a == p * (x1 * x2) && b == q * (y1 * y2) && n == t * (z1 * z2)
    requires x1 >= 1 && x2 >= 1 && y1 >= 1 && y2 >= 1 && z1 >= 1 && z2 >= 1 && t >= 1 && n >= 1
    ensures Quotient(a, b, z1, z2, n, x1, x2, y1, y2) == Share(p * q, t)
  {
    RealProducts(p, x1, x2);
    RealProducts(q, y1, y2);
    RealProducts(t, z1, z2);
    assert (p * q) as real == p as real * q as real;
    CancelReal(a as real, b as real, z1 as real, z2 as real, n as real, x1 as real, x2 as real,
               y1 as real, y2 as real, p as real, q as real, t as real);
  }

  lemma RealProducts(p: nat, x: nat, y: nat)
    ensures (p * (x * y)) as real == p as real * (x as real * y as real)
  {
    assert (x * y) as real == x as real * y as real;
    assert (p * (x * y)) as real == p as real * (x * y) as real;
  }

  lemma CancelReal(a: real, b: real, z1: real, z2: real, n: real, x1: real, x2: real, y1: real, y2: real, p: real, q: real, t: real)
    requires a == p * (x1 * x2) && b == q * (y1 * y2) && n == t * (z1 * z2)
    requires x1 >= 1.0 && x2 >= 1.0 && y1 >= 1.0 && y2 >= 1.0 && z1 >= 1.0 && z2 >= 1.0 && t >= 1.0 && n >= 1.0
    ensures RealQuotient(a, b, z1, z2, n, x1, x2, y1, y2) == p * q / t
  {
    var r := p * q / t;
    assert r * t == p * q;
    var x, y, z := x1 * x2, y1 * y2, z1 * z2;
    var v := a * b * z1 * z2;
    assert v == (r * n) * (x * y) by {
      Regroup(p, x, q, y, z1, z2);
      assert (p * q) * z == r * (t * z);
    }
    var w4 := r * y2;
    var w3 := w4 * y1;
    var w2 := w3 * x2;
    var w1 := w2 * x1;
    Spread(r, n, x1, x2, y1, y2, w1, w2, w3, w4, v);
    FractionIs(v, n, x1, x2, y1, y2, w1, w2, w3, w4, r);
    Conclude(a, b, z1, z2, n, x1, x2, y1, y2, v, r);
  }

  lemma Conclude(a: real, b: real, z1: real, z2: real, n: real, x1: real, x2: real, y1: real, y2: real, v: real, r: real)
    requires n != 0.0 && x1 != 0.0 && x2 != 0.0 && y1 != 0.0 && y2 != 0.0
    requires v == a * b * z1 * z2 && Fraction(v, n, x1, x2, y1, y2) == r
    ensures RealQuotient(a, b, z1, z2, n, x1, x2, y1, y2) == r
  {
  }

  lemma FractionIs(v: real, n: real, x1: real, x2: real, y1: real, y2: real, w1: real, w2: real, w3: real, w4: real, r: real)
    requires n >= 1.0 && x1 >= 1.0 && x2 >= 1.0 && y1 >= 1.0 && y2 >= 1.0
    requires v == w1 * n && w1 == w2 * x1 && w2 == w3 * x2 && w3 == w4 * y1 && w4 == r * y2
    ensures Fraction(v, n, x1, x2, y1, y2) == r
  {
    Undo(v, w1, n);
    Undo(w1, w2, x1);
    Undo(w2, w3, x2);
    Undo(w3, w4, y1);
    Undo(w4, r, y2);
  }

  lemma Regroup(p: real, x: real, q: real, y: real, z1: real, z2: real)
    ensures (p * x) * (q * y) * z1 * z2 == (p * q) * (z1 * z2) * (x * y)
  {
    assert (p * x) * (q * y) == (p * q) * (x * y);
    assert (p * q) * (x * y) * z1 * z2 == (p * q) * (x * y) * (z1 * z2);
  }

  lemma Spread(r: real, n: real, x1: real, x2: real, y1: real, y2: real, w1: real, w2: real, w3: real, w4: real, v: real)
    requires w4 == r * y2 && w3 == w4 * y1 && w2 == w3 * x2 && w1 == w2 * x1
    requires v == (r * n) * ((x1 * x2) * (y1 * y2))
    ensures v == w1 * n
  {
    var y, x := y1 * y2, x1 * x2;
    assert w3 == r * y;
    assert w1 == w3 * x by { assert (w3 * x2) * x1 == w3 * (x1 * x2); }
    assert w1 == r * (x * y) by { assert (r * y) * x == r * (x * y); }
    assert (r * n) * (x * y) == (r * (x * y)) * n;
  }

  lemma Undo(v: real, r: real, x: real)
    requires x >= 1.0 && v == r * x
    ensures v / x == r
  {
  }

  /** The factorial form is the share of the drawings that put k in the first group. */
  lemma ProbIsShare(m: Margins, k: nat)
    requires m.Fit() && m.Possible(k)
    ensures Prob(m, k) == Share(Weight(m, k), Choose(m.r1 + m.r2, m.c1))
    ensures Prob(m, k) > 0.0
  {
    ChooseFact(m.r1, k);
    ChooseFact(m.r2, m.c1 - k);
    ChooseFact(m.r1 + m.r2, m.c1);
    Cancel(Fact(m.r1), Fact(m.r2), Fact(m.c1), Fact(m.r1 + m.r2 - m.c1), Fact(m.r1 + m.r2),
           Fact(k), Fact(m.r1 - k), Fact(m.c1 - k), Fact(m.r2 - (m.c1 - k)),
           Choose(m.r1, k), Choose(m.r2, m.c1 - k), Choose(m.r1 + m.r2, m.c1));
    Grows(Choose(m.r1, k), Choose(m.r2, m.c1 - k));
  }

  /** Sum of f over lo <= k < hi. */
  ghost function RangeSum(f: int -> real, lo: int, hi: int): real
    decreases hi - lo
  {
    if hi <= lo then 0.0 else RangeSum(f, lo, hi - 1) + f(hi - 1)
  }

  lemma {:induction false} RangeSplit(f: int -> real, lo: int, mid: int, hi: int)
    requires lo <= mid <= hi
    ensures RangeSum(f, lo, hi) == RangeSum(f, lo, mid) + RangeSum(f, mid, hi)
    decreases hi - mid
  {
    if mid < hi { RangeSplit(f, lo, mid, hi - 1); }
  }

  lemma {:induction false} RangeZero(f: int -> real, lo: int, hi: int)
    requires forall k :: lo <= k < hi ==> f(k) == 0.0
    ensures RangeSum(f, lo, hi) == 0.0
    decreases hi - lo
  {
    if lo < hi { RangeZero(f, lo, hi - 1); }
  }

  lemma {:induction false} RangeLeq(f: int -> real, g: int -> real, lo: int, hi: int)
    requires forall k :: lo <= k < hi ==> f(k) <= g(k)
    ensures RangeSum(f, lo, hi) <= RangeSum(g, lo, hi)
    decreases hi - lo
  {
    if lo < hi { RangeLeq(f, g, lo, hi - 1); }
  }

  /** Summing backwards. */
  lemma {:induction false} RangeReverse(f: int -> real, g: int -> real, s: int, lo: int, hi: int)
    requires lo <= hi
    requires forall k :: lo <= k < hi ==> f(k) == g(s - k)
    ensures RangeSum(f, lo, hi) == RangeSum(g, s - hi + 1, s - lo + 1)
    decreases hi - lo
  {
    if lo < hi {
      RangeReverse(f, g, s, lo, hi - 1);
      RangeSplit(g, s - hi + 1, s - hi + 2, s - lo + 1);
      assert RangeSum(g, s - hi + 1, s - hi + 1) == 0.0;
    }
  }

  /** The hypergeometric distribution on all integers; 0 where no table has these margins. */
  ghost function P(m: Margins): int -> real {
    k => Share(Weight(m, k), Choose(m.r1 + m.r2, m.c1))
  }

  lemma ImpossibleIsZero(m: Margins, k: int)
    requires m.Fit() && !m.Possible(k)
    ensures P(m)(k) == 0.0
  {
    if 0 <= k <= m.c1 {
      if k > m.r1 { ChooseBeyond(m.r1, k); } else { ChooseBeyond(m.r2, m.c1 - k); }
    }
  }

  lemma {:induction false} DrawsAsSum(m: Margins, k: nat)
    requires m.Fit() && k <= m.c1 + 1
    ensures RangeSum(P(m), 0, k) == Share(Draws(m.r1, m.r2, m.c1, k), Choose(m.r1 + m.r2, m.c1))
  {
    ChooseFact(m.r1 + m.r2, m.c1);
    if k > 0 {
      DrawsAsSum(m, k - 1);
      ShareAdds(Draws(m.r1, m.r2, m.c1, k - 1), Weight(m, k - 1), Choose(m.r1 + m.r2, m.c1));
    }
  }

  lemma ShareAdds(a: nat, b: nat, t: nat)
    requires t >= 1
    ensures Share(a + b, t) == Share(a, t) + Share(b, t)
  {
  }

  lemma ShareWhole(t: nat)
    requires t >= 1
    ensures Share(t, t) == 1.0
  {
  }

  lemma AllDraws(m: Margins)
    requires m.Fit()
    ensures RangeSum(P(m), 0, m.c1 + 1) == 1.0
  {
    DrawsAsSum(m, m.c1 + 1);
    Vandermonde(m.r1, m.r2, m.c1);
    ChooseFact(m.r1 + m.r2, m.c1);
    ShareWhole(Choose(m.r1 + m.r2, m.c1));
  }

  /** The probabilities over the tables the loop visits add up to one. */
  lemma TotalProbability(m: Margins)
    requires m.Fit()
    ensures m.Low() <= m.High()
    ensures RangeSum(P(m), m.Low(), m.High() + 1) == 1.0
  {
    AllDraws(m);
    var f := P(m);
    RangeSplit(f, 0, m.Low(), m.c1 + 1);
    RangeSplit(f, m.Low(), m.High() + 1, m.c1 + 1);
    forall k | 0 <= k < m.Low() || m.High() < k <= m.c1 ensures f(k) == 0.0 { ImpossibleIsZero(m, k); }
    RangeZero(f, 0, m.Low());
    RangeZero(f, m.High() + 1, m.c1 + 1);
  }

  ghost function Greater(m: Margins, a: nat): real {
    RangeSum(P(m), m.Low(), a + 1)
  }

  ghost function Less(m: Margins, a: nat): real {
    RangeSum(P(m), a, m.High() + 1)
  }

  /** Tables at most as likely as the observed one, up to the source's relative slack of 1e-7. */
  ghost function AtMostAsLikely(m: Margins, a: nat): int -> real {
    k => if P(m)(k) <= WithSlack(P(m)(a)) then P(m)(k) else 0.0
  }

  function WithSlack(p: real): real {
    p * 1.0000001
  }

  ghost function TwoSided(m: Margins, a: nat): real {
    RangeSum(AtMostAsLikely(m, a), m.Low(), m.High() + 1)
  }

  lemma ShareNonNegative(m: Margins, k: int)
    ensures P(m)(k) >= 0.0
  {
  }

  lemma RangeNonNegative(f: int -> real, lo: int, hi: int)
    requires forall k :: lo <= k < hi ==> 0.0 <= f(k)
    ensures 0.0 <= RangeSum(f, lo, hi)
  {
    var zero := (k: int) => 0.0;
    RangeLeq(zero, f, lo, hi);
    RangeZero(zero, lo, hi);
  }

  /** Cutting a nonnegative sum at a position that both parts include. */
  lemma Tails(f: int -> real, lo: int, a: int, hi: int)
    requires lo <= a < hi && forall k :: 0.0 <= f(k)
    ensures RangeSum(f, lo, a + 1) + RangeSum(f, a, hi) == RangeSum(f, lo, hi) + f(a)
    ensures f(a) <= RangeSum(f, lo, a + 1) <= RangeSum(f, lo, hi)
    ensures f(a) <= RangeSum(f, a, hi) <= RangeSum(f, lo, hi)
  {
    RangeSplit(f, lo, a, hi);
    RangeSplit(f, a, a + 1, hi);
    RangeNonNegative(f, lo, a);
    RangeNonNegative(f, a + 1, hi);
    assert RangeSum(f, a, a) == 0.0;
  }

  /** The two tails overlap in exactly the observed table, and every p-value lies between the
      probability of that table and one: cutting off at one never changes anything. */
  lemma PValues(m: Margins, a: nat)
    requires m.Fit() && m.Possible(a)
    ensures Greater(m, a) + Less(m, a) == 1.0 + Prob(m, a)
    ensures 0.0 < Prob(m, a) <= TwoSided(m, a) <= 1.0
    ensures Prob(m, a) <= Greater(m, a) <= 1.0 && Prob(m, a) <= Less(m, a) <= 1.0
  {
    var f, g := P(m), AtMostAsLikely(m, a);
    ProbIsShare(m, a);
    TotalProbability(m);
    forall k ensures 0.0 <= f(k) { ShareNonNegative(m, k); }
    Tails(f, m.Low(), a, m.High() + 1);
    assert f(a) <= WithSlack(f(a));
    Tails(g, m.Low(), a, m.High() + 1);
    RangeLeq(g, f, m.Low(), m.High() + 1);
  }

  /** The probability of k if it is more likely than the observed table by more than one part in ten
      million. */
  ghost function MoreLikely(m: Margins, a: nat): int -> real
    requires m.Fit() && m.Possible(a)
  {
    k => if m.Possible(k) && 10000000.0 * Prob(m, k) > 10000001.0 * Prob(m, a) then Prob(m, k) else 0.0
  }

  lemma {:induction false} RangeAdd(f: int -> real, g: int -> real, h: int -> real, lo: int, hi: int)
    requires forall k :: lo <= k < hi ==> f(k) + g(k) == h(k)
    ensures RangeSum(f, lo, hi) + RangeSum(g, lo, hi) == RangeSum(h, lo, hi)
    decreases hi - lo
  {
    if lo < hi { RangeAdd(f, g, h, lo, hi - 1); }
  }

  /** The two-sided p-value leaves out exactly the tables that are more likely than the observed one. */
  lemma TwoSidedLeavesOut(m: Margins, a: nat)
    requires m.Fit() && m.Possible(a)
    ensures TwoSided(m, a) + RangeSum(MoreLikely(m, a), m.Low(), m.High() + 1) == 1.0
  {
    hide Prob, Share, Weight, Choose, RangeSum;
    ProbIsShare(m, a);
    forall k | m.Low() <= k < m.High() + 1 ensures AtMostAsLikely(m, a)(k) + MoreLikely(m, a)(k) == P(m)(k) {
      ProbIsShare(m, k);
    }
    RangeAdd(AtMostAsLikely(m, a), MoreLikely(m, a), P(m), m.Low(), m.High() + 1);
    TotalProbability(m);
  }

  lemma SlackGrows(p: real, q: real)
    requires p <= q
    ensures WithSlack(p) <= WithSlack(q)
  {
  }

  /** A likelier table has no smaller two-sided p-value. */
  lemma TwoSidedGrows(m: Margins, a: nat, b: nat)
    requires m.Fit() && m.Possible(a) && m.Possible(b) && Prob(m, a) <= Prob(m, b)
    ensures TwoSided(m, a) <= TwoSided(m, b)
  {
    hide Prob, Share, Weight, Choose, RangeSum;
    ProbIsShare(m, a);
    ProbIsShare(m, b);
    var pa, pb := P(m)(a), P(m)(b);
    assert pa == Prob(m, a) && pb == Prob(m, b);
    SlackGrows(pa, pb);
    hide WithSlack;
    forall k | m.Low() <= k < m.High() + 1 ensures AtMostAsLikely(m, a)(k) <= AtMostAsLikely(m, b)(k) {
      ProbIsShare(m, k);
      var p := P(m)(k);
      assert p == Prob(m, k) > 0.0;
      assert AtMostAsLikely(m, a)(k) == if p <= WithSlack(pa) then p else 0.0;
      assert AtMostAsLikely(m, b)(k) == if p <= WithSlack(pb) then p else 0.0;
    }
    RangeLeq(AtMostAsLikely(m, a), AtMostAsLikely(m, b), m.Low(), m.High() + 1);
  }

  /** The more the parent succeeded, the larger the tail up to it and the smaller the tail from it. */
  lemma OneSidedOrder(m: Margins, a: nat, b: nat)
    requires m.Fit() && m.Possible(a) && m.Possible(b) && a < b
    ensures Greater(m, a) < Greater(m, b) && Less(m, b) < Less(m, a)
    ensures Greater(m, m.High()) == 1.0 && Less(m, m.Low()) == 1.0
  {
    var f := P(m);
    forall k ensures 0.0 <= f(k) { ShareNonNegative(m, k); }
    ProbIsShare(m, a);
    ProbIsShare(m, b);
    TotalProbability(m);
    hide P;
    RangeSplit(f, m.Low(), a + 1, b);
    RangeSplit(f, a, a + 1, b);
    RangeSplit(f, a, b, m.High() + 1);
    RangeNonNegative(f, a + 1, b);
    assert RangeSum(f, m.Low(), b + 1) == RangeSum(f, m.Low(), b) + f(b);
    assert RangeSum(f, a, a + 1) == RangeSum(f, a, a) + f(a);
  }

  lemma ExchangedTerm(m: Margins, k: int)
    ensures P(Margins(m.r2, m.r1, m.c1))(m.c1 - k) == P(m)(k)
  {
    assert Weight(Margins(m.r2, m.r1, m.c1), m.c1 - k) == Weight(m, k);
  }

  lemma ExchangedLikely(m: Margins, a: nat, s: Margins, c: nat, k: int)
    requires s == Margins(m.r2, m.r1, m.c1) && a <= m.c1 && c == m.c1 - a
    ensures AtMostAsLikely(s, c)(m.c1 - k) == AtMostAsLikely(m, a)(k)
  {
    ExchangedTerm(m, k);
    ExchangedTerm(m, a);
  }

  lemma ExchangedRange(m: Margins, a: nat, s: Margins, c: nat)
    requires m.Fit() && m.Possible(a)
    requires s == Margins(m.r2, m.r1, m.c1) && c == m.c1 - a
    ensures s.Fit() && s.Possible(c) && s.Low() == m.c1 - m.High() && s.High() == m.c1 - m.Low()
  {
  }

  /** Exchanging parent and candidate exchanges the one-sided p-values. */
  lemma ExchangeRows(m: Margins, a: nat, s: Margins, c: nat)
    requires m.Fit() && m.Possible(a)
    requires s == Margins(m.r2, m.r1, m.c1) && c == m.c1 - a
    ensures s.Fit() && s.Possible(c)
    ensures Greater(s, c) == Less(m, a) && Less(s, c) == Greater(m, a)
  {
    hide Prob, Share, Weight;
    ExchangedRange(m, a, s, c);
    var f, fs := P(m), P(s);
    forall k ensures fs(m.c1 - k) == f(k) { ExchangedTerm(m, k); }
    RangeReverse(f, fs, m.c1, a, m.High() + 1);
    RangeReverse(f, fs, m.c1, m.Low(), a + 1);
  }

  /** Exchanging parent and candidate keeps the two-sided p-value. */
  lemma ExchangeRowsTwoSided(m: Margins, a: nat, s: Margins, c: nat)
    requires m.Fit() && m.Possible(a)
    requires s == Margins(m.r2, m.r1, m.c1) && c == m.c1 - a
    ensures TwoSided(s, c) == TwoSided(m, a)
  {
    ExchangedRange(m, a, s, c);
    var g, gs := AtMostAsLikely(m, a), AtMostAsLikely(s, c);
    forall k ensures gs(m.c1 - k) == g(k) { ExchangedLikely(m, a, s, c, k); }
    RangeReverse(g, gs, m.c1, m.Low(), m.High() + 1);
  }

  datatype FishersResult = FishersResult(
    parentSuccesses: nat, parentFailures: nat, candidateSuccesses: nat, candidateFailures: nat,
    parentRate: real, candidateRate: real,
    pTwoSided: real, pGreater: real, pLess: real, isSignificant: bool)

  function Rate(successes: nat, total: nat): real {
    if total > 0 then successes as real / total as real else 0.0
  }

  /** A rate times the number of trials gives back the successes. */
  lemma RateTimesTotal(successes: nat, total: nat)
    requires successes <= total
    ensures Rate(successes, total) * total as real == successes as real && 0.0 <= Rate(successes, total) <= 1.0
    ensures total == 0 ==> Rate(successes, total) == 0.0
  {
    if total > 0 {
      var q := successes as real / total as real;
      assert q * total as real == successes as real;
    }
  }

  function AtMostOne(p: real): real {
    if p < 1.0 then p else 1.0
  }

  lemma FactStart()
    ensures Fact(0) == 1 && Fact(1) == 1
  {
  }

  lemma FactStep(n: nat)
    requires n >= 1
    ensures Fact(n) == n * Fact(n - 1)
  {
  }

  /** The probability of k from a table of factorials up to n. */
  function TableProb(fact: seq<nat>, m: Margins, k: nat): (p: real)
    requires m.Fit() && m.Possible(k)
    requires |fact| == m.r1 + m.r2 + 1 && forall i :: 0 <= i < |fact| ==> fact[i] == Fact(i)
    ensures p == Prob(m, k)
  {
    Quotient(fact[m.r1], fact[m.r2], fact[m.c1], fact[m.r1 + m.r2 - m.c1], fact[m.r1 + m.r2],
             fact[k], fact[m.r1 - k], fact[m.c1 - k], fact[m.r2 - (m.c1 - k)])
  }

  method FactorialTable(n: nat) returns (fact: seq<nat>)
    ensures |fact| == n + 1 && forall i :: 0 <= i < |fact| ==> fact[i] == Fact(i)
  {
    FactStart();
    hide Fact;
    var table := new nat[n + 1](_ => 1);
    var i := 2;
    while i <= n
      invariant 2 <= i && (n >= 1 ==> i <= n + 1)
      invariant forall j :: 0 <= j < i && j <= n ==> table[j] == Fact(j)
    {
      FactStep(i);
      table[i] := i * table[i - 1];
      i := i + 1;
    }
    fact := table[..];
  }

  /** One pass over all tables with the given margins, adding up the three p-values. */
  method Accumulate(fact: seq<nat>, m: Margins, a: nat) returns (pTwoSided: real, pGreater: real, pLess: real)
    requires m.Fit() && m.Possible(a)
    requires |fact| == m.r1 + m.r2 + 1 && forall i :: 0 <= i < |fact| ==> fact[i] == Fact(i)
    ensures pTwoSided == TwoSided(m, a) && pGreater == Greater(m, a) && pLess == Less(m, a)
  {
    var maxK, minK := m.High(), m.Low();
    var pObs := TableProb(fact, m, a);
    ProbIsShare(m, a);
    ghost var f, g := P(m), AtMostAsLikely(m, a);
    pTwoSided, pGreater, pLess := 0.0, 0.0, 0.0;
    for k := minK to maxK + 1
      invariant pTwoSided == RangeSum(g, minK, k)
      invariant pGreater == RangeSum(f, minK, if k <= a then k else a + 1)
      invariant pLess == RangeSum(f, a, k)
    {
      var p := TableProb(fact, m, k);
      ProbIsShare(m, k);
      assert p == f(k);
      if p <= WithSlack(pObs) {
        pTwoSided := pTwoSided + p;
      }
      if k <= a {
        pGreater := pGreater + p;
      }
      if k >= a {
        pLess := pLess + p;
      }
    }
  }

  /** Fisher's exact test. */
  method FishersExactTest(parentSuccesses: nat, parentFailures: nat, candidateSuccesses: nat, candidateFailures: nat)
    returns (r: Result<FishersResult, string>)
    ensures r.Err? <==> parentSuccesses + parentFailures + candidateSuccesses + candidateFailures == 0
    ensures r.Ok? ==>
      var m := Margins(parentSuccesses + parentFailures, candidateSuccesses + candidateFailures, parentSuccesses + candidateSuccesses);
      var f := r.value;
      && m.Fit() && m.Possible(parentSuccesses)
      && f.parentSuccesses == parentSuccesses && f.parentFailures == parentFailures
      && f.candidateSuccesses == candidateSuccesses && f.candidateFailures == candidateFailures
      && f.pTwoSided == TwoSided(m, parentSuccesses)
      && f.pGreater == Greater(m, parentSuccesses) && f.pLess == Less(m, parentSuccesses)
      && (f.isSignificant <==> f.pTwoSided < 0.05)
      && f.parentRate == Rate(parentSuccesses, m.r1) && f.candidateRate == Rate(candidateSuccesses, m.r2)
  {
    var r1, r2 := parentSuccesses + parentFailures, candidateSuccesses + candidateFailures;
    if r1 + r2 == 0 {
      return Err("Total observations in contingency table cannot be zero");
    }
    var m := Margins(r1, r2, parentSuccesses + candidateSuccesses);
    var fact := FactorialTable(r1 + r2);
    var pTwoSided, pGreater, pLess := Accumulate(fact, m, parentSuccesses);
    PValues(m, parentSuccesses);
    r := Ok(FishersResult(
      parentSuccesses, parentFailures, candidateSuccesses, candidateFailures,
      Rate(parentSuccesses, r1), Rate(candidateSuccesses, r2),
      AtMostOne(pTwoSided), AtMostOne(pGreater), AtMostOne(pLess), AtMostOne(pTwoSided) < 0.05));
  }
}
