/** Doubles as numbers: what the checks on bit patterns mean, and what is accepted in these terms. */
module DualDoubles {
  import opened Wrappers
  import opened Bytes
  import opened DualRecords

  const FRACTION: nat := 0x10_0000_0000_0000

  function Power(n: nat): (p: nat)
    ensures p >= 1
  {
    if n == 0 then 1 else 2 * Power(n - 1)
  }

  /** The magnitude that these exponent and fraction bits stand for, in units of the least positive
      double. */
  function Magnitude(b: nat): nat {
    var e, m := b / FRACTION, b % FRACTION;
    if e == 0 then m else (FRACTION + m) * Power(e - 1)
  }

  /** The number a finite double stands for, in the same units. */
  function Value(b: nat): int {
    if b < NEGATIVE_ZERO then Magnitude(b) else 0 - Magnitude(b - NEGATIVE_ZERO)
  }

  lemma {:induction false} PowerGrows(m: nat, n: nat)
    requires m <= n
    ensures Power(m) <= Power(n)
  {
    if m < n {
      PowerGrows(m, n - 1);
    }
  }

  lemma ProductGrows(a: nat, b: nat, p: nat, q: nat)
    requires a <= b && p <= q
    ensures a * p <= b * q
  {
    assert a * p <= b * p by { assert (b - a) * p >= 0; }
    assert b * p <= b * q by { assert b * (q - p) >= 0; }
  }

  lemma ProductLess(a: nat, b: nat, p: nat)
    requires a < b && p >= 1
    ensures a * p < b * p
  {
  }

  /** The magnitudes of one exponent lie below those of the next. */
  lemma MagnitudeBounds(b: nat)
    ensures var e := b / FRACTION; Magnitude(b) < FRACTION * Power(e)
    ensures var e := b / FRACTION; e > 0 ==> FRACTION * Power(e - 1) <= Magnitude(b)
  {
    var e, m := b / FRACTION, b % FRACTION;
    if e > 0 {
      hide Power;
      var p := Power(e - 1);
      assert Power(e) == 2 * p by { DoublePower(e); }
      ProductLess(FRACTION + m, 2 * FRACTION, p);
      ProductGrows(FRACTION, FRACTION + m, p, p);
      assert 2 * FRACTION * p == FRACTION * (2 * p);
    } else {
      assert Power(0) == 1;
    }
  }

  lemma DoublePower(e: nat)
    requires e > 0
    ensures Power(e) == 2 * Power(e - 1)
  {
  }

  /** Larger bits stand for a larger magnitude. */
  lemma MagnitudeGrows(b: nat, c: nat)
    requires b < c
    ensures Magnitude(b) < Magnitude(c)
  {
    var d, e := b / FRACTION, c / FRACTION;
    assert b == FRACTION * d + b % FRACTION && c == FRACTION * e + c % FRACTION;
    if d == e {
      if e > 0 {
        ProductLess(FRACTION + b % FRACTION, FRACTION + c % FRACTION, Power(e - 1));
      }
    } else {
      assert d < e;
      hide Magnitude;
      MagnitudeBounds(b);
      MagnitudeBounds(c);
      PowerGrows(d, e - 1);
      hide Power;
      ProductGrows(FRACTION, FRACTION, Power(d), Power(e - 1));
    }
  }

  lemma ZeroMagnitude(b: nat)
    ensures Magnitude(b) == 0 <==> b == 0
  {
    assert Magnitude(0) == 0;
    if b > 0 {
      MagnitudeGrows(0, b);
    }
  }

  /** The checks on bits are the comparisons with 0.0 and 1.0. */
  lemma ChecksCompare(b: nat)
    ensures Negative(b) <==> Value(b) < 0
    ensures NotPositive(b) <==> Value(b) <= 0
    ensures AboveOne(b) <==> Value(b) > Value(ONE)
  {
    hide Magnitude;
    if b < NEGATIVE_ZERO {
      ZeroMagnitude(b);
    } else {
      ZeroMagnitude(b - NEGATIVE_ZERO);
    }
    if b < ONE {
      MagnitudeGrows(b, ONE);
    } else if b > ONE {
      MagnitudeGrows(ONE, b);
    }
  }

  /** One canonical pattern for each number, in the order of the numbers when they are not negative. */
  lemma CanonicalOrder(a: nat, b: nat)
    requires Value(a) >= 0 && Value(b) >= 0
    ensures CanonicalDouble(a) <= CanonicalDouble(b) <==> Value(a) <= Value(b)
    ensures CanonicalDouble(a) == CanonicalDouble(b) <==> Value(a) == Value(b)
  {
    hide Magnitude;
    CanonicalNumber(a);
    CanonicalNumber(b);
    var c, d := CanonicalDouble(a), CanonicalDouble(b);
    if c < d {
      MagnitudeGrows(c, d);
    } else if d < c {
      MagnitudeGrows(d, c);
    }
  }

  lemma CanonicalNumber(b: nat)
    ensures Value(CanonicalDouble(b)) == Value(b)
    ensures Value(b) >= 0 ==> CanonicalDouble(b) < NEGATIVE_ZERO
  {
    hide Magnitude;
    ZeroMagnitude(0);
    if b >= NEGATIVE_ZERO {
      ZeroMagnitude(b - NEGATIVE_ZERO);
    }
  }

  /** Neither infinite nor not a number: smaller in magnitude than the pattern of infinity. */
  ghost predicate Finite(b: nat) {
    (if b < NEGATIVE_ZERO then b else b - NEGATIVE_ZERO) < 0x7FF0_0000_0000_0000
  }

  lemma FinitePlainly(b: nat)
    requires IsDouble(b)
    ensures IsFinite(b) <==> Finite(b)
  {
    if b >= NEGATIVE_ZERO {
      assert b / FRACTION == 2048 + (b - NEGATIVE_ZERO) / FRACTION;
    }
  }

  /** Some byte is not zero. */
  ghost predicate Names(d: string) {
    exists i :: 0 <= i < |d| && d[i] as int != 0
  }

  /** Between 1 and 32 entries with strictly ascending ids. */
  ghost predicate Listing<T>(es: seq<(nat, T)>) {
    1 <= |es| <= 32 && forall i, j :: 0 <= i < j < |es| ==> es[i].0 < es[j].0
  }

  lemma {:induction false} AscendingApart<T>(es: seq<(nat, T)>, i: nat, j: nat)
    requires IdsAscending(es) && i < j < |es|
    ensures es[i].0 < es[j].0
  {
    if i + 1 < j {
      AscendingApart(es, i, j - 1);
    }
    assert es[j - 1].0 < es[j - 1 + 1].0;
  }

  lemma ListingPlainly<T>(es: seq<(nat, T)>)
    ensures es != [] && |es| <= MAX_RESOURCES && IdsAscending(es) <==> Listing(es)
  {
    if IdsAscending(es) {
      forall i, j | 0 <= i < j < |es| ensures es[i].0 < es[j].0 {
        AscendingApart(es, i, j);
      }
    }
  }

  /** What a record has to say to be accepted, with its doubles as numbers. */
  ghost predicate Acceptable(x: Record) {
    match x
    case Resource(_, unit, scale, contract) => 1 <= unit <= 15 && Finite(scale) && Value(scale) > 0 && Names(contract)
    case Constraint(_, unit, cls, budget, budgetContract, observationRef, estimateRef, estimateKind, estimate, uncertainty,
                    calibrationRef, lambda, lambdaState, controllerId, _, tick, evidenceRoot, parent) =>
      && 1 <= unit <= 15 && cls in {2, 3} && estimateKind in {1, 2, 3} && lambdaState in {1, 2, 3, 4, 5}
      && Finite(budget) && Finite(estimate) && Finite(uncertainty) && Finite(lambda) && Value(uncertainty) >= 0 && Value(lambda) >= 0
      && Names(budgetContract) && Names(estimateRef) && Names(controllerId) && Names(evidenceRoot)
      && (estimateKind == 1 ==> Names(observationRef))
      && (lambdaState == 1 ==> Names(calibrationRef))
      && (tick > 0 <==> Names(parent))
    case Controller(eta, rho, kSigma, maxAge, cadence, limits) =>
      && Finite(eta) && Finite(rho) && Finite(kSigma) && Value(eta) >= 0 && 0 <= Value(rho) <= Value(ONE) && Value(kSigma) >= 0
      && maxAge > 0 && cadence > 0 && Listing(limits)
      && (forall i :: 0 <= i < |limits| ==> Finite(limits[i].1) && Value(limits[i].1) > 0)
    case PriceVector(_, context, states) =>
      Names(context) && Listing(states) && forall i :: 0 <= i < |states| ==> Names(states[i].1)
  }

  lemma {:induction false} LimitsPlainly(es: seq<(nat, nat)>)
    requires forall i :: 0 <= i < |es| ==> IsDouble(es[i].1)
    ensures CheckLimits(es).None? <==> forall i :: 0 <= i < |es| ==> Finite(es[i].1) && Value(es[i].1) > 0
  {
    hide IsFinite, Finite, Value, NotPositive;
    if es != [] {
      FinitePlainly(es[0].1);
      ChecksCompare(es[0].1);
      LimitsPlainly(es[1..]);
      assert forall i :: 1 <= i < |es| ==> es[i] == es[1..][i - 1];
    }
  }

  /** Exactly these records pass the checks. */
  lemma AcceptedExactly(x: Record)
    requires InRange(x)
    ensures Check(x).None? <==> Acceptable(x)
  {
    hide IsFinite, Finite, Value, Negative, NotPositive, AboveOne, CheckLimits, IdsAscending, Listing;
    match x
    case Resource(_, _, scale, _) =>
      FinitePlainly(scale);
      ChecksCompare(scale);
    case Constraint(_, _, _, budget, _, _, _, _, estimate, uncertainty, _, lambda, _, _, _, _, _, _) =>
      FinitePlainly(budget);
      FinitePlainly(estimate);
      FinitePlainly(uncertainty);
      FinitePlainly(lambda);
      ChecksCompare(uncertainty);
      ChecksCompare(lambda);
    case Controller(eta, rho, kSigma, _, _, limits) =>
      FinitePlainly(eta);
      FinitePlainly(rho);
      FinitePlainly(kSigma);
      ChecksCompare(eta);
      ChecksCompare(rho);
      ChecksCompare(kSigma);
      ListingPlainly(limits);
      LimitsPlainly(limits);
    case PriceVector(_, _, states) =>
      ListingPlainly(states);
  }
}
