/** The binary records of the DUAL format: layout, checks, canonical form. A double is its IEEE 754
    binary64 bit pattern, a digest is 32 raw bytes, an enum is its wire number. */
module DualRecords {
  import opened Wrappers
  import opened Bytes

  const U32_LIMIT: nat := 0x1_0000_0000
  const NEGATIVE_ZERO: nat := 0x8000_0000_0000_0000
  const ONE: nat := 0x3FF0_0000_0000_0000
  const MAX_RESOURCES := 32
  const FORMAT_VERSION := 1

  datatype Refusal = NonFinite | BadUnit | BadClass | Scale | Range | BadKind | Encoding | BadResource | BadDigest | Generation | Calibration

  datatype Kind = ResourceKind | ConstraintKind | ControllerKind | PriceVectorKind {
    function Number(): (n: nat)
      ensures 1 <= n <= 4
    {
      match this
      case ResourceKind => 1
      case ConstraintKind => 2
      case ControllerKind => 3
      case PriceVectorKind => 4
    }
  }

  /** A record as it stands on the wire, before or after its checks. */
  datatype Record =
    | Resource(resourceId: nat, unit: nat, scale: nat, contract: string)
    | Constraint(resourceId: nat, unit: nat, cls: nat, budget: nat, budgetContract: string, observationRef: string,
                 estimateRef: string, estimateKind: nat, estimate: nat, uncertainty: nat, calibrationRef: string,
                 lambda: nat, lambdaState: nat, controllerId: string, generation: nat, tick: nat,
                 evidenceRoot: string, parent: string)
    | Controller(eta: nat, rho: nat, kSigma: nat, maxAge: nat, cadence: nat, limits: seq<(nat, nat)>)
    | PriceVector(generation: nat, context: string, states: seq<(nat, string)>)
  {
    function Kind(): Kind {
      match this
      case Resource(_, _, _, _) => ResourceKind
      case Constraint(_, _, _, _, _, _, _, _, _, _, _, _, _, _, _, _, _, _) => ConstraintKind
      case Controller(_, _, _, _, _, _) => ControllerKind
      case PriceVector(_, _, _) => PriceVectorKind
    }
  }

  predicate IsDouble(b: nat) {
    b < U64_LIMIT
  }

  /** The exponent is not all ones. */
  predicate IsFinite(b: nat) {
    b / 0x10_0000_0000_0000 % 2048 != 2047
  }

  /** For finite doubles: below 0.0, at most 0.0, above 1.0. */
  predicate Negative(b: nat) {
    b > NEGATIVE_ZERO
  }

  predicate NotPositive(b: nat) {
    b == 0 || b >= NEGATIVE_ZERO
  }

  predicate AboveOne(b: nat) {
    ONE < b < NEGATIVE_ZERO
  }

  /** Both zeros are written as +0.0. */
  function CanonicalDouble(b: nat): nat {
    if b == NEGATIVE_ZERO then 0 else b
  }

  predicate IsDigest32(d: string) {
    |d| == 32 && IsBytes(d)
  }

  predicate IsAbsent(d: string) {
    forall i :: 0 <= i < |d| ==> d[i] == 0 as char
  }

  /** The machine types of the fields. */
  ghost predicate InRange(x: Record) {
    match x
    case Resource(id, unit, scale, contract) =>
      id < U32_LIMIT && unit < U32_LIMIT && IsDouble(scale) && IsDigest32(contract)
    case Constraint(id, unit, cls, budget, budgetContract, observationRef, estimateRef, estimateKind, estimate, uncertainty,
                    calibrationRef, lambda, lambdaState, controllerId, generation, tick, evidenceRoot, parent) =>
      && id < U32_LIMIT && unit < U32_LIMIT && cls < U32_LIMIT && estimateKind < U32_LIMIT && lambdaState < U32_LIMIT
      && IsDouble(budget) && IsDouble(estimate) && IsDouble(uncertainty) && IsDouble(lambda)
      && generation < U64_LIMIT && tick < U64_LIMIT
      && IsDigest32(budgetContract) && IsDigest32(observationRef) && IsDigest32(estimateRef) && IsDigest32(calibrationRef)
      && IsDigest32(controllerId) && IsDigest32(evidenceRoot) && IsDigest32(parent)
    case Controller(eta, rho, kSigma, maxAge, cadence, limits) =>
      && IsDouble(eta) && IsDouble(rho) && IsDouble(kSigma) && maxAge < U64_LIMIT && cadence < U64_LIMIT
      && |limits| < U32_LIMIT
      && (forall i :: 0 <= i < |limits| ==> limits[i].0 < U32_LIMIT && IsDouble(limits[i].1))
    case PriceVector(generation, context, states) =>
      && generation < U64_LIMIT && IsDigest32(context) && |states| < U32_LIMIT
      && (forall i :: 0 <= i < |states| ==> states[i].0 < U32_LIMIT && IsDigest32(states[i].1))
  }

  function U32(n: nat): (s: string)
    ensures |s| == 4
  {
    LittleEndian(n, 4)
  }

  function LimitFields(es: seq<(nat, nat)>): (f: seq<string>)
    ensures |f| == 2 * |es|
  {
    if es == [] then [] else LimitFields(es[..|es| - 1]) + [U32(es[|es| - 1].0), U64(es[|es| - 1].1)]
  }

  function StateFields(es: seq<(nat, string)>): (f: seq<string>)
    ensures |f| == 2 * |es|
  {
    if es == [] then [] else StateFields(es[..|es| - 1]) + [U32(es[|es| - 1].0), es[|es| - 1].1]
  }

  function Header(k: Kind): seq<string> {
    [LittleEndian(k.Number(), 1), LittleEndian(FORMAT_VERSION, 1)]
  }

  /** The fields on the wire, in order. */
  function Fields(x: Record): seq<string> {
    Header(x.Kind()) +
    match x
    case Resource(id, unit, scale, contract) =>
      [U32(id), U32(unit), U64(scale), contract]
    case Constraint(id, unit, cls, budget, budgetContract, observationRef, estimateRef, estimateKind, estimate, uncertainty,
                    calibrationRef, lambda, lambdaState, controllerId, generation, tick, evidenceRoot, parent) =>
      [U32(id), U32(unit), U32(cls), U64(budget), budgetContract, observationRef, estimateRef, U32(estimateKind), U64(estimate),
       U64(uncertainty), calibrationRef, U64(lambda), U32(lambdaState), controllerId, U64(generation), U64(tick), evidenceRoot, parent]
    case Controller(eta, rho, kSigma, maxAge, cadence, limits) =>
      [U64(eta), U64(rho), U64(kSigma), U64(maxAge), U64(cadence), U32(|limits|)] + LimitFields(limits)
    case PriceVector(generation, context, states) =>
      [U64(generation), context, U32(|states|)] + StateFields(states)
  }

  function Flat(fs: seq<string>): string {
    if fs == [] then "" else Flat(fs[..|fs| - 1]) + fs[|fs| - 1]
  }

  /** The bytes of a record exactly as it stands, signed zeros included. */
  function Image(x: Record): string {
    Flat(Fields(x))
  }

  function CanonicalLimits(es: seq<(nat, nat)>): (r: seq<(nat, nat)>)
    ensures |r| == |es| && forall i :: 0 <= i < |es| ==> r[i] == (es[i].0, CanonicalDouble(es[i].1))
  {
    if es == [] then [] else CanonicalLimits(es[..|es| - 1]) + [(es[|es| - 1].0, CanonicalDouble(es[|es| - 1].1))]
  }

  /** The same record with every -0.0 replaced by +0.0, which is an equal double. */
  function Canonical(x: Record): Record {
    match x
    case Resource(_, _, _, _) => x.(scale := CanonicalDouble(x.scale))
    case Constraint(_, _, _, _, _, _, _, _, _, _, _, _, _, _, _, _, _, _) =>
      x.(budget := CanonicalDouble(x.budget), estimate := CanonicalDouble(x.estimate),
         uncertainty := CanonicalDouble(x.uncertainty), lambda := CanonicalDouble(x.lambda))
    case Controller(_, _, _, _, _, _) =>
      x.(eta := CanonicalDouble(x.eta), rho := CanonicalDouble(x.rho), kSigma := CanonicalDouble(x.kSigma), limits := CanonicalLimits(x.limits))
    case PriceVector(_, _, _) => x
  }

  /** Some double of the record is -0.0. */
  ghost predicate HasNegativeZero(x: Record) {
    match x
    case Resource(_, _, scale, _) => scale == NEGATIVE_ZERO
    case Constraint(_, _, _, budget, _, _, _, _, estimate, uncertainty, _, lambda, _, _, _, _, _, _) =>
      budget == NEGATIVE_ZERO || estimate == NEGATIVE_ZERO || uncertainty == NEGATIVE_ZERO || lambda == NEGATIVE_ZERO
    case Controller(eta, rho, kSigma, _, _, limits) =>
      eta == NEGATIVE_ZERO || rho == NEGATIVE_ZERO || kSigma == NEGATIVE_ZERO
      || exists i :: 0 <= i < |limits| && limits[i].1 == NEGATIVE_ZERO
    case PriceVector(_, _, _) => false
  }

  function CheckResource(unit: nat, scale: nat, contract: string): Option<Refusal> {
    if !(1 <= unit <= 15) then Some(BadUnit)
    else if !IsFinite(scale) then Some(NonFinite)
    else if NotPositive(scale) then Some(Scale)
    else if IsAbsent(contract) then Some(BadDigest)
    else None
  }

  function CheckConstraint(c: Record): Option<Refusal>
    requires c.Constraint?
  {
    if !(1 <= c.unit <= 15) then Some(BadUnit)
    else if !(2 <= c.cls <= 3) then Some(BadClass)
    else if !(IsFinite(c.budget) && IsFinite(c.estimate) && IsFinite(c.uncertainty) && IsFinite(c.lambda)) then Some(NonFinite)
    else if Negative(c.uncertainty) || Negative(c.lambda) then Some(Range)
    else if !(1 <= c.estimateKind <= 3) then Some(BadKind)
    else if !(1 <= c.lambdaState <= 5) then Some(Range)
    else if IsAbsent(c.budgetContract) || IsAbsent(c.estimateRef) || IsAbsent(c.controllerId) || IsAbsent(c.evidenceRoot) then Some(BadDigest)
    else if c.estimateKind == 1 && IsAbsent(c.observationRef) then Some(BadDigest)
    else if IsAbsent(c.calibrationRef) && c.lambdaState == 1 then Some(Calibration)
    else if (c.tick == 0) != IsAbsent(c.parent) then Some(BadDigest)
    else None
  }

  /** Neighbouring ids go up. */
  predicate IdsAscending<T>(es: seq<(nat, T)>) {
    forall i :: 0 <= i < |es| - 1 ==> es[i].0 < es[i + 1].0
  }

  function CheckLimits(es: seq<(nat, nat)>): Option<Refusal> {
    if es == [] then None
    else if !IsFinite(es[0].1) then Some(NonFinite)
    else if NotPositive(es[0].1) then Some(Range)
    else CheckLimits(es[1..])
  }

  function CheckController(c: Record): Option<Refusal>
    requires c.Controller?
  {
    if !(IsFinite(c.eta) && IsFinite(c.rho) && IsFinite(c.kSigma)) then Some(NonFinite)
    else if Negative(c.eta) || Negative(c.rho) || AboveOne(c.rho) || Negative(c.kSigma) then Some(Range)
    else if c.maxAge == 0 || c.cadence == 0 then Some(Range)
    else if c.limits == [] || |c.limits| > MAX_RESOURCES then Some(Range)
    else if !IdsAscending(c.limits) then Some(BadResource)
    else CheckLimits(c.limits)
  }

  function CheckPriceVector(v: Record): Option<Refusal>
    requires v.PriceVector?
  {
    if IsAbsent(v.context) then Some(BadDigest)
    else if v.states == [] || |v.states| > MAX_RESOURCES then Some(Range)
    else if !IdsAscending(v.states) then Some(BadResource)
    else if exists i :: 0 <= i < |v.states| && IsAbsent(v.states[i].1) then Some(BadDigest)
    else None
  }

  /** Why a well-formed record is refused, in the order of the checks. */
  function Check(x: Record): Option<Refusal> {
    match x
    case Resource(_, unit, scale, contract) => CheckResource(unit, scale, contract)
    case Constraint(_, _, _, _, _, _, _, _, _, _, _, _, _, _, _, _, _, _) => CheckConstraint(x)
    case Controller(_, _, _, _, _, _) => CheckController(x)
    case PriceVector(_, _, _) => CheckPriceVector(x)
  }

  function Checked(x: Record): Result<Record, Refusal> {
    match Check(x)
    case Some(refusal) => Err(refusal)
    case None => Ok(x)
  }
}
