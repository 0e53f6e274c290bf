/** The scarcity diagnostic: the dominant fresh price of a verified price vector. */
module DualDiagnostic {
  import opened Wrappers
  import opened Bytes
  import opened DualRecords
  import opened DualDoubles
  import opened DualCodec
  import opened DualRoundTrip

  datatype Reason = Missing | StalePrice | FrozenPrice | UncalibratedPrice | RefusedPrice | DigestMismatch | Malformed

  datatype Diagnostic =
    | Available(resourceId: nat, unit: nat, cls: nat, diagnosticOnly: bool, lambda: nat, generation: nat, evidenceRoot: string)
    | Unavailable(reason: Reason)

  const FRESH := 1
  const STALE := 2
  const FROZEN := 3
  const REFUSED := 5
  const CAPACITY := 2

  /** SHA-256 as 32 raw bytes, over the identity input of a record. */
  function RecordDigest(sha: string -> string, x: Record): string {
    sha(IdentityInput(x))
  }

  predicate IsFreshCalibrated(s: Record)
    requires s.Constraint?
  {
    s.lambdaState == FRESH && !IsAbsent(s.calibrationRef)
  }

  /** Nonnegative doubles are ordered like their bits, and the two zeros are equal. */
  predicate LambdaLess(a: nat, b: nat) {
    CanonicalDouble(a) < CanonicalDouble(b)
  }

  ghost predicate AllConstraints(states: seq<Record>) {
    forall i :: 0 <= i < |states| ==> states[i].Constraint?
  }

  /** `b` is fresh and calibrated, no such state has a lambda with a larger bit pattern, and among those
      with the same bits its id is the lowest. */
  ghost predicate IsDominant(states: seq<Record>, b: Record) {
    && b in states && b.Constraint? && IsFreshCalibrated(b)
    && (forall s :: s in states && s.Constraint? && IsFreshCalibrated(s) ==> AtLeastAsScarce(b, s))
  }

  ghost predicate AtLeastAsScarce(b: Record, s: Record)
    requires b.Constraint? && s.Constraint?
  {
    && CanonicalDouble(s.lambda) <= CanonicalDouble(b.lambda)
    && (CanonicalDouble(s.lambda) == CanonicalDouble(b.lambda) ==> b.resourceId <= s.resourceId)
  }

  predicate Has(states: seq<Record>, lambdaState: nat)
    requires AllConstraints(states)
  {
    exists i :: 0 <= i < |states| && states[i].lambdaState == lambdaState
  }

  function ReasonFor(states: seq<Record>): Reason
    requires AllConstraints(states)
  {
    if Has(states, REFUSED) then RefusedPrice
    else if Has(states, STALE) then StalePrice
    else if Has(states, FROZEN) then FrozenPrice
    else UncalibratedPrice
  }

  /** `d` reads the fields of `b`. */
  ghost predicate ReadsOut(d: Diagnostic, b: Record, generation: nat) {
    && d.Available? && b.Constraint?
    && d.resourceId == b.resourceId && d.unit == b.unit && d.cls == b.cls && d.lambda == b.lambda
    && d.evidenceRoot == b.evidenceRoot && d.generation == generation
    && (d.diagnosticOnly <==> b.cls == CAPACITY)
  }

  /** What the states say: the reading of the dominant state, or why there is none. */
  ghost predicate Says(states: seq<Record>, generation: nat, d: Diagnostic)
    requires AllConstraints(states)
  {
    match d
    case Available(_, _, _, _, _, _, _) => exists b :: IsDominant(states, b) && ReadsOut(d, b, generation)
    case Unavailable(reason) => (forall i :: 0 <= i < |states| ==> !IsFreshCalibrated(states[i])) && Prevails(states, reason)
  }

  ghost predicate SomeIs(states: seq<Record>, lambdaState: nat) {
    exists s :: s in states && s.Constraint? && s.lambdaState == lambdaState
  }

  /** A refused state prevails over a stale one, and a stale one over a frozen one. */
  ghost predicate Prevails(states: seq<Record>, reason: Reason) {
    match reason
    case RefusedPrice => SomeIs(states, 5)
    case StalePrice => SomeIs(states, 2) && !SomeIs(states, 5)
    case FrozenPrice => SomeIs(states, 3) && !SomeIs(states, 5) && !SomeIs(states, 2)
    case UncalibratedPrice => !SomeIs(states, 5) && !SomeIs(states, 2) && !SomeIs(states, 3)
    case _ => false
  }

  lemma ReasonPrevails(states: seq<Record>)
    requires AllConstraints(states)
    ensures Prevails(states, ReasonFor(states))
  {
    HasIsSome(states, REFUSED);
    HasIsSome(states, STALE);
    HasIsSome(states, FROZEN);
    hide SomeIs, Has;
  }

  lemma HasIsSome(states: seq<Record>, lambdaState: nat)
    requires AllConstraints(states)
    ensures Has(states, lambdaState) <==> SomeIs(states, lambdaState)
  {
    if SomeIs(states, lambdaState) {
      var s :| s in states && s.Constraint? && s.lambdaState == lambdaState;
      var i :| 0 <= i < |states| && states[i] == s;
      assert states[i].lambdaState == lambdaState;
    }
    if Has(states, lambdaState) {
      var i :| 0 <= i < |states| && states[i].lambdaState == lambdaState;
      assert states[i] in states && states[i].Constraint?;
    }
  }

  /** No stale, frozen or refused price, and no price whose calibration reference is all zeros, is ever
      read; every other one is. */
  lemma FreshPlainly(s: Record)
    requires s.Constraint?
    ensures IsFreshCalibrated(s) <==> s.lambdaState == 1 && exists i :: 0 <= i < |s.calibrationRef| && s.calibrationRef[i] != 0 as char
  {
  }

  method SelectDominant(generation: nat, states: seq<Record>) returns (d: Diagnostic)
    requires AllConstraints(states)
    ensures Says(states, generation, d)
  {
    var best: Option<Record> := None;
    for i := 0 to |states|
      invariant best.None? ==> forall k :: 0 <= k < i ==> !IsFreshCalibrated(states[k])
      invariant best.Some? ==> best.value in states && best.value.Constraint? && IsFreshCalibrated(best.value)
      invariant best.Some? ==> forall k :: 0 <= k < i && IsFreshCalibrated(states[k]) ==> AtLeastAsScarce(best.value, states[k])
    {
      var s := states[i];
      if !IsFreshCalibrated(s) {
        continue;
      }
      if best.None? {
        best := Some(s);
      } else {
        var b := best.value;
        if LambdaLess(b.lambda, s.lambda) || (!LambdaLess(s.lambda, b.lambda) && s.resourceId < b.resourceId) {
          best := Some(s);
        }
      }
    }
    if best.Some? {
      assert IsDominant(states, best.value);
      var b := best.value;
      return Available(b.resourceId, b.unit, b.cls, b.cls == CAPACITY, b.lambda, generation, b.evidenceRoot);
    }
    ReasonPrevails(states);
    return Unavailable(ReasonFor(states));
  }

  /** With different ids there is one dominant state, so the order of the states does not matter. */
  lemma DominantUnique(states: seq<Record>, b: Record, c: Record)
    requires IsDominant(states, b) && IsDominant(states, c)
    ensures b.resourceId == c.resourceId && CanonicalDouble(b.lambda) == CanonicalDouble(c.lambda)
    ensures (forall s, t :: s in states && t in states && s.Constraint? && t.Constraint? && s.resourceId == t.resourceId ==> s == t) ==> b == c
  {
    assert AtLeastAsScarce(b, c) && AtLeastAsScarce(c, b);
  }

  /** Among accepted states no fresh one has a larger price than the one that is read, as a number, and
      none of the same price a lower id; without a reading none is fresh. */
  lemma ReadingIsScarcest(states: seq<Record>, generation: nat, d: Diagnostic, i: nat)
    requires AllConstraints(states) && Says(states, generation, d)
    requires forall k :: 0 <= k < |states| ==> InRange(states[k]) && Check(states[k]).None?
    requires i < |states| && states[i].lambdaState == 1
    ensures d.Available? && Value(states[i].lambda) <= Value(d.lambda)
    ensures Value(states[i].lambda) == Value(d.lambda) ==> d.resourceId <= states[i].resourceId
  {
    hide Check, Acceptable, InRange, CanonicalDouble, Value, IsAbsent;
    AcceptedIsFresh(states[i]);
    var b :| IsDominant(states, b) && ReadsOut(d, b, generation);
    AcceptedIsFresh(b);
    CanonicalOrder(states[i].lambda, b.lambda);
  }

  lemma AcceptedIsFresh(s: Record)
    requires s.Constraint? && InRange(s) && Check(s).None?
    ensures Value(s.lambda) >= 0 && (IsFreshCalibrated(s) <==> s.lambdaState == 1)
  {
    hide Check, Value, InRange;
    AcceptedExactly(s);
  }

  /** The first supplied record with this digest. */
  function FindRecord(sha: string -> string, decoded: seq<Record>, digest: string): (r: Option<Record>)
    ensures r.Some? ==> r.value in decoded && RecordDigest(sha, r.value) == digest
    ensures r.None? ==> forall x :: x in decoded ==> RecordDigest(sha, x) != digest
  {
    if decoded == [] then None
    else if RecordDigest(sha, decoded[0]) == digest then Some(decoded[0])
    else FindRecord(sha, decoded[1..], digest)
  }

  /** Entry `i` of the vector names a supplied record of its resource and generation. */
  ghost predicate EntryResolves(sha: string -> string, vector: Record, decoded: seq<Record>, i: nat)
    requires vector.PriceVector? && i < |vector.states|
  {
    var found := FindRecord(sha, decoded, vector.states[i].1);
    found.Some? && found.value.Constraint? && found.value.resourceId == vector.states[i].0 && found.value.generation == vector.generation
  }

  ghost predicate Resolves(sha: string -> string, vector: Record, decoded: seq<Record>)
    requires vector.PriceVector?
  {
    forall i :: 0 <= i < |vector.states| ==> EntryResolves(sha, vector, decoded, i)
  }

  /** Why entry `i` does not resolve. */
  function EntryReason(sha: string -> string, vector: Record, decoded: seq<Record>, i: nat): Reason
    requires vector.PriceVector? && i < |vector.states| && AllConstraints(decoded)
  {
    match FindRecord(sha, decoded, vector.states[i].1)
    case None => Missing
    case Some(s) => if s.resourceId != vector.states[i].0 then DigestMismatch else RefusedPrice
  }

  method ResolveEntry(sha: string -> string, vector: Record, decoded: seq<Record>, i: nat) returns (r: Result<Record, Reason>)
    requires vector.PriceVector? && AllConstraints(decoded) && i < |vector.states|
    ensures r.Ok? <==> EntryResolves(sha, vector, decoded, i)
    ensures r.Ok? ==> r.value.Constraint? && Some(r.value) == FindRecord(sha, decoded, vector.states[i].1)
    ensures r.Err? ==> r.error == EntryReason(sha, vector, decoded, i)
  {
    var (resourceId, stateDigest) := vector.states[i];
    var found := FindRecord(sha, decoded, stateDigest);
    if found.None? {
      return Err(Missing);
    }
    if found.value.resourceId != resourceId {
      return Err(DigestMismatch);
    }
    if found.value.generation != vector.generation {
      return Err(RefusedPrice);
    }
    return Ok(found.value);
  }

  /** `r` is what looking up all entries gives: the named states, or the reason of the first entry that
      does not resolve. */
  ghost predicate Lookup(sha: string -> string, vector: Record, decoded: seq<Record>, r: Result<seq<Record>, Reason>)
    requires vector.PriceVector? && AllConstraints(decoded)
  {
    match r
    case Ok(states) =>
      && Resolves(sha, vector, decoded) && |states| == |vector.states|
      && forall i :: 0 <= i < |states| ==> Some(states[i]) == FindRecord(sha, decoded, vector.states[i].1)
    case Err(reason) => exists i :: FirstUnresolved(sha, vector, decoded, i) && reason == EntryReason(sha, vector, decoded, i)
  }

  ghost predicate FirstUnresolved(sha: string -> string, vector: Record, decoded: seq<Record>, i: int)
    requires vector.PriceVector?
  {
    && 0 <= i < |vector.states| && !EntryResolves(sha, vector, decoded, i)
    && forall k :: 0 <= k < i ==> EntryResolves(sha, vector, decoded, k)
  }

  /** Looks up the states of a vector among the supplied records. */
  method ResolveStates(sha: string -> string, vector: Record, decoded: seq<Record>) returns (r: Result<seq<Record>, Reason>)
    requires vector.PriceVector? && AllConstraints(decoded)
    ensures Lookup(sha, vector, decoded, r)
    ensures r.Ok? ==> AllConstraints(r.value)
  {
    hide EntryResolves, FindRecord, EntryReason;
    var states: seq<Record> := [];
    for i := 0 to |vector.states|
      invariant |states| == i && AllConstraints(states)
      invariant forall k :: 0 <= k < i ==> EntryResolves(sha, vector, decoded, k)
      invariant forall k :: 0 <= k < i ==> Some(states[k]) == FindRecord(sha, decoded, vector.states[k].1)
    {
      var s := ResolveEntry(sha, vector, decoded, i);
      if s.Err? {
        assert FirstUnresolved(sha, vector, decoded, i);
        return Err(s.error);
      }
      states := states + [s.value];
    }
    return Ok(states);
  }

  function ReasonOfRefusal(r: Refusal): (reason: Reason)
    ensures reason == Malformed <==> r in {BadKind, Encoding}
    ensures reason != Malformed ==> reason == RefusedPrice
  {
    if r == BadKind || r == Encoding then Malformed else RefusedPrice
  }

  /** `r` is what decoding all records gives: the records, or the reason of the first refusal. */
  ghost predicate DecodesAll(records: seq<string>, r: Result<seq<Record>, Reason>) {
    match r
    case Ok(decoded) => |decoded| == |records| && forall i :: 0 <= i < |records| ==> Decodes(ConstraintKind, records[i], Ok(decoded[i]))
    case Err(reason) => exists i, e :: FirstRefused(records, i, e) && reason == ReasonOfRefusal(e)
  }

  ghost predicate Accepted(record: string) {
    exists x :: Decodes(ConstraintKind, record, Ok(x))
  }

  ghost predicate FirstRefused(records: seq<string>, i: int, e: Refusal) {
    0 <= i < |records| && Decodes(ConstraintKind, records[i], Err(e)) && forall k :: 0 <= k < i ==> Accepted(records[k])
  }

  method DecodeConstraints(records: seq<string>) returns (r: Result<seq<Record>, Reason>)
    requires forall i :: 0 <= i < |records| ==> IsBytes(records[i])
    ensures DecodesAll(records, r)
  {
    hide Decodes, IsBytes;
    var decoded: seq<Record> := [];
    for i := 0 to |records|
      invariant |decoded| == i && forall k :: 0 <= k < i ==> Decodes(ConstraintKind, records[k], Ok(decoded[k])) && Accepted(records[k])
    {
      var x := DecodeConstraint(records[i]);
      if x.Err? {
        assert FirstRefused(records, i, x.error);
        return Err(ReasonOfRefusal(x.error));
      }
      assert Accepted(records[i]);
      decoded := decoded + [x.value];
    }
    return Ok(decoded);
  }

  lemma DecodedAreConstraints(records: seq<string>, decoded: seq<Record>)
    requires |decoded| == |records| && forall i :: 0 <= i < |records| ==> Decodes(ConstraintKind, records[i], Ok(decoded[i]))
    ensures AllConstraints(decoded)
  {
    forall i | 0 <= i < |decoded| ensures decoded[i].Constraint? {
      EncodeDecoded(ConstraintKind, records[i], decoded[i]);
    }
  }

  /** What these bytes say, stage by stage: the vector, its digest, the supplied records, the entries,
      and at last the dominant state. */
  ghost predicate Diagnoses(sha: string -> string, priceVector: string, constraints: seq<string>, expected: Option<string>, d: Diagnostic) {
    exists v :: Decodes(PriceVectorKind, priceVector, v) && DiagnosesVector(sha, v, constraints, expected, d)
  }

  ghost predicate DiagnosesVector(sha: string -> string, v: Result<Record, Refusal>, constraints: seq<string>, expected: Option<string>, d: Diagnostic) {
    match v
    case Err(e) => d == Unavailable(ReasonOfRefusal(e))
    case Ok(vector) =>
      vector.PriceVector? &&
      if expected.Some? && expected.value != RecordDigest(sha, vector) then d == Unavailable(DigestMismatch)
      else exists all :: DecodesAll(constraints, all) && DiagnosesRecords(sha, vector, all, d)
  }

  ghost predicate DiagnosesRecords(sha: string -> string, vector: Record, all: Result<seq<Record>, Reason>, d: Diagnostic)
    requires vector.PriceVector?
  {
    match all
    case Err(reason) => d == Unavailable(reason)
    case Ok(decoded) => AllConstraints(decoded) && exists found :: Lookup(sha, vector, decoded, found) && DiagnosesStates(vector, found, d)
  }

  ghost predicate DiagnosesStates(vector: Record, found: Result<seq<Record>, Reason>, d: Diagnostic)
    requires vector.PriceVector?
  {
    match found
    case Err(reason) => d == Unavailable(reason)
    case Ok(states) => AllConstraints(states) && Says(states, vector.generation, d)
  }

  /** A reading is given only for a vector that decodes, has the expected digest, and names for every
      entry a supplied, accepted record of the same resource and generation; otherwise the first thing
      that is wrong is the reason. */
  method FromRecords(sha: string -> string, priceVector: string, constraints: seq<string>, expected: Option<string>) returns (d: Diagnostic)
    requires IsBytes(priceVector) && forall i :: 0 <= i < |constraints| ==> IsBytes(constraints[i])
    ensures Diagnoses(sha, priceVector, constraints, expected, d)
  {
    hide Decodes, DecodesAll, Lookup, Says, RecordDigest;
    var v := DecodePriceVector(priceVector);
    if v.Err? {
      d := Unavailable(ReasonOfRefusal(v.error));
      assert DiagnosesVector(sha, v, constraints, expected, d);
      return;
    }
    EncodeDecoded(PriceVectorKind, priceVector, v.value);
    if expected.Some? && RecordDigest(sha, v.value) != expected.value {
      d := Unavailable(DigestMismatch);
      assert DiagnosesVector(sha, v, constraints, expected, d);
      return;
    }
    d := ReadStates(sha, v.value, constraints);
    assert DiagnosesVector(sha, v, constraints, expected, d);
  }

  method ReadStates(sha: string -> string, vector: Record, constraints: seq<string>) returns (d: Diagnostic)
    requires vector.PriceVector? && forall i :: 0 <= i < |constraints| ==> IsBytes(constraints[i])
    ensures exists all :: DecodesAll(constraints, all) && DiagnosesRecords(sha, vector, all, d)
  {
    hide Lookup, Says, IsBytes, Decodes;
    var all := DecodeConstraints(constraints);
    if all.Err? {
      d := Unavailable(all.error);
      assert DiagnosesRecords(sha, vector, all, d);
      return;
    }
    DecodedAreConstraints(constraints, all.value);
    var found := ResolveStates(sha, vector, all.value);
    if found.Err? {
      d := Unavailable(found.error);
    } else {
      d := SelectDominant(vector.generation, found.value);
    }
    assert DiagnosesStates(vector, found, d);
    assert DiagnosesRecords(sha, vector, all, d);
  }

  lemma EntryId(sha: string -> string, vector: Record, decoded: seq<Record>, i: nat, s: Record)
    requires vector.PriceVector? && i < |vector.states| && EntryResolves(sha, vector, decoded, i)
    requires Some(s) == FindRecord(sha, decoded, vector.states[i].1)
    ensures s.Constraint? && s.resourceId == vector.states[i].0
  {
  }

  lemma VectorAscends(buf: string, vector: Record)
    requires Decodes(PriceVectorKind, buf, Ok(vector)) && vector.PriceVector?
    ensures IdsAscending(vector.states)
  {
    EncodeDecoded(PriceVectorKind, buf, vector);
  }

  /** Every state behind a reading has a different resource, so the reading names one state. */
  lemma StatesHaveDifferentResources(sha: string -> string, buf: string, vector: Record, decoded: seq<Record>, states: seq<Record>, i: nat, j: nat)
    requires Decodes(PriceVectorKind, buf, Ok(vector)) && vector.PriceVector? && Resolves(sha, vector, decoded)
    requires |states| == |vector.states| && AllConstraints(states)
    requires forall k :: 0 <= k < |states| ==> Some(states[k]) == FindRecord(sha, decoded, vector.states[k].1)
    requires i < j < |states|
    ensures states[i].resourceId < states[j].resourceId
  {
    hide Decodes, EntryResolves, FindRecord, IdsAscending;
    VectorAscends(buf, vector);
    AscendingApart(vector.states, i, j);
    EntryId(sha, vector, decoded, i, states[i]);
    EntryId(sha, vector, decoded, j, states[j]);
  }
}
