/** Reading and writing DUAL records: a reader that keeps its first refusal, a writer that writes
    both zeros alike, and the round trips between bytes and records. */
module DualCodec {
  import opened Wrappers
  import opened Bytes
  import opened DualRecords
  import opened DualLayout

  /** A cursor over the bytes. After a refusal it stays where it is and returns zeros. */
  class Reader {
    const p: string
    var pos: nat
    var st: Option<Refusal>
    /** The slices that were read. */
    ghost var parts: seq<string>

    ghost predicate Valid()
      reads this
    {
      IsBytes(p) && pos <= |p| && (st.None? ==> Flat(parts) == p[..pos])
    }

    constructor (p: string)
      requires IsBytes(p)
      ensures Valid() && this.p == p && pos == 0 && st == None && parts == []
    {
      this.p, pos, st, parts := p, 0, None, [];
    }

    /** Only the first refusal is kept. */
    method Fail(r: Refusal)
      modifies `st
      ensures st == if old(st).Some? then old(st) else Some(r)
    {
      if st.None? {
        st := Some(r);
      }
    }

    method Need(n: nat) returns (ok: bool)
      requires Valid()
      modifies `st
      ensures Valid() && ok == st.None?
      ensures st == if old(st).Some? then old(st) else if pos + n > |p| then Some(Encoding) else None
    {
      if st.Some? {
        return false;
      }
      if pos + n > |p| {
        Fail(Encoding);
        return false;
      }
      return true;
    }

    /** The next `n` bytes; the cursor never passes the end. */
    method Take(n: nat) returns (b: string)
      requires Valid()
      modifies `pos, `st, `parts
      ensures Valid()
      ensures st == if old(st).Some? then old(st) else if old(pos) + n > |p| then Some(Encoding) else None
      ensures st.None? ==> pos == old(pos) + n && |b| == n && IsBytes(b) && parts == old(parts) + [b]
      ensures st.Some? ==> pos == old(pos) && b == Zeroes(n)
    {
      var ok := Need(n);
      if !ok {
        return Zeroes(n);
      }
      b := p[pos..pos + n];
      FlatOne(parts, b);
      assert p[..pos + n] == p[..pos] + b;
      pos := pos + n;
      parts := parts + [b];
    }

    method U8() returns (v: nat)
      requires Valid()
      modifies `pos, `st, `parts
      ensures Valid()
      ensures st == if old(st).Some? then old(st) else if old(pos) + 1 > |p| then Some(Encoding) else None
      ensures st.None? ==> pos == old(pos) + 1 && v == p[old(pos)] as nat && parts == old(parts) + [LittleEndian(v, 1)]
    {
      var b := Take(1);
      v := FromLittleEndian(b);
      if st.None? {
        LittleEndianEncodes(b);
        assert b[1..] == "";
        assert p[..pos][old(pos)] == p[old(pos)];
        FlatOne(old(parts), b);
        assert Flat(parts)[old(pos)] == b[0];
      }
    }

    method ReadU32() returns (v: nat)
      requires Valid()
      modifies `pos, `st, `parts
      ensures Valid()
      ensures st == if old(st).Some? then old(st) else if old(pos) + 4 > |p| then Some(Encoding) else None
      ensures st.None? ==> pos == old(pos) + 4 && v < U32_LIMIT && parts == old(parts) + [U32(v)]
    {
      var b := Take(4);
      v := FromLittleEndian(b);
      if st.None? {
        LittleEndianEncodes(b);
        assert Pow256(2) == 0x1_0000 && Pow256(4) == U32_LIMIT;
      }
    }

    method ReadU64() returns (v: nat)
      requires Valid()
      modifies `pos, `st, `parts
      ensures Valid()
      ensures st == if old(st).Some? then old(st) else if old(pos) + 8 > |p| then Some(Encoding) else None
      ensures st.None? ==> pos == old(pos) + 8 && v < U64_LIMIT && parts == old(parts) + [U64(v)]
    {
      var b := Take(8);
      v := FromLittleEndian(b);
      if st.None? {
        LittleEndianEncodes(b);
        U64Limit();
      }
    }

    method ReadDigest() returns (d: string)
      requires Valid()
      modifies `pos, `st, `parts
      ensures Valid()
      ensures st == if old(st).Some? then old(st) else if old(pos) + 32 > |p| then Some(Encoding) else None
      ensures st.None? ==> pos == old(pos) + 32 && IsDigest32(d) && parts == old(parts) + [d]
    {
      d := Take(32);
    }

    /** A short header is an encoding refusal, then the kind is checked, then the version. */
    method ReadHeader(want: Kind)
      requires Valid() && pos == 0 && st == None && parts == []
      modifies `pos, `st, `parts
      ensures Valid() && st == HeaderRefusal(want, p)
      ensures st.None? ==> pos == 2 && parts == Header(want)
    {
      hide Flat, LittleEndian, IsBytes;
      var k := U8();
      var v := U8();
      if st.Some? {
        return;
      }
      if k != want.Number() {
        Fail(BadKind);
        return;
      }
      if v != FORMAT_VERSION {
        Fail(Encoding);
      }
    }

    /** An earlier refusal first, then trailing bytes. */
    method End() returns (r: Option<Refusal>)
      requires Valid()
      ensures r == if st.Some? then st else if pos != |p| then Some(Encoding) else None
      ensures r.None? ==> p == Flat(parts)
    {
      if st.Some? {
        return st;
      }
      if pos != |p| {
        return Some(Encoding);
      }
      assert p[..pos] == p;
      return None;
    }
  }

  function Zeroes(n: nat): (s: string)
    ensures |s| == n
  {
    if n == 0 then "" else Zeroes(n - 1) + [0 as char]
  }

  function HeaderRefusal(k: Kind, buf: string): Option<Refusal> {
    if |buf| < 2 then Some(Encoding)
    else if buf[0] as nat != k.Number() then Some(BadKind)
    else if buf[1] as nat != FORMAT_VERSION then Some(Encoding)
    else None
  }

  /** The number of entries, at the same place in both records that have them. */
  function CountAt(buf: string): nat
    requires |buf| >= 46
  {
    FromLittleEndian(buf[42..46])
  }

  function CountedRefusal(buf: string, width: nat): Option<Refusal> {
    if |buf| < 46 then Some(Encoding)
    else if CountAt(buf) == 0 || CountAt(buf) > MAX_RESOURCES then Some(Range)
    else if |buf| != 46 + width * CountAt(buf) then Some(Encoding)
    else None
  }

  /** Why the bytes are not even a record of this kind. */
  function FormRefusal(k: Kind, buf: string): Option<Refusal> {
    if HeaderRefusal(k, buf).Some? then HeaderRefusal(k, buf) else
      match k
      case ResourceKind => if |buf| != 50 then Some(Encoding) else None
      case ConstraintKind => if |buf| != 294 then Some(Encoding) else None
      case ControllerKind => CountedRefusal(buf, 12)
      case PriceVectorKind => CountedRefusal(buf, 36)
  }

  /** The bytes are the image of this record. */
  ghost predicate Stands(k: Kind, buf: string, x: Record) {
    InRange(x) && x.Kind() == k && Image(x) == buf
  }

  /** What decoding these bytes as a record of this kind gives. */
  ghost predicate Decodes(k: Kind, buf: string, r: Result<Record, Refusal>) {
    match FormRefusal(k, buf)
    case Some(refusal) => r == Err(refusal)
    case None => exists x :: Stands(k, buf, x) && r == Checked(x)
  }

  method DecodeResource(buf: string) returns (r: Result<Record, Refusal>)
    requires IsBytes(buf)
    ensures Decodes(ResourceKind, buf, r)
  {
    var reader := new Reader(buf);
    reader.ReadHeader(ResourceKind);
    var resourceId := reader.ReadU32();
    var unit := reader.ReadU32();
    var scale := reader.ReadU64();
    var contract := reader.ReadDigest();
    var ended := reader.End();
    if ended.Some? {
      return Err(ended.value);
    }
    var x := Resource(resourceId, unit, scale, contract);
    assert reader.parts == Fields(x);
    assert Stands(ResourceKind, buf, x);
    r := Checked(x);
  }

  /** The first nine fields of a constraint. */
  method ReadBudgetPart(r: Reader)
    returns (resourceId: nat, unit: nat, cls: nat, budget: nat, budgetContract: string, observationRef: string,
             estimateRef: string, estimateKind: nat, estimate: nat)
    requires r.Valid()
    modifies r`pos, r`st, r`parts
    ensures r.Valid()
    ensures r.st == if old(r.st).Some? then old(r.st) else if old(r.pos) + 128 > |r.p| then Some(Encoding) else None
    ensures r.st.None? ==> r.pos == old(r.pos) + 128
    ensures r.st.None? ==> resourceId < U32_LIMIT && unit < U32_LIMIT && cls < U32_LIMIT && estimateKind < U32_LIMIT
    ensures r.st.None? ==> IsDouble(budget) && IsDouble(estimate)
    ensures r.st.None? ==> IsDigest32(budgetContract) && IsDigest32(observationRef) && IsDigest32(estimateRef)
    ensures r.st.None? ==>
      r.parts == old(r.parts) + [U32(resourceId), U32(unit), U32(cls), U64(budget), budgetContract, observationRef, estimateRef, U32(estimateKind), U64(estimate)]
  {
    hide Flat, IsDigest32, U32, U64;
    resourceId := r.ReadU32();
    unit := r.ReadU32();
    cls := r.ReadU32();
    budget := r.ReadU64();
    budgetContract := r.ReadDigest();
    observationRef := r.ReadDigest();
    estimateRef := r.ReadDigest();
    estimateKind := r.ReadU32();
    estimate := r.ReadU64();
  }

  /** The other nine fields. */
  method ReadPricePart(r: Reader)
    returns (uncertainty: nat, calibrationRef: string, lambda: nat, lambdaState: nat, controllerId: string, generation: nat,
             tick: nat, evidenceRoot: string, parent: string)
    requires r.Valid()
    modifies r`pos, r`st, r`parts
    ensures r.Valid()
    ensures r.st == if old(r.st).Some? then old(r.st) else if old(r.pos) + 164 > |r.p| then Some(Encoding) else None
    ensures r.st.None? ==> r.pos == old(r.pos) + 164
    ensures r.st.None? ==> IsDouble(uncertainty) && IsDouble(lambda) && lambdaState < U32_LIMIT && generation < U64_LIMIT && tick < U64_LIMIT
    ensures r.st.None? ==> IsDigest32(calibrationRef) && IsDigest32(controllerId) && IsDigest32(evidenceRoot) && IsDigest32(parent)
    ensures r.st.None? ==>
      r.parts == old(r.parts) + [U64(uncertainty), calibrationRef, U64(lambda), U32(lambdaState), controllerId, U64(generation), U64(tick), evidenceRoot, parent]
  {
    hide Flat, IsDigest32, U32, U64;
    uncertainty := r.ReadU64();
    calibrationRef := r.ReadDigest();
    lambda := r.ReadU64();
    lambdaState := r.ReadU32();
    controllerId := r.ReadDigest();
    generation := r.ReadU64();
    tick := r.ReadU64();
    evidenceRoot := r.ReadDigest();
    parent := r.ReadDigest();
  }

  method DecodeConstraint(buf: string) returns (r: Result<Record, Refusal>)
    requires IsBytes(buf)
    ensures Decodes(ConstraintKind, buf, r)
  {
    hide Flat, IsDigest32, Checked;
    var reader := new Reader(buf);
    reader.ReadHeader(ConstraintKind);
    var resourceId, unit, cls, budget, budgetContract, observationRef, estimateRef, estimateKind, estimate := ReadBudgetPart(reader);
    var uncertainty, calibrationRef, lambda, lambdaState, controllerId, generation, tick, evidenceRoot, parent := ReadPricePart(reader);
    var ended := reader.End();
    if ended.Some? {
      return Err(ended.value);
    }
    var x := Constraint(resourceId, unit, cls, budget, budgetContract, observationRef, estimateRef, estimateKind, estimate,
                        uncertainty, calibrationRef, lambda, lambdaState, controllerId, generation, tick, evidenceRoot, parent);
    assert reader.parts == Fields(x);
    assert Stands(ConstraintKind, buf, x);
    r := Checked(x);
  }

  /** A refused count, after the head of the record was read. */
  lemma CountRead(buf: string, parts: seq<string>, count: nat)
    requires |buf| >= 46 && |parts| >= 1 && Flat(parts) == buf[..46] && parts[|parts| - 1] == U32(count) && count < U32_LIMIT
    ensures CountAt(buf) == count
  {
    assert Flat(parts) == Flat(parts[..|parts| - 1]) + U32(count);
    assert buf[42..46] == buf[..46][42..] == U32(count);
    assert Pow256(2) == 0x1_0000 && Pow256(4) == U32_LIMIT;
    LittleEndianDecodes(count, 4);
  }

  method ReadLimits(r: Reader, n: nat) returns (limits: seq<(nat, nat)>)
    requires r.Valid()
    modifies r`pos, r`st, r`parts
    ensures r.Valid() && |limits| == n
    ensures r.st == if old(r.st).Some? then old(r.st) else if old(r.pos) + 12 * n > |r.p| then Some(Encoding) else None
    ensures r.st.None? ==> r.pos == old(r.pos) + 12 * n && r.parts == old(r.parts) + LimitFields(limits)
    ensures r.st.None? ==> forall i :: 0 <= i < n ==> limits[i].0 < U32_LIMIT && IsDouble(limits[i].1)
  {
    hide Flat;
    limits := [];
    for k := 0 to n
      invariant r.Valid() && |limits| == k
      invariant old(r.st).Some? ==> r.st == old(r.st)
      invariant old(r.st).None? && r.st.Some? ==> r.st == Some(Encoding) && old(r.pos) + 12 * k > |r.p|
      invariant r.st.None? ==> r.pos == old(r.pos) + 12 * k && r.parts == old(r.parts) + LimitFields(limits)
      invariant r.st.None? ==> forall i :: 0 <= i < k ==> limits[i].0 < U32_LIMIT && IsDouble(limits[i].1)
    {
      var id := r.ReadU32();
      var lambdaMax := r.ReadU64();
      LimitFieldsGrow(limits, id, lambdaMax);
      limits := limits + [(id, lambdaMax)];
    }
  }

  lemma LimitFieldsGrow(es: seq<(nat, nat)>, id: nat, lambdaMax: nat)
    ensures LimitFields(es + [(id, lambdaMax)]) == LimitFields(es) + [U32(id)] + [U64(lambdaMax)]
  {
    assert (es + [(id, lambdaMax)])[..|es|] == es;
  }

  lemma StateFieldsGrow(es: seq<(nat, string)>, id: nat, state: string)
    ensures StateFields(es + [(id, state)]) == StateFields(es) + [U32(id)] + [state]
  {
    assert (es + [(id, state)])[..|es|] == es;
  }

  method ReadStates(r: Reader, n: nat) returns (states: seq<(nat, string)>)
    requires r.Valid()
    modifies r`pos, r`st, r`parts
    ensures r.Valid() && |states| == n
    ensures r.st == if old(r.st).Some? then old(r.st) else if old(r.pos) + 36 * n > |r.p| then Some(Encoding) else None
    ensures r.st.None? ==> r.pos == old(r.pos) + 36 * n && r.parts == old(r.parts) + StateFields(states)
    ensures r.st.None? ==> forall i :: 0 <= i < n ==> states[i].0 < U32_LIMIT && IsDigest32(states[i].1)
  {
    hide Flat, IsDigest32, Checked;
    states := [];
    for k := 0 to n
      invariant r.Valid() && |states| == k
      invariant old(r.st).Some? ==> r.st == old(r.st)
      invariant old(r.st).None? && r.st.Some? ==> r.st == Some(Encoding) && old(r.pos) + 36 * k > |r.p|
      invariant r.st.None? ==> r.pos == old(r.pos) + 36 * k && r.parts == old(r.parts) + StateFields(states)
      invariant r.st.None? ==> forall i :: 0 <= i < k ==> states[i].0 < U32_LIMIT && IsDigest32(states[i].1)
    {
      var id := r.ReadU32();
      var state := r.ReadDigest();
      StateFieldsGrow(states, id, state);
      states := states + [(id, state)];
    }
  }

  method DecodeController(buf: string) returns (r: Result<Record, Refusal>)
    requires IsBytes(buf)
    ensures Decodes(ControllerKind, buf, r)
  {
    hide Flat, U64, U32, LimitFields, Checked;
    var reader := new Reader(buf);
    reader.ReadHeader(ControllerKind);
    var eta := reader.ReadU64();
    var rho := reader.ReadU64();
    var kSigma := reader.ReadU64();
    var maxAge := reader.ReadU64();
    var cadence := reader.ReadU64();
    var n := reader.ReadU32();
    if reader.st.Some? {
      return Err(reader.st.value);
    }
    CountRead(buf, reader.parts, n);
    if n == 0 || n > MAX_RESOURCES {
      return Err(Range);
    }
    var limits := ReadLimits(reader, n);
    var ended := reader.End();
    if ended.Some? {
      return Err(ended.value);
    }
    var x := Controller(eta, rho, kSigma, maxAge, cadence, limits);
    assert reader.parts == Fields(x);
    assert Stands(ControllerKind, buf, x);
    r := Checked(x);
  }

  method DecodePriceVector(buf: string) returns (r: Result<Record, Refusal>)
    requires IsBytes(buf)
    ensures Decodes(PriceVectorKind, buf, r)
  {
    hide Flat;
    var reader := new Reader(buf);
    reader.ReadHeader(PriceVectorKind);
    var generation := reader.ReadU64();
    var context := reader.ReadDigest();
    var n := reader.ReadU32();
    if reader.st.Some? {
      return Err(reader.st.value);
    }
    CountRead(buf, reader.parts, n);
    if n == 0 || n > MAX_RESOURCES {
      return Err(Range);
    }
    var states := ReadStates(reader, n);
    var ended := reader.End();
    if ended.Some? {
      return Err(ended.value);
    }
    var x := PriceVector(generation, context, states);
    assert reader.parts == Fields(x);
    assert Stands(PriceVectorKind, buf, x);
    r := Checked(x);
  }

  class Writer {
    var buf: string
    /** The fields that were written. */
    ghost var parts: seq<string>

    ghost predicate Valid()
      reads this
    {
      buf == Flat(parts)
    }

    constructor ()
      ensures Valid() && parts == []
    {
      buf, parts := "", [];
    }

    method Put(b: string)
      requires Valid()
      modifies this
      ensures Valid() && parts == old(parts) + [b]
    {
      FlatOne(parts, b);
      buf := buf + b;
      parts := parts + [b];
    }

    method PutU32(v: nat)
      requires Valid()
      modifies this
      ensures Valid() && parts == old(parts) + [U32(v)]
    {
      Put(LittleEndian(v, 4));
    }

    method PutU64(v: nat)
      requires Valid()
      modifies this
      ensures Valid() && parts == old(parts) + [U64(v)]
    {
      Put(LittleEndian(v, 8));
    }

    /** Both zeros are written as all-zero bits. */
    method PutDouble(b: nat)
      requires Valid()
      modifies this
      ensures Valid() && parts == old(parts) + [U64(CanonicalDouble(b))]
    {
      PutU64(if b == 0 || b == NEGATIVE_ZERO then 0 else b);
    }

    method PutHeader(k: Kind)
      requires Valid() && parts == []
      modifies this
      ensures Valid() && parts == Header(k)
    {
      Put(LittleEndian(k.Number(), 1));
      Put(LittleEndian(FORMAT_VERSION, 1));
    }
  }

  method EncodeResource(x: Record) returns (buf: string)
    requires x.Resource?
    ensures buf == Image(Canonical(x))
  {
    hide Flat;
    var w := new Writer();
    w.PutHeader(ResourceKind);
    w.PutU32(x.resourceId);
    w.PutU32(x.unit);
    w.PutDouble(x.scale);
    w.Put(x.contract);
    assert w.parts == Fields(Canonical(x));
    buf := w.buf;
  }

  /** The first half of a constraint. */
  method PutBudgetPart(w: Writer, x: Record)
    requires w.Valid() && x.Constraint?
    modifies w
    ensures w.Valid()
    ensures w.parts == old(w.parts) + [U32(x.resourceId), U32(x.unit), U32(x.cls), U64(CanonicalDouble(x.budget)), x.budgetContract,
                                       x.observationRef, x.estimateRef, U32(x.estimateKind), U64(CanonicalDouble(x.estimate))]
  {
    hide Flat, U32, U64, CanonicalDouble;
    w.PutU32(x.resourceId);
    w.PutU32(x.unit);
    w.PutU32(x.cls);
    w.PutDouble(x.budget);
    w.Put(x.budgetContract);
    w.Put(x.observationRef);
    w.Put(x.estimateRef);
    w.PutU32(x.estimateKind);
    w.PutDouble(x.estimate);
  }

  /** The other half. */
  method PutPricePart(w: Writer, x: Record)
    requires w.Valid() && x.Constraint?
    modifies w
    ensures w.Valid()
    ensures w.parts == old(w.parts) + [U64(CanonicalDouble(x.uncertainty)), x.calibrationRef, U64(CanonicalDouble(x.lambda)), U32(x.lambdaState),
                                       x.controllerId, U64(x.generation), U64(x.tick), x.evidenceRoot, x.parent]
  {
    hide Flat, U32, U64, CanonicalDouble;
    w.PutDouble(x.uncertainty);
    w.Put(x.calibrationRef);
    w.PutDouble(x.lambda);
    w.PutU32(x.lambdaState);
    w.Put(x.controllerId);
    w.PutU64(x.generation);
    w.PutU64(x.tick);
    w.Put(x.evidenceRoot);
    w.Put(x.parent);
  }

  method EncodeConstraint(x: Record) returns (buf: string)
    requires x.Constraint?
    ensures buf == Image(Canonical(x))
  {
    hide Flat, U32, U64, CanonicalDouble;
    var w := new Writer();
    w.PutHeader(ConstraintKind);
    PutBudgetPart(w, x);
    PutPricePart(w, x);
    assert w.parts == Fields(Canonical(x));
    buf := w.buf;
  }

  lemma LimitStep(es: seq<(nat, nat)>, i: nat)
    requires i < |es|
    ensures LimitFields(CanonicalLimits(es[..i + 1]))
         == LimitFields(CanonicalLimits(es[..i])) + [U32(es[i].0)] + [U64(CanonicalDouble(es[i].1))]
  {
    assert es[..i + 1][..i] == es[..i];
    LimitFieldsGrow(CanonicalLimits(es[..i]), es[i].0, CanonicalDouble(es[i].1));
  }

  lemma NoLimits(es: seq<(nat, nat)>)
    ensures LimitFields(CanonicalLimits(es[..0])) == []
  {
  }

  lemma NoStates(es: seq<(nat, string)>)
    ensures StateFields(es[..0]) == []
  {
  }

  method PutLimits(w: Writer, es: seq<(nat, nat)>)
    requires w.Valid()
    modifies w
    ensures w.Valid() && w.parts == old(w.parts) + LimitFields(CanonicalLimits(es))
  {
    NoLimits(es);
    hide Flat, U32, U64, CanonicalDouble, LimitFields, CanonicalLimits;
    for i := 0 to |es|
      invariant w.Valid() && w.parts == old(w.parts) + LimitFields(CanonicalLimits(es[..i]))
    {
      LimitStep(es, i);
      w.PutU32(es[i].0);
      w.PutDouble(es[i].1);
    }
    assert es[..|es|] == es;
  }

  method EncodeController(x: Record) returns (buf: string)
    requires x.Controller?
    ensures buf == Image(Canonical(x))
  {
    hide Flat, U32, U64, CanonicalDouble, LimitFields, CanonicalLimits;
    var w := new Writer();
    w.PutHeader(ControllerKind);
    w.PutDouble(x.eta);
    w.PutDouble(x.rho);
    w.PutDouble(x.kSigma);
    w.PutU64(x.maxAge);
    w.PutU64(x.cadence);
    w.PutU32(|x.limits|);
    PutLimits(w, x.limits);
    assert w.parts == Fields(Canonical(x));
    buf := w.buf;
  }

  lemma StateStep(es: seq<(nat, string)>, i: nat)
    requires i < |es|
    ensures StateFields(es[..i + 1]) == StateFields(es[..i]) + [U32(es[i].0)] + [es[i].1]
  {
    assert es[..i + 1] == es[..i] + [(es[i].0, es[i].1)];
    StateFieldsGrow(es[..i], es[i].0, es[i].1);
  }

  method PutStates(w: Writer, es: seq<(nat, string)>)
    requires w.Valid()
    modifies w
    ensures w.Valid() && w.parts == old(w.parts) + StateFields(es)
  {
    NoStates(es);
    hide Flat, U32, StateFields;
    for i := 0 to |es|
      invariant w.Valid() && w.parts == old(w.parts) + StateFields(es[..i])
    {
      StateStep(es, i);
      w.PutU32(es[i].0);
      w.Put(es[i].1);
    }
    assert es[..|es|] == es;
  }

  method EncodePriceVector(x: Record) returns (buf: string)
    requires x.PriceVector?
    ensures buf == Image(Canonical(x))
  {
    hide Flat, U32, U64, StateFields;
    var w := new Writer();
    w.PutHeader(PriceVectorKind);
    w.PutU64(x.generation);
    w.Put(x.context);
    w.PutU32(|x.states|);
    PutStates(w, x.states);
    assert w.parts == Fields(Canonical(x));
    buf := w.buf;
  }
}
