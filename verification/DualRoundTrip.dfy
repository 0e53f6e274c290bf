/** The laws of the DUAL codec: decoding is a function, it undoes encoding, and encoding undoes it
    except for signed zeros. */
module DualRoundTrip {
  import opened Wrappers
  import opened Bytes
  import opened DualRecords
  import opened DualLayout
  import opened DualCodec

  /** The bytes fix the outcome of decoding. */
  lemma DecodingIsUnique(k: Kind, buf: string, r: Result<Record, Refusal>, s: Result<Record, Refusal>)
    requires Decodes(k, buf, r) && Decodes(k, buf, s)
    ensures r == s
  {
    if FormRefusal(k, buf).None? {
      var x :| Stands(k, buf, x) && r == Checked(x);
      var y :| Stands(k, buf, y) && s == Checked(y);
      ImageUnique(x, y);
    }
  }

  lemma {:induction false} CanonicalLimitsChecked(es: seq<(nat, nat)>, cs: seq<(nat, nat)>)
    requires |cs| == |es| && forall i :: 0 <= i < |es| ==> cs[i] == (es[i].0, CanonicalDouble(es[i].1))
    ensures CheckLimits(es).None? ==> CheckLimits(cs).None?
  {
    if es != [] {
      CanonicalLimitsChecked(es[1..], cs[1..]);
    }
  }

  lemma CanonicalLimitsKeep(es: seq<(nat, nat)>)
    ensures CanonicalLimits(CanonicalLimits(es)) == CanonicalLimits(es)
    ensures IdsAscending(es) ==> IdsAscending(CanonicalLimits(es))
    ensures CheckLimits(es).None? ==> CheckLimits(CanonicalLimits(es)).None?
  {
    CanonicalLimitsChecked(es, CanonicalLimits(es));
  }

  lemma CanonicalControllerKeeps(x: Record)
    requires x.Controller? && InRange(x) && CheckController(x).None?
    ensures InRange(Canonical(x)) && CheckController(Canonical(x)).None? && Canonical(Canonical(x)) == Canonical(x)
  {
    hide CheckLimits, IdsAscending;
    CanonicalLimitsKeep(x.limits);
  }

  /** Replacing -0.0 by +0.0 keeps a record acceptable and in range, and changes nothing the second
      time. */
  lemma CanonicalKeeps(x: Record)
    requires InRange(x) && Check(x).None?
    ensures InRange(Canonical(x)) && Check(Canonical(x)).None? && Canonical(x).Kind() == x.Kind()
    ensures Canonical(Canonical(x)) == Canonical(x)
  {
    if x.Controller? {
      hide CheckController, CanonicalLimits;
      CanonicalControllerKeeps(x);
    }
  }

  lemma CanonicalLimitsFixed(es: seq<(nat, nat)>)
    requires forall i :: 0 <= i < |es| ==> es[i].1 != NEGATIVE_ZERO
    ensures CanonicalLimits(es) == es
  {
  }

  lemma CanonicalIffNoNegativeZero(x: Record)
    ensures Canonical(x) == x <==> !HasNegativeZero(x)
  {
    if x.Controller? {
      var cs := CanonicalLimits(x.limits);
      if cs == x.limits {
        forall i | 0 <= i < |x.limits| ensures x.limits[i].1 != NEGATIVE_ZERO {
          assert cs[i] == x.limits[i];
        }
      }
      if forall i :: 0 <= i < |x.limits| ==> x.limits[i].1 != NEGATIVE_ZERO {
        CanonicalLimitsFixed(x.limits);
      }
    }
  }

  /** The number of entries of a record that has them. */
  function Entries(x: Record): nat {
    match x
    case Controller(_, _, _, _, _, limits) => |limits|
    case PriceVector(_, _, states) => |states|
    case _ => 1
  }

  /** The first `n` fields of a flat image. */
  lemma FlatPrefix(fs: seq<string>, n: nat)
    requires n <= |fs|
    ensures Flat(fs[..n]) <= Flat(fs)
  {
    assert fs == fs[..n] + fs[n..];
    FlatConcat(fs[..n], fs[n..]);
  }

  lemma ImageHeader(x: Record)
    ensures HeaderRefusal(x.Kind(), Image(x)).None?
  {
    var h := Header(x.Kind());
    FlatPrefix(Fields(x), 2);
    assert Fields(x)[..2] == h;
    assert h[..1] == [LittleEndian(x.Kind().Number(), 1)] && h[..1][..0] == [];
    assert Flat(h[..1]) == Flat([]) + LittleEndian(x.Kind().Number(), 1);
    assert Flat(h) == Flat(h[..1]) + LittleEndian(FORMAT_VERSION, 1);
    var b := Image(x);
    assert b[..2] == Flat(h);
    assert b[0] == b[..2][0] && b[1] == b[..2][1];
  }

  /** The count is the last field of a head of 46 bytes. */
  lemma CountAfterHead(x: Record, n: nat)
    requires InRange(x) && (x.Controller? || x.PriceVector?) && 1 <= n <= |FieldWidths(x)|
    requires Total(FieldWidths(x)[..n]) == 46
    requires Widths(Fields(x), FieldWidths(x)) && Fields(x)[n - 1] == U32(Entries(x))
    ensures |Image(x)| >= 46 && CountAt(Image(x)) == Entries(x)
  {
    hide Flat, Fields, FieldWidths, Total;
    var head := Fields(x)[..n];
    FlatLength(head, FieldWidths(x)[..n]);
    FlatPrefix(Fields(x), n);
    CountRead(Image(x), head, Entries(x));
  }

  lemma ImageCount(x: Record)
    requires InRange(x) && (x.Controller? || x.PriceVector?)
    ensures |Image(x)| >= 46 && CountAt(Image(x)) == Entries(x)
  {
    FieldsHaveWidths(x);
    FixedTotals();
    hide Flat, Total;
    if x.Controller? {
      assert FieldWidths(x)[..8] == [1, 1, 8, 8, 8, 8, 8, 4];
      CountAfterHead(x, 8);
    } else {
      assert FieldWidths(x)[..5] == [1, 1, 8, 32, 4];
      CountAfterHead(x, 5);
    }
  }

  /** A record with an acceptable number of entries has a well-formed image. */
  lemma ImageIsWellFormed(x: Record)
    requires InRange(x) && 1 <= Entries(x) <= MAX_RESOURCES
    ensures FormRefusal(x.Kind(), Image(x)).None?
  {
    ImageHeader(x);
    ImageHasLength(x);
    if x.Controller? || x.PriceVector? {
      ImageCount(x);
    }
  }

  /** Decoding undoes encoding: every acceptable record comes back, with +0.0 for -0.0. */
  lemma DecodeEncoded(x: Record, r: Result<Record, Refusal>)
    requires InRange(x) && Check(x).None? && Decodes(x.Kind(), Image(Canonical(x)), r)
    ensures r == Ok(Canonical(x))
  {
    CanonicalKeeps(x);
    var c := Canonical(x);
    ImageIsWellFormed(c);
    assert Stands(x.Kind(), Image(c), c);
    assert Decodes(x.Kind(), Image(c), Ok(c));
    DecodingIsUnique(x.Kind(), Image(c), r, Ok(c));
  }

  lemma StandsDecoded(k: Kind, buf: string, x: Record)
    requires Decodes(k, buf, Ok(x))
    ensures Stands(k, buf, x) && Check(x).None?
  {
    var y :| Stands(k, buf, y) && Ok(x) == Checked(y);
  }

  lemma EntriesInRange(x: Record)
    requires Check(x).None?
    ensures 1 <= Entries(x) <= MAX_RESOURCES
  {
  }

  /** Encoding undoes decoding exactly when no double of the record is -0.0; otherwise it gives the
      canonical bytes, which decode and encode to themselves. */
  lemma EncodeDecoded(k: Kind, buf: string, x: Record)
    requires Decodes(k, buf, Ok(x))
    ensures InRange(x) && Check(x).None? && x.Kind() == k && Image(x) == buf
    ensures Image(Canonical(x)) == buf <==> !HasNegativeZero(x)
    ensures Decodes(k, Image(Canonical(x)), Ok(Canonical(x))) && Canonical(Canonical(x)) == Canonical(x)
  {
    StandsDecoded(k, buf, x);
    hide Image, InRange, Canonical, HasNegativeZero, Check;
    CanonicalKeeps(x);
    CanonicalIffNoNegativeZero(x);
    if Image(Canonical(x)) == buf {
      ImageUnique(Canonical(x), x);
    }
    EntriesInRange(Canonical(x));
    ImageIsWellFormed(Canonical(x));
    assert Stands(k, Image(Canonical(x)), Canonical(x)) && Ok(Canonical(x)) == Checked(Canonical(x));
  }

  /** Only these lengths are ever accepted. */
  lemma AcceptedLengths(k: Kind, buf: string, x: Record)
    requires Decodes(k, buf, Ok(x))
    ensures match k
      case ResourceKind => |buf| == 50
      case ConstraintKind => |buf| == 294
      case ControllerKind => 1 <= Entries(x) <= 32 && |buf| == 46 + 12 * Entries(x)
      case PriceVectorKind => 1 <= Entries(x) <= 32 && |buf| == 46 + 36 * Entries(x)
  {
    EncodeDecoded(k, buf, x);
    ImageHasLength(x);
  }

  function Filled(n: nat): (s: string)
    ensures |s| == n && forall i :: 0 <= i < n ==> s[i] == 1 as char
  {
    if n == 0 then "" else Filled(n - 1) + [1 as char]
  }

  function FirstIds<T>(n: nat, v: T): (es: seq<(nat, T)>)
    ensures |es| == n && forall i :: 0 <= i < n ==> es[i] == (i, v)
  {
    if n == 0 then [] else FirstIds(n - 1, v) + [(n - 1, v)]
  }

  lemma {:induction false} OnesChecked(es: seq<(nat, nat)>)
    requires forall i :: 0 <= i < |es| ==> es[i].1 == ONE
    ensures CheckLimits(es).None?
  {
    if es != [] {
      OnesChecked(es[1..]);
    }
  }

  /** An acceptable record whose length is the one asked for. */
  lemma SomeRecord(k: Kind, n: nat) returns (x: Record)
    requires 1 <= n <= MAX_RESOURCES
    ensures InRange(x) && x.Kind() == k && Check(x).None?
    ensures k == ControllerKind || k == PriceVectorKind ==> Entries(x) == n
  {
    var d := Filled(32);
    assert !IsAbsent(d) by { assert d[0] != 0 as char; }
    match k {
      case ResourceKind => x := Resource(0, 1, ONE, d);
      case ConstraintKind => x := Constraint(0, 1, 2, ONE, d, d, d, 1, ONE, ONE, d, ONE, 1, d, 0, 1, d, d);
      case ControllerKind =>
        x := Controller(ONE, ONE, ONE, 1, 1, FirstIds(n, ONE));
        OnesChecked(x.limits);
      case PriceVectorKind => x := PriceVector(0, d, FirstIds(n, d));
    }
  }

  /** And each of them is accepted for some record. */
  lemma AttainedLengths(k: Kind, n: nat) returns (x: Record)
    requires 1 <= n <= MAX_RESOURCES
    ensures Decodes(k, Image(x), Ok(x)) && InRange(x) && x.Kind() == k
    ensures k == ControllerKind || k == PriceVectorKind ==> Entries(x) == n
    ensures |Image(x)| == match k
      case ResourceKind => 50
      case ConstraintKind => 294
      case ControllerKind => 46 + 12 * n
      case PriceVectorKind => 46 + 36 * n
  {
    x := SomeRecord(k, n);
    ImageIsWellFormed(x);
    ImageHasLength(x);
    assert Stands(k, Image(x), x);
  }

  function Domain(k: Kind): string {
    match k
    case ResourceKind => "omega.dual.resource.v1"
    case ConstraintKind => "omega.dual.constraint.v1"
    case ControllerKind => "omega.dual.controller.v1"
    case PriceVectorKind => "omega.dual.pricevec.v1"
  }

  /** What the identity of a record is taken over. */
  function IdentityInput(x: Record): string {
    Domain(x.Kind()) + [0 as char] + Image(Canonical(x))
  }

  lemma DomainsDiffer(j: Kind, a: string, k: Kind, b: string)
    requires j != k
    ensures Domain(j) + ([0 as char] + a) != Domain(k) + ([0 as char] + b)
  {
    var s, t := Domain(j) + ([0 as char] + a), Domain(k) + ([0 as char] + b);
    assert s[11] == Domain(j)[11] && t[11] == Domain(k)[11];
    assert s[14] == Domain(j)[14] && t[14] == Domain(k)[14];
  }

  lemma DomainsApart(j: Kind, a: string, k: Kind, b: string)
    requires Domain(j) + [0 as char] + a == Domain(k) + [0 as char] + b
    ensures j == k && a == b
  {
    hide Domain;
    Assoc(Domain(j), [0 as char], a);
    Assoc(Domain(k), [0 as char], b);
    if j != k {
      DomainsDiffer(j, a, k, b);
    } else {
      SplitEqual(Domain(j), [0 as char] + a, Domain(k), [0 as char] + b);
      SplitEqual([0 as char], a, [0 as char], b);
    }
  }

  /** Two acceptable records have the same identity exactly when they are the same record up to the
      sign of zeros, of whatever kinds they are. */
  lemma IdentityIffEqual(h: Hash, x: Record, y: Record)
    requires InRange(x) && InRange(y) && Check(x).None? && Check(y).None?
    requires CollisionFree(h, {IdentityInput(x), IdentityInput(y)})
    ensures h(IdentityInput(x)) == h(IdentityInput(y)) <==> Canonical(x) == Canonical(y)
  {
    CanonicalKeeps(x);
    CanonicalKeeps(y);
    if h(IdentityInput(x)) == h(IdentityInput(y)) {
      DomainsApart(x.Kind(), Image(Canonical(x)), y.Kind(), Image(Canonical(y)));
      ImageUnique(Canonical(x), Canonical(y));
    }
  }
}
