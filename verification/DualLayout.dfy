/** The wire image of a record: its length, and why it determines the record. */
module DualLayout {
  import opened Wrappers
  import opened Bytes
  import opened DualRecords

  lemma FlatOne(fs: seq<string>, f: string)
    ensures Flat(fs + [f]) == Flat(fs) + f
  {
    assert (fs + [f])[..|fs|] == fs;
  }

  lemma {:induction false} FlatConcat(a: seq<string>, b: seq<string>)
    ensures Flat(a + b) == Flat(a) + Flat(b)
  {
    if b == [] {
      assert a + b == a;
    } else {
      var c, f := b[..|b| - 1], b[|b| - 1];
      assert a + b == (a + c) + [f] && b == c + [f];
      FlatConcat(a, c);
      FlatOne(a + c, f);
      FlatOne(c, f);
    }
  }

  ghost predicate Widths(fs: seq<string>, ws: seq<nat>) {
    |fs| == |ws| && forall i :: 0 <= i < |fs| ==> |fs[i]| == ws[i]
  }

  function Total(ws: seq<nat>): nat {
    if ws == [] then 0 else ws[0] + Total(ws[1..])
  }

  lemma {:induction false} TotalConcat(a: seq<nat>, b: seq<nat>)
    ensures Total(a + b) == Total(a) + Total(b)
  {
    if a == [] {
      assert a + b == b;
    } else {
      assert (a + b)[1..] == a[1..] + b;
      TotalConcat(a[1..], b);
    }
  }

  lemma {:induction false} FlatLength(fs: seq<string>, ws: seq<nat>)
    requires Widths(fs, ws)
    ensures |Flat(fs)| == Total(ws)
  {
    if fs != [] {
      var n := |fs| - 1;
      FlatLength(fs[..n], ws[..n]);
      assert ws == ws[..n] + [ws[n]];
      TotalConcat(ws[..n], [ws[n]]);
      assert [ws[n]][1..] == [];
    }
  }

  /** Fields of known widths can be told apart again. */
  lemma {:induction false} FlatUnique(fs: seq<string>, gs: seq<string>, ws: seq<nat>)
    requires Widths(fs, ws) && Widths(gs, ws) && Flat(fs) == Flat(gs)
    ensures fs == gs
  {
    if fs != [] {
      var n := |fs| - 1;
      FlatLength(fs[..n], ws[..n]);
      FlatLength(gs[..n], ws[..n]);
      SplitEqual(Flat(fs[..n]), fs[n], Flat(gs[..n]), gs[n]);
      FlatUnique(fs[..n], gs[..n], ws[..n]);
      assert fs == fs[..n] + [fs[n]] && gs == gs[..n] + [gs[n]];
    }
  }

  /** `n` entries of an id and something `w` bytes wide. */
  function EntryWidths(n: nat, w: nat): (ws: seq<nat>)
    ensures |ws| == 2 * n
  {
    if n == 0 then [] else EntryWidths(n - 1, w) + [4, w]
  }

  lemma {:induction false} EntryTotal(n: nat, w: nat)
    ensures Total(EntryWidths(n, w)) == n * (4 + w)
  {
    if n > 0 {
      EntryTotal(n - 1, w);
      TotalConcat(EntryWidths(n - 1, w), [4, w]);
      var e: seq<nat>, d: seq<nat> := [4, w], [w];
      assert e[1..] == d && d[1..] == [];
      assert Total(d) == w;
      assert e != [] && Total(e) == e[0] + Total(e[1..]);
      assert (n - 1) * (4 + w) + (4 + w) == n * (4 + w);
    }
  }

  lemma {:induction false} LimitWidths(es: seq<(nat, nat)>)
    ensures Widths(LimitFields(es), EntryWidths(|es|, 8))
  {
    if es != [] {
      LimitWidths(es[..|es| - 1]);
    }
  }

  lemma {:induction false} StateWidths(es: seq<(nat, string)>)
    requires forall i :: 0 <= i < |es| ==> |es[i].1| == 32
    ensures Widths(StateFields(es), EntryWidths(|es|, 32))
  {
    if es != [] {
      StateWidths(es[..|es| - 1]);
    }
  }

  function FieldWidths(x: Record): seq<nat> {
    match x
    case Resource(_, _, _, _) => [1, 1, 4, 4, 8, 32]
    case Constraint(_, _, _, _, _, _, _, _, _, _, _, _, _, _, _, _, _, _) =>
      [1, 1, 4, 4, 4, 8, 32, 32, 32, 4, 8, 8, 32, 8, 4, 32, 8, 8, 32, 32]
    case Controller(_, _, _, _, _, limits) => [1, 1, 8, 8, 8, 8, 8, 4] + EntryWidths(|limits|, 8)
    case PriceVector(_, _, states) => [1, 1, 8, 32, 4] + EntryWidths(|states|, 32)
  }

  lemma WidthsConcat(fs: seq<string>, ws: seq<nat>, gs: seq<string>, vs: seq<nat>)
    requires Widths(fs, ws) && Widths(gs, vs)
    ensures Widths(fs + gs, ws + vs)
  {
  }

  lemma ControllerWidths(x: Record)
    requires x.Controller? && InRange(x)
    ensures Widths(Fields(x), FieldWidths(x))
  {
    hide LimitFields, EntryWidths;
    var h := Header(x.Kind());
    var head := [U64(x.eta), U64(x.rho), U64(x.kSigma), U64(x.maxAge), U64(x.cadence), U32(|x.limits|)];
    LimitWidths(x.limits);
    assert h + (head + LimitFields(x.limits)) == (h + head) + LimitFields(x.limits);
    WidthsConcat(h + head, [1, 1, 8, 8, 8, 8, 8, 4], LimitFields(x.limits), EntryWidths(|x.limits|, 8));
  }

  lemma PriceVectorWidths(x: Record)
    requires x.PriceVector? && InRange(x)
    ensures Widths(Fields(x), FieldWidths(x))
  {
    hide StateFields, EntryWidths;
    var h := Header(x.Kind());
    var head := [U64(x.generation), x.context, U32(|x.states|)];
    StateWidths(x.states);
    assert h + (head + StateFields(x.states)) == (h + head) + StateFields(x.states);
    WidthsConcat(h + head, [1, 1, 8, 32, 4], StateFields(x.states), EntryWidths(|x.states|, 32));
  }

  lemma ConstraintWidths(x: Record)
    requires x.Constraint? && InRange(x)
    ensures Widths(Fields(x), FieldWidths(x))
  {
  }

  lemma FieldsHaveWidths(x: Record)
    requires InRange(x)
    ensures Widths(Fields(x), FieldWidths(x))
  {
    if x.Constraint? {
      ConstraintWidths(x);
    } else if x.Controller? {
      ControllerWidths(x);
    } else if x.PriceVector? {
      PriceVectorWidths(x);
    }
  }

  /** The length that a record of this kind and number of entries has. */
  function ImageLength(x: Record): nat {
    match x
    case Resource(_, _, _, _) => 50
    case Constraint(_, _, _, _, _, _, _, _, _, _, _, _, _, _, _, _, _, _) => 294
    case Controller(_, _, _, _, _, limits) => 46 + 12 * |limits|
    case PriceVector(_, _, states) => 46 + 36 * |states|
  }

  lemma FixedTotals()
    ensures Total([1, 1, 4, 4, 8, 32]) == 50
    ensures Total([1, 1, 8, 8, 8, 8, 8, 4]) == 46
    ensures Total([1, 1, 8, 32, 4]) == 46
    ensures Total([1, 1, 4, 4, 4, 8, 32]) == 54
    ensures Total([32, 32, 4, 8, 8, 32, 8]) == 124
    ensures Total([4, 32, 8, 8, 32, 32]) == 116
  {
  }

  lemma ConstraintTotal()
    ensures Total([1, 1, 4, 4, 4, 8, 32, 32, 32, 4, 8, 8, 32, 8, 4, 32, 8, 8, 32, 32]) == 294
  {
    hide Total;
    FixedTotals();
    var a: seq<nat>, b: seq<nat>, c: seq<nat> := [1, 1, 4, 4, 4, 8, 32], [32, 32, 4, 8, 8, 32, 8], [4, 32, 8, 8, 32, 32];
    TotalConcat(a, b);
    TotalConcat(a + b, c);
    assert a + b + c == [1, 1, 4, 4, 4, 8, 32, 32, 32, 4, 8, 8, 32, 8, 4, 32, 8, 8, 32, 32];
  }

  lemma ImageHasLength(x: Record)
    requires InRange(x)
    ensures |Image(x)| == ImageLength(x)
  {
    FieldsHaveWidths(x);
    FlatLength(Fields(x), FieldWidths(x));
    TotalWidth(x);
  }

  lemma TotalWidth(x: Record)
    ensures Total(FieldWidths(x)) == ImageLength(x)
  {
    hide Total;
    FixedTotals();
    match x
    case Resource(_, _, _, _) =>
    case Constraint(_, _, _, _, _, _, _, _, _, _, _, _, _, _, _, _, _, _) =>
      ConstraintTotal();
    case Controller(_, _, _, _, _, limits) =>
      EntryTotal(|limits|, 8);
      TotalConcat([1, 1, 8, 8, 8, 8, 8, 4], EntryWidths(|limits|, 8));
    case PriceVector(_, _, states) =>
      EntryTotal(|states|, 32);
      TotalConcat([1, 1, 8, 32, 4], EntryWidths(|states|, 32));
  }

  lemma U32Injective(m: nat, n: nat)
    requires m < U32_LIMIT && n < U32_LIMIT && U32(m) == U32(n)
    ensures m == n
  {
    assert Pow256(1) == 256;
    assert Pow256(2) == 0x1_0000;
    assert Pow256(4) == U32_LIMIT;
    LittleEndianInjective(m, n, 4);
  }

  lemma {:induction false} LimitsUnique(a: seq<(nat, nat)>, b: seq<(nat, nat)>)
    requires LimitFields(a) == LimitFields(b)
    requires forall i :: 0 <= i < |a| ==> a[i].0 < U32_LIMIT && IsDouble(a[i].1)
    requires forall i :: 0 <= i < |b| ==> b[i].0 < U32_LIMIT && IsDouble(b[i].1)
    ensures a == b
    decreases |a|
  {
    assert |LimitFields(a)| == 2 * |a| && |LimitFields(b)| == 2 * |b|;
    if a != [] {
      var n := |a| - 1;
      var f, g := LimitFields(a), LimitFields(b);
      assert f[2 * n] == U32(a[n].0) && f[2 * n + 1] == U64(a[n].1) && g[2 * n] == U32(b[n].0) && g[2 * n + 1] == U64(b[n].1);
      U32Injective(a[n].0, b[n].0);
      U64Injective(a[n].1, b[n].1);
      assert LimitFields(a[..n]) == f[..2 * n] && LimitFields(b[..n]) == g[..2 * n];
      LimitsUnique(a[..n], b[..n]);
      assert a == a[..n] + [a[n]] && b == b[..n] + [b[n]];
    }
  }

  lemma {:induction false} StatesUnique(a: seq<(nat, string)>, b: seq<(nat, string)>)
    requires StateFields(a) == StateFields(b)
    requires forall i :: 0 <= i < |a| ==> a[i].0 < U32_LIMIT
    requires forall i :: 0 <= i < |b| ==> b[i].0 < U32_LIMIT
    ensures a == b
    decreases |a|
  {
    assert |StateFields(a)| == 2 * |a| && |StateFields(b)| == 2 * |b|;
    if a != [] {
      var n := |a| - 1;
      var f, g := StateFields(a), StateFields(b);
      assert f[2 * n] == U32(a[n].0) && f[2 * n + 1] == a[n].1 && g[2 * n] == U32(b[n].0) && g[2 * n + 1] == b[n].1;
      U32Injective(a[n].0, b[n].0);
      assert StateFields(a[..n]) == f[..2 * n] && StateFields(b[..n]) == g[..2 * n];
      StatesUnique(a[..n], b[..n]);
      assert a == a[..n] + [a[n]] && b == b[..n] + [b[n]];
    }
  }

  lemma ResourceUnique(x: Record, y: Record)
    requires x.Resource? && y.Resource? && InRange(x) && InRange(y) && Fields(x) == Fields(y)
    ensures x == y
  {
    var f, g := Fields(x), Fields(y);
    assert f[2] == g[2] && f[3] == g[3] && f[4] == g[4] && f[5] == g[5];
    U32Injective(x.resourceId, y.resourceId);
    U32Injective(x.unit, y.unit);
    U64Injective(x.scale, y.scale);
  }

  lemma ConstraintUnique(x: Record, y: Record)
    requires x.Constraint? && y.Constraint? && InRange(x) && InRange(y) && Fields(x) == Fields(y)
    ensures x == y
  {
    var f, g := Fields(x)[2..], Fields(y)[2..];
    assert f[0] == g[0] && f[1] == g[1] && f[2] == g[2] && f[3] == g[3] && f[4] == g[4] && f[5] == g[5];
    assert f[6] == g[6] && f[7] == g[7] && f[8] == g[8] && f[9] == g[9] && f[10] == g[10] && f[11] == g[11];
    assert f[12] == g[12] && f[13] == g[13] && f[14] == g[14] && f[15] == g[15] && f[16] == g[16] && f[17] == g[17];
    U32Injective(x.resourceId, y.resourceId);
    U32Injective(x.unit, y.unit);
    U32Injective(x.cls, y.cls);
    U64Injective(x.budget, y.budget);
    U32Injective(x.estimateKind, y.estimateKind);
    U64Injective(x.estimate, y.estimate);
    U64Injective(x.uncertainty, y.uncertainty);
    U64Injective(x.lambda, y.lambda);
    U32Injective(x.lambdaState, y.lambdaState);
    U64Injective(x.generation, y.generation);
    U64Injective(x.tick, y.tick);
  }

  lemma ControllerUnique(x: Record, y: Record)
    requires x.Controller? && y.Controller? && InRange(x) && InRange(y) && Fields(x) == Fields(y)
    ensures x == y
  {
    var f, g := Fields(x)[2..], Fields(y)[2..];
    assert f[0] == g[0] && f[1] == g[1] && f[2] == g[2] && f[3] == g[3] && f[4] == g[4];
    U64Injective(x.eta, y.eta);
    U64Injective(x.rho, y.rho);
    U64Injective(x.kSigma, y.kSigma);
    U64Injective(x.maxAge, y.maxAge);
    U64Injective(x.cadence, y.cadence);
    assert LimitFields(x.limits) == f[6..] && LimitFields(y.limits) == g[6..];
    LimitsUnique(x.limits, y.limits);
  }

  lemma PriceVectorUnique(x: Record, y: Record)
    requires x.PriceVector? && y.PriceVector? && InRange(x) && InRange(y) && Fields(x) == Fields(y)
    ensures x == y
  {
    var f, g := Fields(x)[2..], Fields(y)[2..];
    assert f[0] == g[0] && f[1] == g[1];
    U64Injective(x.generation, y.generation);
    assert StateFields(x.states) == f[3..] && StateFields(y.states) == g[3..];
    StatesUnique(x.states, y.states);
  }

  lemma SameWidths(x: Record, y: Record)
    requires x.Kind() == y.Kind() && ImageLength(x) == ImageLength(y)
    ensures FieldWidths(x) == FieldWidths(y)
  {
  }

  lemma SameFields(x: Record, y: Record)
    requires InRange(x) && InRange(y) && x.Kind() == y.Kind() && Image(x) == Image(y)
    ensures Fields(x) == Fields(y)
  {
    hide Fields, FieldWidths, InRange, ImageLength, Flat;
    FieldsHaveWidths(x);
    FieldsHaveWidths(y);
    ImageHasLength(x);
    ImageHasLength(y);
    SameWidths(x, y);
    FlatUnique(Fields(x), Fields(y), FieldWidths(x));
  }

  /** A wire image of a given kind determines the record, bit for bit. */
  lemma ImageUnique(x: Record, y: Record)
    requires InRange(x) && InRange(y) && x.Kind() == y.Kind() && Image(x) == Image(y)
    ensures x == y
  {
    SameFields(x, y);
    hide Fields, Image, InRange;
    if x.Resource? {
      ResourceUnique(x, y);
    } else if x.Constraint? {
      ConstraintUnique(x, y);
    } else if x.Controller? {
      ControllerUnique(x, y);
    } else {
      PriceVectorUnique(x, y);
    }
  }
}
