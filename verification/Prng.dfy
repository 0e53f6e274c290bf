/** The xoshiro256++ generator with its SplitMix64 seeding. A 64-bit word is its sequence of bits,
    least significant first, so that shifts, rotations and exclusive or act on positions. */
module Prng {

  type Word = w: seq<bool> | |w| == 64 witness Repeat(64)

  function Repeat(n: nat): (r: seq<bool>)
    ensures |r| == n && forall i :: 0 <= i < n ==> !r[i]
  {
    if n == 0 then [] else Repeat(n - 1) + [false]
  }

  const NOUGHT: Word := Repeat(64)

  function Xor(a: Word, b: Word): Word {
    seq(64, i requires 0 <= i < 64 => a[i] != b[i])
  }

  function ShiftLeft(a: Word, n: nat): Word {
    seq(64, i requires 0 <= i < 64 => n <= i && a[i - n])
  }

  function ShiftRight(a: Word, n: nat): Word {
    seq(64, i requires 0 <= i < 64 => i + n < 64 && a[i + n])
  }

  function RotateLeft(a: Word, n: nat): Word
    requires n <= 64
  {
    a[64 - n..] + a[..64 - n]
  }

  function Pow2(n: nat): (p: nat)
    ensures p >= 1
  {
    if n == 0 then 1 else 2 * Pow2(n - 1)
  }

  function Value(bits: seq<bool>): nat {
    if bits == [] then 0 else (if bits[0] then 1 else 0) + 2 * Value(bits[1..])
  }

  /** The low 64 bits of a number. */
  function Truncated(n: nat): Word {
    seq(64, i requires 0 <= i < 64 => (n / Pow2(i)) % 2 == 1)
  }

  function WrappingAdd(a: Word, b: Word): Word {
    Truncated(Value(a) + Value(b))
  }

  function WrappingMul(a: Word, n: nat): Word {
    Truncated(Value(a) * n)
  }

  lemma QuotientTwice(n: nat, p: nat)
    requires p >= 1
    ensures n / 2 / p == n / (2 * p)
  {
    var q, r := n / 2 / p, n / 2 % p;
    assert n / 2 == q * p + r;
    var rest := n - q * (2 * p);
    assert q * (2 * p) == 2 * (q * p);
    assert 0 <= rest < 2 * p;
    QuotientIs(n, 2 * p, q, rest);
  }

  lemma QuotientIs(n: nat, p: nat, q: nat, rest: nat)
    requires p >= 1 && n == q * p + rest && rest < p
    ensures n / p == q && n % p == rest
  {
    var e := n / p - q;
    assert n == (n / p) * p + n % p;
    assert e * p == rest - n % p;
    Multiple(e, p);
  }

  lemma Multiple(e: int, p: int)
    requires p >= 1
    ensures e >= 1 ==> e * p >= p
    ensures e <= -1 ==> e * p <= 0 - p
  {
  }

  ghost predicate BitAt(n: nat, i: nat) {
    (n / Pow2(i)) % 2 == 1
  }

  lemma NextBit(n: nat, i: nat)
    ensures BitAt(n, i + 1) == BitAt(n / 2, i)
  {
    QuotientTwice(n, Pow2(i));
  }

  ghost function Bits(n: nat, k: nat): seq<bool> {
    seq(k, i requires 0 <= i < k => BitAt(n, i))
  }

  lemma HalvedBits(n: nat, k: nat)
    requires k > 0
    ensures Bits(n, k) == [n % 2 == 1] + Bits(n / 2, k - 1)
  {
    assert BitAt(n, 0) == (n % 2 == 1) by { assert Pow2(0) == 1; }
    hide BitAt;
    forall i | 0 <= i < k ensures Bits(n, k)[i] == ([n % 2 == 1] + Bits(n / 2, k - 1))[i] {
      if i > 0 {
        NextBit(n, i - 1);
      }
    }
  }

  lemma ValueOfMore(b: bool, bits: seq<bool>)
    ensures Value([b] + bits) == (if b then 1 else 0) + 2 * Value(bits)
  {
    assert ([b] + bits)[1..] == bits;
  }

  lemma {:induction false} BitsValue(n: nat, k: nat)
    ensures Value(Bits(n, k)) == n % Pow2(k)
  {
    if k > 0 {
      hide Value, BitAt;
      HalvedBits(n, k);
      ValueOfMore(n % 2 == 1, Bits(n / 2, k - 1));
      BitsValue(n / 2, k - 1);
      assert Pow2(k) == 2 * Pow2(k - 1);
      hide Pow2, Bits;
      HalvesRemainder(n, Pow2(k - 1));
    }
  }

  lemma HalvesRemainder(n: nat, p: nat)
    requires p >= 1
    ensures n % (2 * p) == n % 2 + 2 * (n / 2 % p)
  {
    var q, r := n / 2 / p, n / 2 % p;
    assert n / 2 == q * p + r;
    assert q * (2 * p) == 2 * (q * p);
    QuotientIs(n, 2 * p, q, n % 2 + 2 * r);
  }

  /** Additions and multiplications wrap around at 2 to the 64. */
  lemma WrapsAround(a: Word, b: Word, n: nat)
    ensures Value(WrappingAdd(a, b)) == (Value(a) + Value(b)) % Pow2(64)
    ensures Value(WrappingMul(a, n)) == (Value(a) * n) % Pow2(64)
  {
    hide Value, Pow2;
    BitsValue(Value(a) + Value(b), 64);
    BitsValue(Value(a) * n, 64);
    assert WrappingAdd(a, b) == Bits(Value(a) + Value(b), 64);
    assert WrappingMul(a, n) == Bits(Value(a) * n, 64);
  }

  datatype State = State(s0: Word, s1: Word, s2: Word, s3: Word)

  const ZERO := State(NOUGHT, NOUGHT, NOUGHT, NOUGHT)

  function Output(s: State): Word {
    WrappingAdd(RotateLeft(WrappingAdd(s.s0, s.s3), 23), s.s0)
  }

  /** One step of the generator's state. */
  function Step(s: State): State {
    var s2 := Xor(s.s2, s.s0);
    var s3 := Xor(s.s3, s.s1);
    State(Xor(s.s0, s3), Xor(s.s1, s2), Xor(s2, ShiftLeft(s.s1, 17)), RotateLeft(s3, 45))
  }

  /** Solves Xor(x, ShiftLeft(x, 17)) == y for x, lowest bits first. */
  function Unshift(y: Word): Word {
    Xor(Xor(y, ShiftLeft(y, 17)), Xor(ShiftLeft(y, 34), ShiftLeft(y, 51)))
  }

  /** The step run backwards. */
  function Unstep(s: State): State {
    var s3 := RotateLeft(s.s3, 19);
    var s0 := Xor(s.s0, s3);
    var s1 := Unshift(Xor(s.s1, s.s2));
    State(s0, s1, Xor(Xor(s.s1, s1), s0), Xor(s3, s1))
  }

  lemma RotateBack(x: Word)
    ensures RotateLeft(RotateLeft(x, 45), 19) == x
    ensures RotateLeft(RotateLeft(x, 19), 45) == x
  {
  }

  lemma UnshiftBack(x: Word)
    ensures Unshift(Xor(x, ShiftLeft(x, 17))) == x
    ensures Xor(Unshift(x), ShiftLeft(Unshift(x), 17)) == x
  {
    var y := Xor(x, ShiftLeft(x, 17));
    forall i | 0 <= i < 64
      ensures Unshift(y)[i] == x[i]
    {
    }
    forall i | 0 <= i < 64
      ensures Xor(Unshift(x), ShiftLeft(Unshift(x), 17))[i] == x[i]
    {
    }
  }

  lemma XorLaws(a: Word, b: Word, c: Word)
    ensures Xor(Xor(a, b), b) == a && Xor(Xor(a, b), a) == b
    ensures Xor(Xor(a, b), Xor(b, c)) == Xor(a, c)
  {
  }

  lemma StepUndone(s: State)
    ensures Unstep(Step(s)) == s
  {
    var x, y, t := Xor(s.s2, s.s0), Xor(s.s3, s.s1), ShiftLeft(s.s1, 17);
    RotateBack(y);
    XorLaws(s.s0, y, y);
    XorLaws(s.s1, x, t);
    UnshiftBack(s.s1);
    XorLaws(s.s2, s.s0, s.s0);
    XorLaws(s.s3, s.s1, s.s1);
  }

  lemma UnstepUndone(s: State)
    ensures Step(Unstep(s)) == s
  {
    var u := Unstep(s);
    var s3 := RotateLeft(s.s3, 19);
    var x := Xor(s.s1, u.s1);
    RotateBack(s.s3);
    XorLaws(x, u.s0, u.s0);
    XorLaws(s3, u.s1, u.s1);
    XorLaws(s.s0, s3, s3);
    XorLaws(u.s1, s.s1, s.s1);
    UnshiftBack(Xor(s.s1, s.s2));
    Solved(s.s1, s.s2, u.s1, ShiftLeft(u.s1, 17));
  }

  lemma Solved(a: Word, b: Word, x: Word, t: Word)
    requires Xor(x, t) == Xor(a, b)
    ensures Xor(Xor(a, x), t) == b
    ensures Xor(x, Xor(a, x)) == a
  {
    forall i | 0 <= i < 64
      ensures Xor(Xor(a, x), t)[i] == b[i]
    {
      assert Xor(x, t)[i] == Xor(a, b)[i];
    }
  }

  /** The state step is a bijection on 256-bit states. */
  lemma StepBijective(s: State)
    ensures Unstep(Step(s)) == s && Step(Unstep(s)) == s
  {
    StepUndone(s);
    UnstepUndone(s);
  }

  /** Only the all-zero state steps to the all-zero state. */
  lemma ZeroIsIsolated(s: State)
    ensures Step(s) == ZERO <==> s == ZERO
  {
    assert Xor(NOUGHT, NOUGHT) == NOUGHT == ShiftLeft(NOUGHT, 17) == RotateLeft(NOUGHT, 45);
    StepUndone(s);
    StepUndone(ZERO);
  }

  function Mix(sm: Word): Word {
    var z := WrappingMul(Xor(sm, ShiftRight(sm, 30)), 0xbf58476d1ce4e5b9);
    var y := WrappingMul(Xor(z, ShiftRight(z, 27)), 0x94d049bb133111eb);
    Xor(y, ShiftRight(y, 31))
  }

  function NonZero(x: Word, fallback: nat): Word {
    if x == NOUGHT then Truncated(fallback) else x
  }

  function Seeded(seed: Word): State {
    var golden := Truncated(0x9e3779b97f4a7c15);
    var a := WrappingAdd(seed, golden);
    var b := WrappingAdd(a, golden);
    var c := WrappingAdd(b, golden);
    var d := WrappingAdd(c, golden);
    State(NonZero(Mix(a), 1), NonZero(Mix(b), 2), NonZero(Mix(c), 3), NonZero(Mix(d), 4))
  }

  lemma SeededNonZero(seed: Word)
    ensures Seeded(seed) != ZERO
  {
    assert Truncated(1)[0];
  }

  class FastPrng {
    var s: State

    ghost predicate Valid()
      reads this
    {
      s != ZERO
    }

    constructor (seed: Word)
      ensures Valid() && s == Seeded(seed)
    {
      SeededNonZero(seed);
      s := Seeded(seed);
    }

    method NextU64() returns (res: Word)
      requires Valid()
      modifies this
      ensures Valid() && s == Step(old(s)) && res == Output(old(s))
    {
      ZeroIsIsolated(s);
      res := WrappingAdd(RotateLeft(WrappingAdd(s.s0, s.s3), 23), s.s0);
      var t := ShiftLeft(s.s1, 17);
      s := s.(s2 := Xor(s.s2, s.s0));
      s := s.(s3 := Xor(s.s3, s.s1));
      s := s.(s1 := Xor(s.s1, s.s2));
      s := s.(s0 := Xor(s.s0, s.s3));
      s := s.(s2 := Xor(s.s2, t));
      s := s.(s3 := RotateLeft(s.s3, 45));
    }

    /** A number below upper; no number is drawn when there is no choice. */
    method GenRange(upper: nat) returns (i: nat)
      requires Valid()
      modifies this
      ensures Valid() && (i < upper || (upper == 0 && i == 0))
      ensures upper <= 1 ==> s == old(s)
      ensures upper > 1 ==> s == Step(old(s)) && i == Value(Output(old(s))) % upper
    {
      if upper <= 1 {
        return 0;
      }
      var res := NextU64();
      i := Value(res) % upper;
    }
  }
}
