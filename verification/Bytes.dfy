/** Byte strings, fixed-width little-endian numbers and digests. A byte is a char below 256, and a
    Rust string is its UTF-8 bytes. SHA-256 in hex is a function parameter `Hash`: nothing is known
    about it but the shape of its results. */
module Bytes {

  predicate IsHexChar(c: char) {
    '0' <= c <= '9' || 'a' <= c <= 'f'
  }

  /** Sixty-four lowercase hex characters. */
  predicate IsHexDigest(s: string) {
    |s| == 64 && forall i :: 0 <= i < 64 ==> IsHexChar(s[i])
  }

  function Zeros(n: nat): (s: string)
    ensures |s| == n && forall i :: 0 <= i < n ==> s[i] == '0'
  {
    if n == 0 then "" else Zeros(n - 1) + "0"
  }

  type Digest = s: string | IsHexDigest(s) witness Zeros(64)

  type Hash = string -> Digest

  /** No two different inputs among these have the same digest. Asked only of the finitely many
      inputs that a statement is about: over all strings it could not hold. */
  ghost predicate CollisionFree(h: Hash, inputs: set<string>) {
    forall x, y :: x in inputs && y in inputs && h(x) == h(y) ==> x == y
  }

  function Pow256(k: nat): (p: nat)
    ensures p >= 1
  {
    if k == 0 then 1 else 256 * Pow256(k - 1)
  }

  /** The low k bytes of n, least significant first. */
  function LittleEndian(n: nat, k: nat): (s: string)
    ensures |s| == k
  {
    if k == 0 then "" else [(n % 256) as char] + LittleEndian(n / 256, k - 1)
  }

  lemma {:induction false} LittleEndianInjective(m: nat, n: nat, k: nat)
    requires m < Pow256(k) && n < Pow256(k)
    requires LittleEndian(m, k) == LittleEndian(n, k)
    ensures m == n
  {
    if k > 0 {
      var a, b := LittleEndian(m, k), LittleEndian(n, k);
      assert a[0] == b[0] && a[1..] == LittleEndian(m / 256, k - 1) && b[1..] == LittleEndian(n / 256, k - 1);
      LittleEndianInjective(m / 256, n / 256, k - 1);
    }
  }

  function FromLittleEndian(s: string): nat {
    if s == "" then 0 else s[0] as nat + 256 * FromLittleEndian(s[1..])
  }

  lemma {:induction false} LittleEndianDecodes(n: nat, k: nat)
    requires n < Pow256(k)
    ensures FromLittleEndian(LittleEndian(n, k)) == n
  {
    if k > 0 {
      LittleEndianDecodes(n / 256, k - 1);
      assert LittleEndian(n, k)[1..] == LittleEndian(n / 256, k - 1);
    }
  }

  /** A byte string whose characters are bytes. */
  predicate IsBytes(s: string) {
    forall i :: 0 <= i < |s| ==> s[i] as nat < 256
  }

  lemma {:induction false} LittleEndianEncodes(s: string)
    requires IsBytes(s)
    ensures FromLittleEndian(s) < Pow256(|s|)
    ensures LittleEndian(FromLittleEndian(s), |s|) == s
  {
    if s != "" {
      LittleEndianEncodes(s[1..]);
    }
  }

  function U64(n: nat): (s: string)
    ensures |s| == 8
  {
    LittleEndian(n, 8)
  }

  const U64_LIMIT: nat := 0x1_0000_0000_0000_0000

  lemma U64Injective(m: nat, n: nat)
    requires m < U64_LIMIT && n < U64_LIMIT && U64(m) == U64(n)
    ensures m == n
  {
    U64Limit();
    LittleEndianInjective(m, n, 8);
  }

  lemma U64Limit()
    ensures Pow256(8) == U64_LIMIT
  {
    assert Pow256(1) == 256;
    assert Pow256(2) == 0x1_0000;
    assert Pow256(4) == 0x1_0000_0000;
    assert Pow256(6) == 0x1_0000_0000_0000;
  }

  lemma Assoc(a: string, b: string, c: string)
    ensures a + b + c == a + (b + c)
  {
  }

  /** Equal concatenations with equally long first parts agree part by part. */
  lemma SplitEqual(a: string, b: string, c: string, d: string)
    requires |a| == |c| && a + b == c + d
    ensures a == c && b == d
  {
    assert a == (a + b)[..|a|] == (c + d)[..|a|] == c;
    assert b == (a + b)[|a|..] == (c + d)[|a|..] == d;
  }
}
