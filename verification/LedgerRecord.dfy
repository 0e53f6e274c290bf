/** Ledger blocks: the hash over their fields, and why that hash fixes every field. */
module LedgerRecord {
  import opened Wrappers
  import opened Bytes
  import opened Decimal
  import opened Merkle

  datatype BlockType = Genesis | Evaluation | Promotion | Rollback | PromotionEvidence

  function TypeName(t: BlockType): (s: string)
    ensures s != ""
  {
    match t
    case Genesis => "GENESIS"
    case Evaluation => "EVALUATION"
    case Promotion => "PROMOTION"
    case Rollback => "ROLLBACK"
    case PromotionEvidence => "PROMOTION_EVIDENCE"
  }

  datatype LedgerBlock = LedgerBlock(
    sequence: nat, blockType: BlockType, timestamp: string, prevHash: string,
    payload: string, payloadDigest: string, blobHashes: seq<string>, blockHash: string)

  const GENESIS_PREV_HASH: Digest := Zeros(64)

  function Concat(parts: seq<string>): string {
    if parts == [] then "" else Concat(parts[..|parts| - 1]) + parts[|parts| - 1]
  }

  /** The bytes a block hash is taken over: no lengths, no separators. */
  function BlockInput(sequence: nat, t: BlockType, timestamp: string, prevHash: string, payloadDigest: string, blobs: seq<string>): string {
    U64(sequence) + (TypeName(t) + (timestamp + (prevHash + (payloadDigest + Concat(blobs)))))
  }

  /** Feeds the fields to the hasher one after the other. */
  method ComputeBlockHash(h: Hash, sequence: nat, t: BlockType, timestamp: string, prevHash: string, payloadDigest: string, blobs: seq<string>)
    returns (hash: Digest)
    ensures hash == h(BlockInput(sequence, t, timestamp, prevHash, payloadDigest, blobs))
  {
    var hasher := U64(sequence);
    hasher := hasher + TypeName(t);
    hasher := hasher + timestamp;
    hasher := hasher + prevHash;
    hasher := hasher + payloadDigest;
    ghost var start := hasher;
    for i := 0 to |blobs|
      invariant hasher == start + Concat(blobs[..i])
    {
      hasher := hasher + blobs[i];
      assert blobs[..i + 1][..i] == blobs[..i];
    }
    assert blobs[..|blobs|] == blobs;
    Reassociate(U64(sequence), TypeName(t), timestamp, prevHash, payloadDigest, Concat(blobs));
    hash := h(hasher);
  }

  lemma Reassociate(a: string, b: string, c: string, d: string, e: string, f: string)
    ensures a + b + c + d + e + f == a + (b + (c + (d + (e + f))))
  {
    assert a + b + c == a + (b + c);
    assert d + e + f == d + (e + f);
  }

  function InputOf(b: LedgerBlock): string {
    BlockInput(b.sequence, b.blockType, b.timestamp, b.prevHash, b.payloadDigest, b.blobHashes)
  }

  /** A block with both digests filled in. */
  function NewBlock(h: Hash, sequence: nat, t: BlockType, timestamp: string, prevHash: string, payload: string, blobs: seq<string>): (b: LedgerBlock)
    ensures Intact(h, b)
  {
    var digest := h(payload);
    LedgerBlock(sequence, t, timestamp, prevHash, payload, digest, blobs,
                h(BlockInput(sequence, t, timestamp, prevHash, digest, blobs)))
  }

  /** Both stored digests equal the recomputed ones. */
  predicate Intact(h: Hash, b: LedgerBlock) {
    b.payloadDigest == h(b.payload) && b.blockHash == h(InputOf(b))
  }

  method VerifyIntegrity(h: Hash, b: LedgerBlock) returns (r: Result<(), string>)
    ensures r.Ok? <==> Intact(h, b)
  {
    if b.payloadDigest != h(b.payload) {
      return Err("Payload digest mismatch");
    }
    var expected := ComputeBlockHash(h, b.sequence, b.blockType, b.timestamp, b.prevHash, b.payloadDigest, b.blobHashes);
    if b.blockHash != expected {
      return Err("Block hash mismatch");
    }
    r := Ok(());
  }

  /** RFC 3339 section 5.6 `time-offset`. */
  predicate IsOffset(s: string) {
    s == "Z" || s == "z" || (|s| == 6 && s[0] in "+-" && AllDecimal(s[1..3]) && s[3] == ':' && AllDecimal(s[4..]))
  }

  /** What follows the dot of `time-secfrac`: at least one digit, then the offset. */
  predicate IsFraction(s: string) {
    s != "" && IsDigit(s[0]) && (IsOffset(s[1..]) || IsFraction(s[1..]))
  }

  predicate IsTimeTail(s: string) {
    IsOffset(s) || (s != "" && s[0] == '.' && IsFraction(s[1..]))
  }

  /** RFC 3339 section 5.6 `date-time`. */
  predicate IsTimestamp(s: string) {
    && |s| > 19
    && AllDecimal(s[..4]) && s[4] == '-' && AllDecimal(s[5..7]) && s[7] == '-' && AllDecimal(s[8..10])
    && s[10] in "Tt"
    && AllDecimal(s[11..13]) && s[13] == ':' && AllDecimal(s[14..16]) && s[16] == ':' && AllDecimal(s[17..19])
    && IsTimeTail(s[19..])
  }

  lemma HeadOf(a: string, x: string)
    requires a != ""
    ensures (a + x)[0] == a[0] && (a + x)[1..] == a[1..] + x
  {
  }

  lemma OffsetPrefixFree(a: string, x: string, b: string, y: string)
    requires IsOffset(a) && IsOffset(b) && a + x == b + y
    ensures a == b
  {
    HeadOf(a, x);
    HeadOf(b, y);
    SplitEqual(a, x, b, y);
  }

  lemma {:induction false} FractionPrefixFree(a: string, x: string, b: string, y: string)
    requires IsFraction(a) && IsFraction(b) && a + x == b + y
    ensures a == b
    decreases |a|
  {
    HeadOf(a, x);
    HeadOf(b, y);
    var p, q := a[1..], b[1..];
    assert p + x == q + y;
    HeadOf(p, x);
    HeadOf(q, y);
    if IsOffset(p) && IsOffset(q) {
      OffsetPrefixFree(p, x, q, y);
    } else if IsFraction(p) && IsFraction(q) {
      FractionPrefixFree(p, x, q, y);
    }
    assert a == [a[0]] + p && b == [b[0]] + q;
  }

  lemma TailPrefixFree(a: string, x: string, b: string, y: string)
    requires IsTimeTail(a) && IsTimeTail(b) && a + x == b + y
    ensures a == b
  {
    HeadOf(a, x);
    HeadOf(b, y);
    if IsOffset(a) && IsOffset(b) {
      OffsetPrefixFree(a, x, b, y);
    } else if a[0] == '.' {
      FractionPrefixFree(a[1..], x, b[1..], y);
      assert a == [a[0]] + a[1..] && b == [b[0]] + b[1..];
    }
  }

  /** No timestamp is a proper prefix of another one. */
  lemma TimestampPrefixFree(a: string, x: string, b: string, y: string)
    requires IsTimestamp(a) && IsTimestamp(b) && a + x == b + y
    ensures a == b && x == y
  {
    assert a + x == a[..19] + (a[19..] + x) && b + y == b[..19] + (b[19..] + y);
    SplitEqual(a[..19], a[19..] + x, b[..19], b[19..] + y);
    TailPrefixFree(a[19..], x, b[19..], y);
    assert a == a[..19] + a[19..] && b == b[..19] + b[19..];
    SplitEqual(a, x, b, y);
  }

  lemma TypesApart(s: BlockType, x: string, t: BlockType, y: string)
    requires s != t && x != "" && y != "" && IsDigit(x[0]) && IsDigit(y[0])
    ensures TypeName(s) + x != TypeName(t) + y
  {
    var a, b := TypeName(s) + x, TypeName(t) + y;
    assert a[0] == TypeName(s)[0] && b[0] == TypeName(t)[0];
    assert a[|TypeName(s)|] == x[0] && b[|TypeName(t)|] == y[0];
    assert s == Promotion && t == PromotionEvidence ==> b[9] == TypeName(t)[9];
    assert t == Promotion && s == PromotionEvidence ==> a[9] == TypeName(s)[9];
  }

  /** PROMOTION is a prefix of PROMOTION_EVIDENCE, but a timestamp starts with a digit. */
  lemma TypePrefixFree(s: BlockType, x: string, t: BlockType, y: string)
    requires x != "" && y != "" && IsDigit(x[0]) && IsDigit(y[0])
    requires TypeName(s) + x == TypeName(t) + y
    ensures s == t && x == y
  {
    if s == t {
      SplitEqual(TypeName(s), x, TypeName(t), y);
    } else {
      TypesApart(s, x, t, y);
    }
  }

  lemma {:induction false} DigestListUnique(a: seq<string>, b: seq<string>)
    requires AllDigests(a) && AllDigests(b) && Concat(a) == Concat(b)
    ensures a == b
    decreases |a|
  {
    ConcatLength(a);
    ConcatLength(b);
    if a != [] {
      var p, q := a[..|a| - 1], b[..|b| - 1];
      ConcatLength(p);
      ConcatLength(q);
      SplitEqual(Concat(p), a[|a| - 1], Concat(q), b[|b| - 1]);
      DigestListUnique(p, q);
      assert a == p + [a[|a| - 1]] && b == q + [b[|b| - 1]];
    }
  }

  lemma {:induction false} ConcatLength(a: seq<string>)
    requires AllDigests(a)
    ensures |Concat(a)| == 64 * |a|
  {
    if a != [] { ConcatLength(a[..|a| - 1]); }
  }

  /** The shape of the blocks the ledger writes, whatever the blobs are called. */
  predicate Shaped(b: LedgerBlock) {
    b.sequence < U64_LIMIT && IsTimestamp(b.timestamp) && IsHexDigest(b.prevHash) && IsHexDigest(b.payloadDigest)
  }

  /** And the blobs are called by their digests. */
  ghost predicate WellFormed(b: LedgerBlock) {
    Shaped(b) && AllDigests(b.blobHashes)
  }

  /** Everything but how the concatenated blob names are cut. */
  predicate SameUpToCut(a: LedgerBlock, b: LedgerBlock) {
    a.(blobHashes := []) == b.(blobHashes := []) && Concat(a.blobHashes) == Concat(b.blobHashes)
  }

  /** Whatever the blobs are called, the hash input determines every other field and the concatenated
      names. */
  lemma BlockInputFields(a: LedgerBlock, b: LedgerBlock)
    requires Shaped(a) && Shaped(b) && InputOf(a) == InputOf(b)
    ensures a.sequence == b.sequence && a.blockType == b.blockType && a.timestamp == b.timestamp
    ensures a.prevHash == b.prevHash && a.payloadDigest == b.payloadDigest && Concat(a.blobHashes) == Concat(b.blobHashes)
  {
    var ra, rb := a.payloadDigest + Concat(a.blobHashes), b.payloadDigest + Concat(b.blobHashes);
    SplitEqual(U64(a.sequence), TypeName(a.blockType) + (a.timestamp + (a.prevHash + ra)),
               U64(b.sequence), TypeName(b.blockType) + (b.timestamp + (b.prevHash + rb)));
    U64Injective(a.sequence, b.sequence);
    HeadOf(a.timestamp, a.prevHash + ra);
    HeadOf(b.timestamp, b.prevHash + rb);
    assert a.timestamp[0] == a.timestamp[..4][0] && b.timestamp[0] == b.timestamp[..4][0];
    TypePrefixFree(a.blockType, a.timestamp + (a.prevHash + ra), b.blockType, b.timestamp + (b.prevHash + rb));
    TimestampPrefixFree(a.timestamp, a.prevHash + ra, b.timestamp, b.prevHash + rb);
    SplitEqual(a.prevHash, ra, b.prevHash, rb);
    SplitEqual(a.payloadDigest, Concat(a.blobHashes), b.payloadDigest, Concat(b.blobHashes));
  }

  /** The unseparated hash input of a well-formed block can be read back field by field. */
  lemma BlockInputUnique(a: LedgerBlock, b: LedgerBlock)
    requires WellFormed(a) && WellFormed(b) && InputOf(a) == InputOf(b)
    ensures a.sequence == b.sequence && a.blockType == b.blockType && a.timestamp == b.timestamp
    ensures a.prevHash == b.prevHash && a.payloadDigest == b.payloadDigest && a.blobHashes == b.blobHashes
  {
    BlockInputFields(a, b);
    DigestListUnique(a.blobHashes, b.blobHashes);
  }

  /** Two intact blocks with the same hash differ at most in how the blob names are cut, unless two of
      the four strings that were hashed collide. */
  lemma BlockHashFields(h: Hash, a: LedgerBlock, b: LedgerBlock)
    requires Shaped(a) && Shaped(b) && Intact(h, a) && Intact(h, b) && a.blockHash == b.blockHash
    requires CollisionFree(h, {InputOf(a), InputOf(b), a.payload, b.payload})
    ensures SameUpToCut(a, b)
  {
    BlockInputFields(a, b);
  }

  /** Two intact well-formed blocks with the same hash are the same block, unless two of the four
      strings that were hashed collide. */
  lemma BlockHashUnique(h: Hash, a: LedgerBlock, b: LedgerBlock)
    requires WellFormed(a) && WellFormed(b) && Intact(h, a) && Intact(h, b) && a.blockHash == b.blockHash
    requires CollisionFree(h, {InputOf(a), InputOf(b), a.payload, b.payload})
    ensures a == b
  {
    BlockInputUnique(a, b);
  }
}
