/** The ledger: an append-only chain of blocks in a database, a content-addressed blob store, Merkle
    checkpoints, and the audit over all of them. */
module Ledger {
  import opened Wrappers
  import opened Bytes
  import opened Merkle
  import opened LedgerRecord

  datatype MerkleCheckpoint = MerkleCheckpoint(upTo: nat, root: string, blockCount: nat, timestamp: string, signature: Option<string>)

  /** Checks a signature over a Merkle root; what P-256 does is not modelled. */
  type Verifier = (string, Option<string>) -> bool

  type Signer = string -> string

  function Leaves(blocks: seq<LedgerBlock>): (r: seq<string>)
    ensures |r| == |blocks| && forall i :: 0 <= i < |r| ==> r[i] == blocks[i].blockHash
  {
    seq(|blocks|, i requires 0 <= i < |blocks| => blocks[i].blockHash)
  }

  predicate BlobOk(h: Hash, blobs: map<string, string>, name: string) {
    name in blobs && h(blobs[name]) == name
  }

  predicate GenesisOk(h: Hash, b: LedgerBlock) {
    b.sequence == 0 && b.blockType == Genesis && b.prevHash == GENESIS_PREV_HASH && Intact(h, b)
  }

  /** Block i continues the chain. */
  ghost predicate LinkOk(h: Hash, blobs: map<string, string>, blocks: seq<LedgerBlock>, i: nat)
    requires 1 <= i < |blocks|
  {
    && blocks[i].sequence == i
    && blocks[i].prevHash == blocks[i - 1].blockHash
    && Intact(h, blocks[i])
    && forall k :: 0 <= k < |blocks[i].blobHashes| ==> BlobOk(h, blobs, blocks[i].blobHashes[k])
  }

  /** The blocks before position n continue the chain. */
  ghost predicate LinksOk(h: Hash, blobs: map<string, string>, blocks: seq<LedgerBlock>, n: nat) {
    n <= |blocks| && forall i :: 1 <= i < n ==> LinkOk(h, blobs, blocks, i)
  }

  ghost predicate ChainValid(h: Hash, blobs: map<string, string>, blocks: seq<LedgerBlock>) {
    blocks != [] && GenesisOk(h, blocks[0]) && LinksOk(h, blobs, blocks, |blocks|)
  }

  lemma LinksStep(h: Hash, blobs: map<string, string>, blocks: seq<LedgerBlock>, i: nat)
    requires 1 <= i < |blocks| && LinksOk(h, blobs, blocks, i)
    ensures LinkOk(h, blobs, blocks, i) ==> LinksOk(h, blobs, blocks, i + 1)
    ensures !LinkOk(h, blobs, blocks, i) ==> !LinksOk(h, blobs, blocks, |blocks|)
  {
  }

  /** The checkpoint covers an existing prefix of the chain and commits to exactly that prefix. */
  ghost predicate CheckpointValid(h: Hash, blocks: seq<LedgerBlock>, c: MerkleCheckpoint) {
    && c.upTo < |blocks|
    && c.blockCount == c.upTo + 1
    && c.root == Root(h, Leaves(blocks)[..c.upTo + 1])
  }

  ghost predicate IsLatest(checkpoints: map<nat, MerkleCheckpoint>, c: MerkleCheckpoint) {
    c.upTo in checkpoints && checkpoints[c.upTo] == c && forall k :: k in checkpoints ==> k <= c.upTo
  }

  ghost predicate CheckpointAccepted(h: Hash, blocks: seq<LedgerBlock>, c: MerkleCheckpoint, key: Option<Verifier>) {
    CheckpointValid(h, blocks, c) && (key.Some? ==> key.value(c.root, c.signature))
  }

  /** What the audit establishes. */
  ghost predicate AuditPasses(h: Hash, blobs: map<string, string>, blocks: seq<LedgerBlock>,
                              checkpoints: map<nat, MerkleCheckpoint>, key: Option<Verifier>) {
    ChainValid(h, blobs, blocks) && forall c :: IsLatest(checkpoints, c) ==> CheckpointAccepted(h, blocks, c, key)
  }

  datatype AuditReport = AuditReport(
    totalBlocks: nat, totalBlobs: nat, latestSequence: nat, latestHash: string, merkleRoot: string,
    checkpointVerified: bool, signatureVerified: bool, chainValid: bool,
    checkpointSequence: Option<nat>, blocksAfterCheckpoint: nat)

  function BlobReferences(blocks: seq<LedgerBlock>): nat {
    if |blocks| <= 1 then 0 else BlobReferences(blocks[..|blocks| - 1]) + |blocks[|blocks| - 1].blobHashes|
  }

  /** What the database refuses: a second row with the same sequence or the same block hash. */
  predicate Insertable(blocks: seq<LedgerBlock>, b: LedgerBlock) {
    forall k :: 0 <= k < |blocks| ==> blocks[k].sequence != b.sequence && blocks[k].blockHash != b.blockHash
  }

  /** No row has this sequence or this hash. */
  ghost predicate Unused(blocks: seq<LedgerBlock>, sequence: nat, blockHash: string) {
    !exists b :: b in blocks && (b.sequence == sequence || b.blockHash == blockHash)
  }

  /** In a chain that passes the audit a next block is refused only for its hash. */
  lemma NextIsUnused(h: Hash, blobs: map<string, string>, blocks: seq<LedgerBlock>, blockHash: string)
    requires blocks != [] && ChainValid(h, blobs, blocks)
    ensures Unused(blocks, blocks[|blocks| - 1].sequence + 1, blockHash) <==> forall b :: b in blocks ==> b.blockHash != blockHash
  {
    hide Intact, BlobOk;
    forall k | 0 <= k < |blocks| ensures blocks[k].sequence == k {
      if k > 0 { assert LinkOk(h, blobs, blocks, k); }
    }
  }

  lemma LeavesPrefix(blocks: seq<LedgerBlock>, more: seq<LedgerBlock>, n: nat)
    requires n <= |blocks|
    ensures Leaves(blocks + more)[..n] == Leaves(blocks)[..n]
  {
  }

  lemma ChainGrows(h: Hash, blobs: map<string, string>, blocks: seq<LedgerBlock>, b: LedgerBlock)
    requires ChainValid(h, blobs, blocks) && Intact(h, b)
    requires b.sequence == |blocks| && b.prevHash == blocks[|blocks| - 1].blockHash
    requires forall k :: 0 <= k < |b.blobHashes| ==> BlobOk(h, blobs, b.blobHashes[k])
    ensures ChainValid(h, blobs, blocks + [b])
  {
    var longer := blocks + [b];
    forall i | 1 <= i < |longer|
      ensures LinkOk(h, blobs, longer, i)
    {
      if i < |blocks| { assert LinkOk(h, blobs, blocks, i); }
    }
  }

  lemma MoreBlobs(h: Hash, blobs: map<string, string>, more: map<string, string>, blocks: seq<LedgerBlock>)
    requires ChainValid(h, blobs, blocks)
    requires forall name :: name in blobs ==> name in more && more[name] == blobs[name]
    ensures ChainValid(h, more, blocks)
  {
    forall i | 1 <= i < |blocks|
      ensures LinkOk(h, more, blocks, i)
    {
      assert LinkOk(h, blobs, blocks, i);
    }
  }

  /** What every run keeps: an auditable chain, intact blobs, checkpoints that are all still valid,
      and `pending` counting the blocks behind the latest checkpoint. */
  ghost predicate HealthyState(h: Hash, blobs: map<string, string>, blocks: seq<LedgerBlock>,
                               checkpoints: map<nat, MerkleCheckpoint>, pending: nat) {
    && (blocks != [] ==> ChainValid(h, blobs, blocks))
    && (blocks == [] ==> checkpoints == map[])
    && (forall k :: k in checkpoints ==> checkpoints[k].upTo == k && CheckpointValid(h, blocks, checkpoints[k]))
    && (forall name :: name in blobs ==> h(blobs[name]) == name)
    && pending <= |blocks|
    && (checkpoints == map[] ==> pending == |blocks|)
    && (forall c :: IsLatest(checkpoints, c) ==> c.upTo + 1 + pending == |blocks|)
  }

  lemma BlockStored(h: Hash, blobs: map<string, string>, blocks: seq<LedgerBlock>, checkpoints: map<nat, MerkleCheckpoint>, pending: nat, b: LedgerBlock)
    requires HealthyState(h, blobs, blocks, checkpoints, pending) && blocks != [] && Intact(h, b)
    requires b.sequence == blocks[|blocks| - 1].sequence + 1 && b.prevHash == blocks[|blocks| - 1].blockHash
    requires forall k :: 0 <= k < |b.blobHashes| ==> BlobOk(h, blobs, b.blobHashes[k])
    ensures HealthyState(h, blobs, blocks + [b], checkpoints, pending + 1)
  {
    LatestSequence(h, blobs, blocks);
    ChainGrows(h, blobs, blocks, b);
    forall k | k in checkpoints
      ensures CheckpointValid(h, blocks + [b], checkpoints[k])
    {
      LeavesPrefix(blocks, [b], checkpoints[k].upTo + 1);
    }
  }

  lemma CheckpointStored(h: Hash, blobs: map<string, string>, blocks: seq<LedgerBlock>, checkpoints: map<nat, MerkleCheckpoint>, pending: nat, c: MerkleCheckpoint)
    requires HealthyState(h, blobs, blocks, checkpoints, pending) && blocks != []
    requires c.upTo == blocks[|blocks| - 1].sequence && c.blockCount == |blocks| && c.root == Root(h, Leaves(blocks))
    ensures HealthyState(h, blobs, blocks, checkpoints[c.upTo := c], 0)
  {
    LatestSequence(h, blobs, blocks);
    WholeChain(h, blocks, c);
    var after := checkpoints[c.upTo := c];
    forall k | k in checkpoints ensures k <= c.upTo {
      assert CheckpointValid(h, blocks, checkpoints[k]);
    }
    hide ChainValid;
    forall k | k in after ensures after[k].upTo == k && CheckpointValid(h, blocks, after[k]) {
      if k != c.upTo { assert CheckpointValid(h, blocks, checkpoints[k]); }
    }
    LatestIsNew(checkpoints, c, after);
    hide CheckpointValid, IsLatest;
    assert c.upTo in after;
  }

  class ImprovementLedger {
    const h: Hash
    /** Rows in sequence order. */
    var blocks: seq<LedgerBlock>
    /** Rows by their primary key `up_to_sequence`. */
    var checkpoints: map<nat, MerkleCheckpoint>
    /** The blob directory: file name to contents. */
    var blobs: map<string, string>
    /** Blocks appended since the last checkpoint, or since the beginning. */
    ghost var pending: nat

    /** An empty database and blob directory. */
    constructor (h: Hash)
      ensures this.h == h && Healthy() && blocks == [] && checkpoints == map[] && blobs == map[] && pending == 0
    {
      this.h := h;
      blocks := [];
      checkpoints := map[];
      blobs := map[];
      pending := 0;
    }

    ghost predicate Healthy()
      reads this
    {
      HealthyState(h, blobs, blocks, checkpoints, pending)
    }

    /** Opens the ledger; a fresh database gets its genesis block. */
    method Open(now: string, genesisPayload: string)
      modifies this
      ensures old(Healthy()) ==> Healthy()
      ensures checkpoints == old(checkpoints) && blobs == old(blobs)
      ensures blocks == if old(blocks) != [] then old(blocks) else [NewBlock(h, 0, Genesis, now, GENESIS_PREV_HASH, genesisPayload, [])]
    {
      if blocks == [] {
        blocks := [NewBlock(h, 0, Genesis, now, GENESIS_PREV_HASH, genesisPayload, [])];
        pending := 1;
      }
    }

    /** Appends a block after the latest one. */
    method AppendBlock(t: BlockType, payload: string, blobHashes: seq<string>, now: string) returns (r: Result<LedgerBlock, string>)
      modifies this
      ensures checkpoints == old(checkpoints) && blobs == old(blobs)
      ensures r.Err? ==> blocks == old(blocks) && pending == old(pending)
      ensures r.Ok? <==> old(blocks) != [] && var last := old(blocks)[|old(blocks)| - 1];
        Unused(old(blocks), last.sequence + 1, NewBlock(h, last.sequence + 1, t, now, last.blockHash, payload, blobHashes).blockHash)
      ensures r.Ok? ==> old(blocks) != [] && blocks == old(blocks) + [r.value] && pending == old(pending) + 1
      ensures r.Ok? ==> var last := old(blocks)[|old(blocks)| - 1];
        r.value == NewBlock(h, last.sequence + 1, t, now, last.blockHash, payload, blobHashes)
      ensures old(Healthy()) && (forall k :: 0 <= k < |blobHashes| ==> BlobOk(h, blobs, blobHashes[k])) ==> Healthy()
    {
      hide HealthyState;
      if blocks == [] {
        return Err("Cannot append to uninitialized ledger (Genesis block missing)");
      }
      var latest := blocks[|blocks| - 1];
      var block := NewBlock(h, latest.sequence + 1, t, now, latest.blockHash, payload, blobHashes);
      if !Insertable(blocks, block) {
        return Err("Failed to insert block");
      }
      if Healthy() && forall k :: 0 <= k < |blobHashes| ==> BlobOk(h, blobs, blobHashes[k]) {
        BlockStored(h, blobs, blocks, checkpoints, pending, block);
      }
      blocks := blocks + [block];
      pending := pending + 1;
      r := Ok(block);
    }

    /** Stores data under its digest; an existing file of that name is left as it is. */
    method PutBlob(data: string) returns (digest: Digest)
      modifies this
      ensures digest == h(data)
      ensures blobs == if digest in old(blobs) then old(blobs) else old(blobs)[digest := data]
      ensures blocks == old(blocks) && checkpoints == old(checkpoints) && pending == old(pending)
      ensures old(Healthy()) ==> Healthy() && BlobOk(h, blobs, digest)
    {
      digest := h(data);
      if digest in blobs {
        return;
      }
      if Healthy() && blocks != [] { MoreBlobs(h, blobs, blobs[digest := data], blocks); }
      blobs := blobs[digest := data];
    }

    /** Appends an evaluation; its raw metrics are stored first. */
    method AppendEvaluation(receipt: string, rawMetrics: Option<string>, now: string) returns (r: Result<LedgerBlock, string>)
      modifies this
      ensures old(Healthy()) ==> Healthy()
      ensures checkpoints == old(checkpoints)
      ensures blobs == if rawMetrics.Some? && h(rawMetrics.value) !in old(blobs)
                       then old(blobs)[h(rawMetrics.value) := rawMetrics.value] else old(blobs)
      ensures r.Err? ==> blocks == old(blocks) && pending == old(pending)
      ensures r.Ok? ==> old(blocks) != [] && blocks == old(blocks) + [r.value] && pending == old(pending) + 1
      ensures r.Ok? ==> r.value.payload == receipt && r.value.blockType == Evaluation
      ensures r.Ok? ==> r.value.blobHashes == if rawMetrics.Some? then [h(rawMetrics.value)] else []
    {
      var names: seq<string> := [];
      if rawMetrics.Some? {
        var digest := PutBlob(rawMetrics.value);
        names := [digest];
      }
      r := AppendBlock(Evaluation, receipt, names, now);
    }

    /** Commits to all blocks so far. */
    method Checkpoint(signer: Option<Signer>, now: string) returns (r: Result<MerkleCheckpoint, string>)
      modifies this
      ensures blocks == old(blocks) && blobs == old(blobs)
      ensures r.Err? <==> old(blocks) == []
      ensures r.Err? ==> checkpoints == old(checkpoints) && pending == old(pending)
      ensures r.Ok? ==> checkpoints == old(checkpoints)[r.value.upTo := r.value] && pending == 0
      ensures r.Ok? ==> r.value.blockCount == |blocks| && r.value.root == Root(h, Leaves(blocks))
      ensures r.Ok? ==> r.value.signature == if signer.Some? then Some(signer.value(r.value.root)) else None
      ensures old(Healthy()) ==> Healthy()
    {
      hide HealthyState, Root;
      if blocks == [] {
        return Err("Cannot create checkpoint on empty ledger");
      }
      var leaves := Leaves(blocks);
      var upTo := blocks[|blocks| - 1].sequence;
      var root := ComputeMerkleRoot(h, leaves);
      var c := MerkleCheckpoint(upTo, root, |blocks|, now, if signer.Some? then Some(signer.value(root)) else None);
      if Healthy() { CheckpointStored(h, blobs, blocks, checkpoints, pending, c); }
      checkpoints := checkpoints[upTo := c];
      pending := 0;
      r := Ok(c);
    }

    /** The stored checkpoint with the highest sequence. */
    method LatestCheckpoint() returns (c: Option<MerkleCheckpoint>)
      requires forall k :: k in checkpoints ==> checkpoints[k].upTo == k
      ensures c.None? <==> checkpoints == map[]
      ensures c.Some? ==> IsLatest(checkpoints, c.value)
    {
      c := None;
      var rest := checkpoints.Keys;
      while rest != {}
        invariant rest <= checkpoints.Keys
        invariant c.None? ==> rest == checkpoints.Keys
        invariant c.Some? ==> c.value.upTo in checkpoints && checkpoints[c.value.upTo] == c.value
        invariant c.Some? ==> forall k :: k in checkpoints && k !in rest ==> k <= c.value.upTo
      {
        var k :| k in rest;
        if c.None? || c.value.upTo < k {
          c := Some(checkpoints[k]);
        }
        rest := rest - {k};
      }
      if checkpoints != map[] {
        assert checkpoints.Keys != {};
      }
    }

    /** All named blobs exist and hash to their names. */
    method AuditBlobs(names: seq<string>) returns (ok: bool)
      ensures ok <==> forall k :: 0 <= k < |names| ==> BlobOk(h, blobs, names[k])
    {
      for k := 0 to |names|
        invariant forall j :: 0 <= j < k ==> BlobOk(h, blobs, names[j])
      {
        if !BlobOk(h, blobs, names[k]) {
          return false;
        }
      }
      ok := true;
    }

    /** Sequence, link, digests and blobs of one block after the genesis block. */
    method AuditLink(i: nat) returns (r: Result<(), string>)
      requires 1 <= i < |blocks|
      ensures r.Ok? <==> LinkOk(h, blobs, blocks, i)
    {
      var block, prev := blocks[i], blocks[i - 1];
      if block.sequence != i {
        return Err("Audit failed: Block sequence gap");
      }
      if block.prevHash != prev.blockHash {
        return Err("Audit failed: Hash chain broken");
      }
      var intact := VerifyIntegrity(h, block);
      if intact.Err? {
        return Err(intact.error);
      }
      var found := AuditBlobs(block.blobHashes);
      if !found {
        return Err("Audit failed: blob missing or corrupted");
      }
      r := Ok(());
    }

    /** The invariants of the genesis block. */
    method AuditGenesis() returns (r: Result<(), string>)
      ensures r.Ok? <==> blocks != [] && GenesisOk(h, blocks[0])
    {
      if blocks == [] {
        return Err("Audit failed: ledger is empty (no Genesis block)");
      }
      var genesis := blocks[0];
      if genesis.sequence != 0 {
        return Err("Audit failed: Genesis block sequence");
      }
      if genesis.blockType != Genesis {
        return Err("Audit failed: Genesis block type");
      }
      if genesis.prevHash != GENESIS_PREV_HASH {
        return Err("Audit failed: Genesis block prev_block_hash");
      }
      r := VerifyIntegrity(h, genesis);
    }

    /** Every block's hashes, links and blobs; the hashes become the Merkle leaves. */
    method AuditBlocks() returns (r: Result<(nat, seq<string>), string>)
      ensures r.Ok? <==> ChainValid(h, blobs, blocks)
      ensures r.Ok? ==> r.value == (BlobReferences(blocks), Leaves(blocks))
    {
      var start := AuditGenesis();
      if start.Err? {
        return Err(start.error);
      }
      var totalBlobs, leaves := 0, [blocks[0].blockHash];
      for i := 1 to |blocks|
        invariant GenesisOk(h, blocks[0])
        invariant LinksOk(h, blobs, blocks, i)
        invariant totalBlobs == BlobReferences(blocks[..i]) && leaves == Leaves(blocks)[..i]
      {
        var link := AuditLink(i);
        LinksStep(h, blobs, blocks, i);
        if link.Err? {
          return Err(link.error);
        }
        totalBlobs := totalBlobs + |blocks[i].blobHashes|;
        leaves := leaves + [blocks[i].blockHash];
        OneMoreBlock(blocks, i);
      }
      AllOfThem(blocks);
      r := Ok((totalBlobs, leaves));
    }

    /** The checkpoint against the leaves it covers and, with a key, its signature. */
    method AuditCheckpoint(leaves: seq<string>, c: MerkleCheckpoint, key: Option<Verifier>) returns (r: Result<(), string>)
      requires blocks != [] && leaves == Leaves(blocks) && blocks[|blocks| - 1].sequence == |blocks| - 1
      ensures r.Ok? <==> CheckpointAccepted(h, blocks, c, key)
    {
      if c.upTo > blocks[|blocks| - 1].sequence {
        return Err("Audit failed: Checkpoint covers a later sequence than the ledger holds");
      }
      var covered := leaves[..c.upTo + 1];
      if c.blockCount != |covered| {
        return Err("Audit failed: Checkpoint block count mismatch");
      }
      var coveredRoot := ComputeMerkleRoot(h, covered);
      if c.root != coveredRoot {
        return Err("Audit failed: Checkpoint Merkle root mismatch");
      }
      if key.Some? && !key.value(c.root, c.signature) {
        return Err("Audit failed: Checkpoint Merkle root signature verification failed");
      }
      r := Ok(());
    }

    /** The audit: chain, blobs, the latest checkpoint and, with a key, its signature. */
    method VerifyChainIntegrity(key: Option<Verifier>) returns (r: Result<AuditReport, string>)
      requires forall k :: k in checkpoints ==> checkpoints[k].upTo == k
      ensures r.Ok? <==> AuditPasses(h, blobs, blocks, checkpoints, key)
      ensures r.Ok? ==> r.value.totalBlocks == |blocks| && r.value.totalBlobs == BlobReferences(blocks)
      ensures r.Ok? ==> r.value.merkleRoot == Root(h, Leaves(blocks)) && r.value.latestHash == blocks[|blocks| - 1].blockHash
      ensures r.Ok? ==> Uncovered(blocks, checkpoints, r.value.checkpointSequence, r.value.blocksAfterCheckpoint)
      ensures r.Ok? ==> forall i, k :: 1 <= i < |blocks| && 0 <= k < |blocks[i].blobHashes| ==>
        blocks[i].blobHashes[k] in blobs && h(blobs[blocks[i].blobHashes[k]]) == blocks[i].blobHashes[k]
    {
      var audited := AuditBlocks();
      if audited.Err? {
        return Err(audited.error);
      }
      ChainValidPlainly(h, blobs, blocks);
      var (totalBlobs, leaves) := audited.value;
      var merkleRoot := ComputeMerkleRoot(h, leaves);
      LatestSequence(h, blobs, blocks);
      var latest := blocks[|blocks| - 1];
      var report := AuditReport(|blocks|, totalBlobs, latest.sequence, latest.blockHash, merkleRoot,
                                false, false, true, None, |blocks|);
      var stored := LatestCheckpoint();
      if stored.Some? {
        var c := stored.value;
        OneLatest(checkpoints, c);
        var checked := AuditCheckpoint(leaves, c, key);
        if checked.Err? {
          return Err(checked.error);
        }
        report := report.(checkpointVerified := true, checkpointSequence := Some(c.upTo),
                          blocksAfterCheckpoint := latest.sequence - c.upTo, signatureVerified := key.Some?);
      }
      r := Ok(report);
    }

    /** One step of a history. */
    method Perform(op: Operation, genesisPayload: string)
      requires Healthy() && blocks != [] && Named(op, blobs.Keys)
      modifies this
      ensures Healthy() && blocks != [] && old(blocks) <= blocks
      ensures blobs.Keys == StoredBy(h, op, old(blobs.Keys))
    {
      IntactBlobs(this);
      hide HealthyState, Unused, NewBlock;
      match op {
        case Reopen(at) => Open(at, genesisPayload);
        case Store(data) => var _ := PutBlob(data);
        case Append(t, payload, names, at) => var _ := AppendBlock(t, payload, names, at);
        case Evaluate(receipt, raw, at) => var _ := AppendEvaluation(receipt, raw, at);
        case TakeCheckpoint(signer, at) => var _ := Checkpoint(signer, at);
      }
    }

    /** Any history of reopenings, stored blobs, appends and checkpoints passes the audit if blobs are
        stored before blocks name them, and the audit reports exactly the blocks since the last
        checkpoint as uncovered. */
    method RunHistory(ops: seq<Operation>, now: string, genesisPayload: string) returns (r: Result<AuditReport, string>)
      requires Healthy() && StoredFirst(h, ops, blobs.Keys)
      modifies this
      ensures Healthy() && blocks != [] && old(blocks) <= blocks
      ensures r.Ok? && r.value.blocksAfterCheckpoint == pending
    {
      Open(now, genesisPayload);
      for i := 0 to |ops|
        invariant Healthy() && blocks != [] && old(blocks) <= blocks && StoredFirst(h, ops[i..], blobs.Keys)
      {
        hide HealthyState;
        assert ops[i..][0] == ops[i] && ops[i..][1..] == ops[i + 1..];
        Perform(ops[i], genesisPayload);
      }
      HealthyAudit(this);
      hide HealthyState, ChainValid;
      r := VerifyChainIntegrity(None);
    }
  }

  /** What a report says about coverage: the latest checkpoint and the blocks behind it. */
  ghost predicate Uncovered(blocks: seq<LedgerBlock>, checkpoints: map<nat, MerkleCheckpoint>, upTo: Option<nat>, after: nat) {
    match upTo
    case None => checkpoints == map[] && after == |blocks|
    case Some(k) => k in checkpoints && IsLatest(checkpoints, checkpoints[k]) && checkpoints[k].upTo == k && after == |blocks| - 1 - k
  }

  lemma OneLatest(checkpoints: map<nat, MerkleCheckpoint>, c: MerkleCheckpoint)
    requires IsLatest(checkpoints, c)
    ensures forall d :: IsLatest(checkpoints, d) ==> d == c
  {
  }

  lemma HealthyAudit(l: ImprovementLedger)
    requires l.Healthy() && l.blocks != []
    ensures AuditPasses(l.h, l.blobs, l.blocks, l.checkpoints, None)
    ensures forall upTo, after :: Uncovered(l.blocks, l.checkpoints, upTo, after) ==> after == l.pending
  {
  }

  datatype Operation =
    | Reopen(at: string)
    | Store(data: string)
    | Append(t: BlockType, payload: string, names: seq<string>, at: string)
    | Evaluate(receipt: string, raw: Option<string>, at: string)
    | TakeCheckpoint(signer: Option<Signer>, at: string)

  /** The blobs stored after an operation. */
  function StoredBy(h: Hash, op: Operation, stored: set<string>): set<string> {
    match op
    case Store(data) => stored + {h(data)}
    case Evaluate(_, Some(data), _) => stored + {h(data)}
    case _ => stored
  }

  ghost predicate Named(op: Operation, stored: set<string>) {
    op.Append? ==> forall k :: 0 <= k < |op.names| ==> op.names[k] in stored
  }

  /** Every block names only blobs that are stored by then. */
  ghost predicate StoredFirst(h: Hash, ops: seq<Operation>, stored: set<string>) {
    ops != [] ==> Named(ops[0], stored) && StoredFirst(h, ops[1..], StoredBy(h, ops[0], stored))
  }

  lemma IntactBlobs(l: ImprovementLedger)
    requires l.Healthy()
    ensures forall name :: name in l.blobs ==> BlobOk(l.h, l.blobs, name)
  {
  }

  lemma LatestSequence(h: Hash, blobs: map<string, string>, blocks: seq<LedgerBlock>)
    requires ChainValid(h, blobs, blocks)
    ensures blocks[|blocks| - 1].sequence == |blocks| - 1
  {
    if |blocks| > 1 { assert LinkOk(h, blobs, blocks, |blocks| - 1); }
  }

  lemma WholeChain(h: Hash, blocks: seq<LedgerBlock>, c: MerkleCheckpoint)
    requires c.upTo + 1 == |blocks| == c.blockCount && c.root == Root(h, Leaves(blocks))
    ensures CheckpointValid(h, blocks, c)
  {
    assert Leaves(blocks)[..|blocks|] == Leaves(blocks);
  }

  lemma LatestIsNew(checkpoints: map<nat, MerkleCheckpoint>, c: MerkleCheckpoint, after: map<nat, MerkleCheckpoint>)
    requires forall k :: k in checkpoints ==> k <= c.upTo
    requires after == checkpoints[c.upTo := c]
    ensures forall d :: IsLatest(after, d) ==> d == c
  {
    assert c.upTo in after;
    forall d | IsLatest(after, d) ensures d == c {
      assert c.upTo <= d.upTo;
    }
  }

  lemma OneMoreBlock(blocks: seq<LedgerBlock>, i: nat)
    requires 1 <= i < |blocks|
    ensures BlobReferences(blocks[..i + 1]) == BlobReferences(blocks[..i]) + |blocks[i].blobHashes|
    ensures Leaves(blocks)[..i + 1] == Leaves(blocks)[..i] + [blocks[i].blockHash]
  {
    assert blocks[..i + 1][..i] == blocks[..i];
  }

  lemma AllOfThem(blocks: seq<LedgerBlock>)
    ensures blocks[..|blocks|] == blocks && Leaves(blocks)[..|blocks|] == Leaves(blocks)
  {
  }

  /** What makes a chain valid, block by block and blob by blob. */
  lemma ChainValidPlainly(h: Hash, blobs: map<string, string>, blocks: seq<LedgerBlock>)
    ensures ChainValid(h, blobs, blocks) <==>
      && blocks != [] && blocks[0].blockType == Genesis && blocks[0].prevHash == Zeros(64)
      && (forall i :: 0 <= i < |blocks| ==> blocks[i].sequence == i)
      && (forall i :: 0 <= i < |blocks| ==> blocks[i].payloadDigest == h(blocks[i].payload) && blocks[i].blockHash == h(InputOf(blocks[i])))
      && (forall i :: 1 <= i < |blocks| ==> blocks[i].prevHash == blocks[i - 1].blockHash)
      && (forall i, k :: 1 <= i < |blocks| && 0 <= k < |blocks[i].blobHashes| ==>
            blocks[i].blobHashes[k] in blobs && h(blobs[blocks[i].blobHashes[k]]) == blocks[i].blobHashes[k])
  {
    if ChainValid(h, blobs, blocks) {
      forall i | 1 <= i < |blocks|
        ensures blocks[i].sequence == i && blocks[i].prevHash == blocks[i - 1].blockHash && Intact(h, blocks[i])
        ensures forall k :: 0 <= k < |blocks[i].blobHashes| ==> BlobOk(h, blobs, blocks[i].blobHashes[k])
      {
        assert LinkOk(h, blobs, blocks, i);
      }
    }
  }

  /** The contents of the blobs that blocks after the genesis block name. */
  ghost function NamedContents(blobs: map<string, string>, blocks: seq<LedgerBlock>): set<string> {
    set i, k | 1 <= i < |blocks| && 0 <= k < |blocks[i].blobHashes| && blocks[i].blobHashes[k] in blobs :: blobs[blocks[i].blobHashes[k]]
  }

  /** Everything hashed for a chain. */
  ghost function ChainInputs(blocks: seq<LedgerBlock>): set<string> {
    (set i | 0 <= i < |blocks| :: InputOf(blocks[i])) + (set i | 0 <= i < |blocks| :: blocks[i].payload)
  }

  /** The chain as the ledger writes it: timestamps of RFC 3339 and a sequence that fits 64 bits. */
  ghost predicate ChainShape(blocks: seq<LedgerBlock>) {
    |blocks| <= U64_LIMIT && forall i :: 0 <= i < |blocks| ==> IsTimestamp(blocks[i].timestamp)
  }

  /** Only the names in the genesis block, whose blobs the audit does not look at, may be cut freely. */
  lemma AuditedIsShaped(h: Hash, blobs: map<string, string>, blocks: seq<LedgerBlock>, i: nat)
    requires ChainValid(h, blobs, blocks) && ChainShape(blocks) && i < |blocks|
    ensures Shaped(blocks[i]) && Intact(h, blocks[i]) && blocks[i].sequence == i
    ensures i > 0 ==> WellFormed(blocks[i])
  {
    if i > 0 {
      assert LinkOk(h, blobs, blocks, i);
      if i > 1 { assert LinkOk(h, blobs, blocks, i - 1); }
      assert Intact(h, blocks[i - 1]);
    }
  }

  lemma SameBlock(h: Hash, blobsA: map<string, string>, a: seq<LedgerBlock>, blobsB: map<string, string>, b: seq<LedgerBlock>, i: nat, j: nat)
    requires ChainValid(h, blobsA, a) && ChainShape(a) && ChainValid(h, blobsB, b) && ChainShape(b)
    requires CollisionFree(h, ChainInputs(a) + ChainInputs(b))
    requires i < |a| && j < |b| && a[i].blockHash == b[j].blockHash
    ensures i == j && SameUpToCut(a[i], b[j]) && (i > 0 ==> a[i] == b[j])
  {
    hide ChainValid, InputOf;
    AuditedIsShaped(h, blobsA, a, i);
    AuditedIsShaped(h, blobsB, b, j);
    assert InputOf(a[i]) in ChainInputs(a) && a[i].payload in ChainInputs(a);
    assert InputOf(b[j]) in ChainInputs(b) && b[j].payload in ChainInputs(b);
    BlockHashFields(h, a[i], b[j]);
    if i > 0 {
      BlockHashUnique(h, a[i], b[j]);
    }
  }

  /** The same blocks up to position n, but for how the genesis block cuts its blob names. */
  ghost predicate SameHistory(a: seq<LedgerBlock>, b: seq<LedgerBlock>, n: nat) {
    1 <= n <= |a| && n <= |b| && SameUpToCut(a[0], b[0]) && a[1..n] == b[1..n]
  }

  lemma SameHistoryGrows(a: seq<LedgerBlock>, b: seq<LedgerBlock>, n: nat)
    requires SameHistory(a, b, n) && n < |a| && n < |b| && a[n] == b[n]
    ensures SameHistory(a, b, n + 1)
  {
    assert a[1..n + 1] == a[1..n] + [a[n]] && b[1..n + 1] == b[1..n] + [b[n]];
  }

  lemma SamePredecessor(h: Hash, blobsA: map<string, string>, a: seq<LedgerBlock>, blobsB: map<string, string>, b: seq<LedgerBlock>, i: nat)
    requires ChainValid(h, blobsA, a) && ChainValid(h, blobsB, b)
    requires 1 <= i < |a| && i < |b| && a[i] == b[i]
    ensures a[i - 1].blockHash == b[i - 1].blockHash
  {
    assert LinkOk(h, blobsA, a, i) && LinkOk(h, blobsB, b, i);
  }

  /** One block hash fixes the position and the chain up to it. */
  lemma {:induction false} HashFixesHistory(h: Hash, blobsA: map<string, string>, a: seq<LedgerBlock>, blobsB: map<string, string>, b: seq<LedgerBlock>, i: nat, j: nat)
    requires ChainValid(h, blobsA, a) && ChainShape(a) && ChainValid(h, blobsB, b) && ChainShape(b)
    requires CollisionFree(h, ChainInputs(a) + ChainInputs(b))
    requires i < |a| && j < |b| && a[i].blockHash == b[j].blockHash
    ensures i == j && SameHistory(a, b, i + 1)
    decreases i
  {
    hide ChainValid, ChainShape, ChainInputs, SameUpToCut;
    SameBlock(h, blobsA, a, blobsB, b, i, j);
    if i == 0 {
      assert a[1..1] == b[1..1];
    } else {
      SamePredecessor(h, blobsA, a, blobsB, b, i);
      HashFixesHistory(h, blobsA, a, blobsB, b, i - 1, i - 1);
      SameHistoryGrows(a, b, i);
    }
  }

  predicate SamePrefix(a: seq<LedgerBlock>, b: seq<LedgerBlock>, n: nat) {
    n <= |a| && n <= |b| && a[..n] == b[..n]
  }

  function GenesisNames(blocks: seq<LedgerBlock>): seq<string> {
    if blocks == [] then [] else blocks[0].blobHashes
  }

  /** Histories are equal exactly when the genesis blobs are called alike, which digests always are. */
  lemma SameHistoryExactly(a: seq<LedgerBlock>, b: seq<LedgerBlock>, n: nat)
    requires SameHistory(a, b, n)
    ensures SamePrefix(a, b, n) <==> GenesisNames(a) == GenesisNames(b)
    ensures AllDigests(GenesisNames(a)) && AllDigests(GenesisNames(b)) ==> SamePrefix(a, b, n)
  {
    assert a[..n] == [a[0]] + a[1..n] && b[..n] == [b[0]] + b[1..n];
    if a[..n] == b[..n] {
      assert a[..n][0] == b[..n][0];
    }
    if AllDigests(a[0].blobHashes) && AllDigests(b[0].blobHashes) {
      DigestListUnique(a[0].blobHashes, b[0].blobHashes);
    }
  }

  /** Two audited chains with the same latest hash agree in everything but how the genesis block cuts
      its blob names, and so are the same chain exactly when these names are the same. */
  lemma LatestHashFixesChain(h: Hash, blobsA: map<string, string>, a: seq<LedgerBlock>, blobsB: map<string, string>, b: seq<LedgerBlock>)
    requires ChainValid(h, blobsA, a) && ChainShape(a) && ChainValid(h, blobsB, b) && ChainShape(b)
    requires CollisionFree(h, ChainInputs(a) + ChainInputs(b))
    requires a[|a| - 1].blockHash == b[|b| - 1].blockHash
    ensures |a| == |b| && SameHistory(a, b, |a|)
    ensures a == b <==> GenesisNames(a) == GenesisNames(b)
    ensures AllDigests(GenesisNames(a)) && AllDigests(GenesisNames(b)) ==> a == b
  {
    hide ChainShape, ChainInputs, CollisionFree, SameHistory;
    HashFixesHistory(h, blobsA, a, blobsB, b, |a| - 1, |b| - 1);
    SameHistoryExactly(a, b, |a|);
    assert a == a[..|a|] && b == b[..|b|];
  }

  /** And they hold the same contents for every blob named after the genesis block. */
  lemma LatestHashFixesBlobs(h: Hash, blobsA: map<string, string>, a: seq<LedgerBlock>, blobsB: map<string, string>, b: seq<LedgerBlock>)
    requires ChainValid(h, blobsA, a) && ChainShape(a) && ChainValid(h, blobsB, b) && ChainShape(b)
    requires CollisionFree(h, ChainInputs(a) + ChainInputs(b)) && CollisionFree(h, NamedContents(blobsA, a) + NamedContents(blobsB, b))
    requires a[|a| - 1].blockHash == b[|b| - 1].blockHash
    ensures |a| == |b| && a[1..] == b[1..]
    ensures forall i, k :: 1 <= i < |a| && 0 <= k < |a[i].blobHashes| ==>
      var name := a[i].blobHashes[k]; name in blobsA && name in blobsB && blobsA[name] == blobsB[name]
  {
    LatestHashFixesChain(h, blobsA, a, blobsB, b);
    ChainValidPlainly(h, blobsA, a);
    ChainValidPlainly(h, blobsB, b);
    SameAfterGenesis(a, b);
    hide ChainValid, ChainShape, ChainInputs, SameHistory;
    forall i, k | 1 <= i < |a| && 0 <= k < |a[i].blobHashes|
      ensures blobsA[a[i].blobHashes[k]] == blobsB[a[i].blobHashes[k]]
    {
      assert a[i] == b[i];
      assert blobsA[a[i].blobHashes[k]] in NamedContents(blobsA, a) && blobsB[b[i].blobHashes[k]] in NamedContents(blobsB, b);
    }
  }

  lemma SameAfterGenesis(a: seq<LedgerBlock>, b: seq<LedgerBlock>)
    requires |a| == |b| && SameHistory(a, b, |a|)
    ensures a[1..] == b[1..] && forall i :: 1 <= i < |a| ==> a[i] == b[i]
  {
    assert a[1..|a|] == a[1..] && b[1..|b|] == b[1..];
    forall i | 1 <= i < |a| ensures a[i] == b[i] {
      assert a[1..][i - 1] == b[1..][i - 1];
    }
  }

  /** Everything hashed for the tree of a checkpoint. */
  ghost function CoveredInputs(h: Hash, blocks: seq<LedgerBlock>, c: MerkleCheckpoint): set<string>
    requires CheckpointValid(h, blocks, c)
  {
    TreeInputs(h, Leaves(blocks)[..c.blockCount])
  }

  lemma CoveredHash(h: Hash, blobsA: map<string, string>, a: seq<LedgerBlock>, blobsB: map<string, string>, b: seq<LedgerBlock>,
                    c: MerkleCheckpoint, d: MerkleCheckpoint)
    requires ChainValid(h, blobsA, a) && ChainShape(a) && ChainValid(h, blobsB, b) && ChainShape(b)
    requires CheckpointValid(h, a, c) && CheckpointValid(h, b, d)
    requires c.root == d.root && c.blockCount == d.blockCount
    requires CollisionFree(h, CoveredInputs(h, a, c) + CoveredInputs(h, b, d))
    ensures 1 <= c.blockCount <= |a| && c.blockCount <= |b|
    ensures a[c.blockCount - 1].blockHash == b[c.blockCount - 1].blockHash
  {
    hide ChainShape, TreeInputs, CollisionFree;
    var n := c.blockCount;
    CheckpointRoot(h, a, c);
    CheckpointRoot(h, b, d);
    LeavesAreDigests(h, blobsA, a, n);
    LeavesAreDigests(h, blobsB, b, n);
    hide ChainValid, CheckpointValid;
    SameLeaves(h, a, b, n);
  }

  /** A valid checkpoint fixes the covered part of the chain: equal root and equal block count. */
  lemma CheckpointFixesPrefix(h: Hash, blobsA: map<string, string>, a: seq<LedgerBlock>, blobsB: map<string, string>, b: seq<LedgerBlock>,
                              c: MerkleCheckpoint, d: MerkleCheckpoint)
    requires ChainValid(h, blobsA, a) && ChainShape(a) && ChainValid(h, blobsB, b) && ChainShape(b)
    requires CheckpointValid(h, a, c) && CheckpointValid(h, b, d)
    requires c.root == d.root && c.blockCount == d.blockCount
    requires CollisionFree(h, ChainInputs(a) + ChainInputs(b))
    requires CollisionFree(h, CoveredInputs(h, a, c) + CoveredInputs(h, b, d))
    ensures SameHistory(a, b, c.blockCount)
    ensures SamePrefix(a, b, c.blockCount) <==> GenesisNames(a) == GenesisNames(b)
  {
    hide ChainValid, ChainShape, ChainInputs, CheckpointValid, CollisionFree, CoveredInputs, SameHistory, SamePrefix, GenesisNames;
    CoveredHash(h, blobsA, a, blobsB, b, c, d);
    HashFixesHistory(h, blobsA, a, blobsB, b, c.blockCount - 1, c.blockCount - 1);
    SameHistoryExactly(a, b, c.blockCount);
  }

  lemma CheckpointRoot(h: Hash, blocks: seq<LedgerBlock>, c: MerkleCheckpoint)
    requires CheckpointValid(h, blocks, c)
    ensures 1 <= c.blockCount <= |blocks| && c.root == Root(h, Leaves(blocks)[..c.blockCount])
  {
  }

  lemma LeavesAreDigests(h: Hash, blobs: map<string, string>, blocks: seq<LedgerBlock>, n: nat)
    requires ChainValid(h, blobs, blocks) && ChainShape(blocks) && n <= |blocks|
    ensures Merkle.AllDigests(Leaves(blocks)[..n])
  {
    forall i | 0 <= i < n
      ensures IsHexDigest(Leaves(blocks)[i])
    {
      AuditedIsShaped(h, blobs, blocks, i);
    }
  }

  lemma SameLeaves(h: Hash, a: seq<LedgerBlock>, b: seq<LedgerBlock>, n: nat)
    requires 1 <= n <= |a| && n <= |b|
    requires Merkle.AllDigests(Leaves(a)[..n]) && Merkle.AllDigests(Leaves(b)[..n])
    requires Root(h, Leaves(a)[..n]) == Root(h, Leaves(b)[..n])
    requires CollisionFree(h, TreeInputs(h, Leaves(a)[..n]) + TreeInputs(h, Leaves(b)[..n]))
    ensures a[n - 1].blockHash == b[n - 1].blockHash
  {
    var x, y := Leaves(a)[..n], Leaves(b)[..n];
    RootDeterminesLeaves(h, x, y);
    assert x[n - 1] == a[n - 1].blockHash && y[n - 1] == b[n - 1].blockHash;
  }

  /** Without a shape for the genesis blobs the latest hash does not fix the chain: the audit skips
      them, and their concatenation is all that is hashed. */
  lemma GenesisBlobsUnbound(h: Hash, timestamp: string, payload: string)
    ensures var a := [NewBlock(h, 0, Genesis, timestamp, GENESIS_PREV_HASH, payload, ["ab"])];
      var b := [NewBlock(h, 0, Genesis, timestamp, GENESIS_PREV_HASH, payload, ["a", "b"])];
      ChainValid(h, map[], a) && ChainValid(h, map[], b) && a[0].blockHash == b[0].blockHash && a != b
  {
    assert Concat(["a"]) == "a" && ["a", "b"][..1] == ["a"] && ["ab"][..0] == [];
    assert Concat(["ab"]) == "ab" == Concat(["a", "b"]);
    assert ["ab"] != ["a", "b"];
  }
}
