/** The promotion gate: a change is promoted only when its exact identity is the one that a valid
    receipt of the separate judge covers. */
module PromotionGate {
  import opened Wrappers
  import opened Bytes
  import opened Fields
  import opened Receipts

  datatype Policy = Policy(holdoutSetSha256: string, allowedTargets: seq<string>, minHoldoutPassRatio: real)

  datatype Subject = Subject(parentId: string, path: string, contentSha256: string, diskSha256: string)

  /** The operator's policy file: its contents and the digest of its bytes. */
  datatype PolicyFile = PolicyFile(policy: Policy, sha256: string)

  predicate EnoughHoldouts(b: Binding, ratio: real) {
    b.holdoutsTotal > 0 && b.holdoutsPassed as real >= ratio * b.holdoutsTotal as real
  }

  /** The conditions under which `r` lets `subject` be promoted. */
  ghost predicate Promotable(c: Crypto, r: Record, judgeKeyHex: Option<string>, ownKey: string, file: Option<PolicyFile>, subject: Subject) {
    && subject.contentSha256 == subject.diskSha256
    && judgeKeyHex.Some? && c.parseKey(judgeKeyHex.value).Some? && c.parseKey(judgeKeyHex.value).value != ownKey
    && file.Some?
    && Sufficient(c, c.parseKey(judgeKeyHex.value).value, r, subject.contentSha256, file.value.sha256, file.value.policy.holdoutSetSha256)
    && r.body.parentId == subject.parentId && r.binding.value.subjectPath == subject.path
    && subject.path in file.value.policy.allowedTargets
    && EnoughHoldouts(r.binding.value, file.value.policy.minHoldoutPassRatio)
  }

  method CheckV2Promotion(c: Crypto, receipt: EvaluationReceipt, judgeKeyHex: Option<string>, ownKey: string, file: Option<PolicyFile>, subject: Subject)
    returns (r: Result<(), string>)
    ensures r.Ok? <==> Promotable(c, receipt.Value(), judgeKeyHex, ownKey, file, subject)
    ensures r.Ok? ==> receipt.binding.Some? && file.Some?
    ensures r.Ok? ==> receipt.binding.value.holdoutsTotal > 0
    ensures r.Ok? ==> receipt.binding.value.holdoutsPassed as real >= file.value.policy.minHoldoutPassRatio * receipt.binding.value.holdoutsTotal as real
  {
    hide SignatureVerifies, Sufficient;
    if subject.contentSha256 != subject.diskSha256 {
      return Err("staged file is not the change; refusing to promote");
    }
    if judgeKeyHex.None? {
      return Err("no pinned judge public key; promotion fails closed");
    }
    var judgeKey := c.parseKey(judgeKeyHex.value);
    if judgeKey.None? {
      return Err("judge public key is invalid");
    }
    if judgeKey.value == ownKey {
      return Err("judge public key equals the promoter's own key; the judge must be separate");
    }
    if file.None? {
      return Err("no pinned evaluation policy; promotion fails closed");
    }
    var PolicyFile(policy, policySha256) := file.value;
    var _ :- receipt.VerifyForPromotion(c, judgeKey.value, subject.contentSha256, policySha256, policy.holdoutSetSha256);
    var b := receipt.binding.value;
    if receipt.body.parentId != subject.parentId {
      return Err("receipt judged the change against another parent");
    }
    if b.subjectPath != subject.path {
      return Err("receipt covers another path");
    }
    if b.subjectPath !in policy.allowedTargets {
      return Err("receipt subject is not an allowed target in the pinned policy");
    }
    if !EnoughHoldouts(b, policy.minHoldoutPassRatio) {
      return Err("holdouts passed are below the policy threshold");
    }
    return Ok(());
  }

  /** The same policy file without a threshold for holdouts. */
  function WithoutThreshold(file: Option<PolicyFile>): Option<PolicyFile> {
    match file
    case None => None
    case Some(f) => Some(f.(policy := f.policy.(minHoldoutPassRatio := 0.0)))
  }

  /** What the threshold adds: a promotion asks for the given share of the holdouts, and for nothing
      else that depends on the threshold. */
  lemma ThresholdExactly(c: Crypto, r: Record, key: Option<string>, own: string, file: Option<PolicyFile>, subject: Subject)
    requires r.binding.Some? && file.Some?
    ensures Promotable(c, r, key, own, WithoutThreshold(file), subject) ==> r.binding.value.holdoutsTotal > 0
    ensures Promotable(c, r, key, own, file, subject) <==>
      && Promotable(c, r, key, own, WithoutThreshold(file), subject)
      && r.binding.value.holdoutsPassed as real >= file.value.policy.minHoldoutPassRatio * r.binding.value.holdoutsTotal as real
  {
    hide SignatureVerifies;
  }

  /** Nothing passed never suffices for a positive threshold. */
  lemma NonePassedNever(c: Crypto, r: Record, key: Option<string>, own: string, f: PolicyFile, subject: Subject)
    requires r.binding.Some? && f.policy.minHoldoutPassRatio > 0.0 && r.binding.value.holdoutsPassed == 0
    ensures !Promotable(c, r, key, own, Some(f), subject)
  {
    hide Promotable, WithoutThreshold;
    NoneIsTooFew(f.policy.minHoldoutPassRatio, r.binding.value.holdoutsTotal, r.binding.value.holdoutsPassed);
    ThresholdExactly(c, r, key, own, Some(f), subject);
  }

  lemma NoneIsTooFew(ratio: real, total: nat, passed: nat)
    requires ratio > 0.0 && passed == 0
    ensures total > 0 ==> !(passed as real >= ratio * total as real)
  {
  }

  /** Everything passed suffices for every threshold up to 1. */
  lemma AllPassedAlways(c: Crypto, r: Record, key: Option<string>, own: string, f: PolicyFile, subject: Subject)
    requires r.binding.Some? && f.policy.minHoldoutPassRatio <= 1.0 && r.binding.value.holdoutsPassed == r.binding.value.holdoutsTotal
    ensures Promotable(c, r, key, own, Some(f), subject) <==> Promotable(c, r, key, own, WithoutThreshold(Some(f)), subject)
  {
    ThresholdExactly(c, r, key, own, Some(f), subject);
    hide Promotable;
    ShareOfAll(f.policy.minHoldoutPassRatio, r.binding.value.holdoutsTotal);
  }

  lemma ShareOfAll(ratio: real, total: nat)
    requires ratio <= 1.0
    ensures total as real >= ratio * total as real
  {
  }

  /** What is promoted stays promoted when a receipt that is as good in every other way records more of
      the same holdouts as passed. */
  lemma MorePassedStays(c: Crypto, r: Record, better: Record, key: Option<string>, own: string, file: Option<PolicyFile>, subject: Subject)
    requires Promotable(c, r, key, own, file, subject)
    requires Sufficient(c, c.parseKey(key.value).value, better, subject.contentSha256, file.value.sha256, file.value.policy.holdoutSetSha256)
    requires better.body == r.body && better.binding.value.subjectPath == r.binding.value.subjectPath
    requires better.binding.value.holdoutsTotal == r.binding.value.holdoutsTotal
    requires better.binding.value.holdoutsPassed >= r.binding.value.holdoutsPassed
    ensures Promotable(c, better, key, own, file, subject)
  {
    hide SignatureVerifies;
  }

  ghost function StatementOf(r: Record): Statement
    requires r.binding.Some?
  {
    Statement(r.body, r.binding.value)
  }

  /** A digest that was accepted once is accepted only for the same change: the same parent, path and
      bytes, under the same policy file and holdout set, with the same recorded results. */
  lemma DigestFixesPromotion(c: Crypto, r1: Record, r2: Record, k1: Option<string>, k2: Option<string>, own1: string, own2: string,
                             f1: Option<PolicyFile>, f2: Option<PolicyFile>, s1: Subject, s2: Subject)
    requires Promotable(c, r1, k1, own1, f1, s1) && Promotable(c, r2, k2, own2, f2, s2)
    requires r1.receiptDigest == r2.receiptDigest
    requires InRange(StatementOf(r1)) && InRange(StatementOf(r2))
    requires CollisionFree(c.hash, {PutFields(FieldList(StatementOf(r1))), PutFields(FieldList(StatementOf(r2)))})
    ensures s1 == s2 && f1.value.sha256 == f2.value.sha256
    ensures f1.value.policy.holdoutSetSha256 == f2.value.policy.holdoutSetSha256
    ensures r1.body == r2.body && r1.binding == r2.binding
  {
    PreimageUnique(StatementOf(r1), StatementOf(r2));
  }

  /** Version 1 digests bind the three ids exactly as far as their lengths are known, and the verdict
      with them. */
  lemma Version1BindsIds(h: Hash, a: Record, b: Record)
    requires a.formatVersion == 1 && b.formatVersion == 1 && DigestVerifies(h, a) && DigestVerifies(h, b)
    requires a.receiptDigest == b.receiptDigest && CollisionFree(h, {V1Input(a.body), V1Input(b.body)})
    ensures SameIds(a.body, b.body) <==> SameIdLengths(a.body, b.body)
    ensures SameIdLengths(a.body, b.body) ==> a.body.admitted == b.body.admitted
  {
    if SameIdLengths(a.body, b.body) {
      var x, y := a.body, b.body;
      V1Parts(x);
      V1Parts(y);
      SplitEqual(x.cycleId, x.candidateId + (x.parentId + V1Rest(x)), y.cycleId, y.candidateId + (y.parentId + V1Rest(y)));
      SplitEqual(x.candidateId, x.parentId + V1Rest(x), y.candidateId, y.parentId + V1Rest(y));
      SplitEqual(x.parentId, V1Rest(x), y.parentId, V1Rest(y));
      assert V1Rest(x)[0] == V1Rest(y)[0];
    }
  }

  predicate SameIds(a: Body, b: Body) {
    a.cycleId == b.cycleId && a.candidateId == b.candidateId && a.parentId == b.parentId
  }

  predicate SameIdLengths(a: Body, b: Body) {
    |a.cycleId| == |b.cycleId| && |a.candidateId| == |b.candidateId| && |a.parentId| == |b.parentId|
  }

  function V1Rest(b: Body): string {
    (if b.admitted then "1" else "0") + V1LayerInput(b.layers)
  }

  lemma V1Parts(b: Body)
    ensures V1Input(b) == b.cycleId + (b.candidateId + (b.parentId + V1Rest(b)))
  {
    var flag := if b.admitted then "1" else "0";
    assert b.cycleId + b.candidateId + b.parentId + flag + V1LayerInput(b.layers)
        == b.cycleId + b.candidateId + b.parentId + (flag + V1LayerInput(b.layers));
    assert b.cycleId + b.candidateId + b.parentId + V1Rest(b) == b.cycleId + (b.candidateId + (b.parentId + V1Rest(b)));
  }

  /** Version 1 digests do not separate the ids they cover, which is why they never suffice. */
  lemma Version1Ambiguous(h: Hash) returns (a: Record, b: Record)
    ensures a.body.cycleId != b.body.cycleId && a.body.candidateId != b.body.candidateId
    ensures a.receiptDigest == b.receiptDigest && DigestVerifies(h, a) && DigestVerifies(h, b)
  {
    var x := Body("ab", "c", "p", "t", "e", true, true, true, [], None);
    var y := Body("a", "bc", "p", "t", "e", true, true, true, [], None);
    assert V1Input(x) == "abc" + "p" + "1" + "" && V1Input(y) == "abc" + "p" + "1" + "";
    a := Record(x, h(V1Input(x)), None, 1, None);
    b := Record(y, h(V1Input(y)), None, 1, None);
    assert "ab" != "a" by { assert |"ab"| == 2; }
    assert "c" != "bc" by { assert |"bc"| == 2; }
  }
}
