/** Version 2 evaluation receipts: what the digest covers, and what a promotion therefore rests on. */
module Receipts {
  import opened Wrappers
  import opened Bytes
  import opened Fields
  import Hex

  const RECEIPT_V2_DOMAIN := "spark-rsi.evaluation-receipt.v2"
  const SIGNATURE_PREFIX := "tpm2-p256:"

  /** A float is its 64-bit pattern. */
  datatype LayerResult = LayerResult(layerName: string, isHardInvariant: bool, passed: bool, scoreBits: nat, summary: string, violations: seq<string>)

  datatype Metrics = Metrics(latencyDeltaBits: nat, pValueBits: nat, p95Bits: nat, p99Bits: nat, rssGrowthBits: nat, residentMb: nat)

  datatype Binding = Binding(
    subjectPath: string, subjectSha256: string, holdoutSetSha256: string, holdoutsTotal: nat, holdoutsPassed: nat,
    policySha256: string, evaluatorBinarySha256: string)

  /** The evaluation itself. */
  datatype Body = Body(
    cycleId: string, candidateId: string, parentId: string, evaluatedAt: string, evaluatorVersion: string,
    admitted: bool, passedAllHardInvariants: bool, passedStatisticalGates: bool,
    layers: seq<LayerResult>, metrics: Option<Metrics>)

  /** Everything a version 2 digest is meant to cover. */
  datatype Statement = Statement(body: Body, binding: Binding)

  function Flag(b: bool): (s: string)
    ensures |s| == 1
  {
    if b then [1 as char] else [0 as char]
  }

  function Strings(x: Statement): seq<string> {
    [x.body.cycleId, x.body.candidateId, x.body.parentId, x.body.evaluatedAt, x.body.evaluatorVersion, x.binding.evaluatorBinarySha256,
     x.binding.subjectPath, x.binding.subjectSha256, x.binding.holdoutSetSha256, x.binding.policySha256]
  }

  function LayerHead(l: LayerResult): seq<string> {
    [l.layerName, Flag(l.isHardInvariant), Flag(l.passed), U64(l.scoreBits), l.summary, U64(|l.violations|)]
  }

  function LayerFields(l: LayerResult): seq<string> {
    LayerHead(l) + l.violations
  }

  function AllLayerFields(ls: seq<LayerResult>): seq<string> {
    if ls == [] then [] else LayerFields(ls[0]) + AllLayerFields(ls[1..])
  }

  function MetricFields(m: Option<Metrics>): seq<string> {
    match m
    case None => [[0 as char]]
    case Some(v) =>
      [[1 as char], U64(v.latencyDeltaBits), U64(v.pValueBits), U64(v.p95Bits), U64(v.p99Bits), U64(v.rssGrowthBits), U64(v.residentMb)]
  }

  function Head(x: Statement): seq<string> {
    [RECEIPT_V2_DOMAIN] + Strings(x)
    + [U64(x.binding.holdoutsTotal), U64(x.binding.holdoutsPassed),
       Flag(x.body.admitted), Flag(x.body.passedAllHardInvariants), Flag(x.body.passedStatisticalGates), U64(|x.body.layers|)]
  }

  /** The fields of the digest in their order. */
  function FieldList(x: Statement): seq<string> {
    Head(x) + AllLayerFields(x.body.layers) + MetricFields(x.body.metrics)
  }

  predicate LayerInRange(l: LayerResult) {
    l.scoreBits < U64_LIMIT && |l.violations| < U64_LIMIT
  }

  predicate MetricsInRange(m: Metrics) {
    m.latencyDeltaBits < U64_LIMIT && m.pValueBits < U64_LIMIT && m.p95Bits < U64_LIMIT && m.p99Bits < U64_LIMIT
    && m.rssGrowthBits < U64_LIMIT && m.residentMb < U64_LIMIT
  }

  /** The machine ranges of the numbers and lengths. */
  ghost predicate InRange(x: Statement) {
    && x.binding.holdoutsTotal < U64_LIMIT && x.binding.holdoutsPassed < U64_LIMIT && |x.body.layers| < U64_LIMIT
    && (forall i :: 0 <= i < |x.body.layers| ==> LayerInRange(x.body.layers[i]))
    && (x.body.metrics.Some? ==> MetricsInRange(x.body.metrics.value))
    && Sized(FieldList(x))
  }

  lemma SplitFields(a: seq<string>, x: seq<string>, b: seq<string>, y: seq<string>)
    requires |a| == |b| && a + x == b + y
    ensures a == b && x == y
  {
    assert a == (a + x)[..|a|] && b == (b + y)[..|b|];
    assert x == (a + x)[|a|..] && y == (b + y)[|b|..];
  }

  lemma Assoc(a: seq<string>, b: seq<string>, c: seq<string>)
    ensures a + b + c == a + (b + c)
  {
  }

  lemma FlagInjective(a: bool, b: bool)
    requires Flag(a) == Flag(b)
    ensures a == b
  {
  }

  lemma LayerHeadUnique(l: LayerResult, m: LayerResult)
    requires LayerInRange(l) && LayerInRange(m) && LayerHead(l) == LayerHead(m)
    ensures l.(violations := []) == m.(violations := []) && |l.violations| == |m.violations|
  {
    var a, b := LayerHead(l), LayerHead(m);
    assert a[0] == b[0] && a[1] == b[1] && a[2] == b[2] && a[3] == b[3] && a[4] == b[4] && a[5] == b[5];
    FlagInjective(l.isHardInvariant, m.isHardInvariant);
    FlagInjective(l.passed, m.passed);
    U64Injective(l.scoreBits, m.scoreBits);
    U64Injective(|l.violations|, |m.violations|);
  }

  lemma {:induction false} LayersAppend(ls: seq<LayerResult>, l: LayerResult)
    ensures AllLayerFields(ls + [l]) == AllLayerFields(ls) + LayerFields(l)
  {
    hide LayerFields;
    if ls == [] {
      assert ls + [l] == [l] && [l][1..] == [];
    } else {
      assert (ls + [l])[1..] == ls[1..] + [l];
      LayersAppend(ls[1..], l);
      Assoc(LayerFields(ls[0]), AllLayerFields(ls[1..]), LayerFields(l));
    }
  }

  lemma LayerFirst(ls: seq<LayerResult>, x: seq<string>)
    requires ls != []
    ensures AllLayerFields(ls) + x == LayerHead(ls[0]) + (ls[0].violations + (AllLayerFields(ls[1..]) + x))
  {
    hide LayerHead;
    Assoc(LayerFields(ls[0]), AllLayerFields(ls[1..]), x);
    Assoc(LayerHead(ls[0]), ls[0].violations, AllLayerFields(ls[1..]) + x);
  }

  /** The layers can be read off the front of the fields that follow their count. */
  lemma {:induction false} LayersUnique(ls: seq<LayerResult>, x: seq<string>, ms: seq<LayerResult>, y: seq<string>)
    requires |ls| == |ms| && AllLayerFields(ls) + x == AllLayerFields(ms) + y
    requires forall i :: 0 <= i < |ls| ==> LayerInRange(ls[i]) && LayerInRange(ms[i])
    ensures ls == ms && x == y
    decreases |ls|
  {
    if ls == [] {
      assert AllLayerFields(ls) + x == x && AllLayerFields(ms) + y == y;
    } else {
      var l, m := ls[0], ms[0];
      var p, q := AllLayerFields(ls[1..]) + x, AllLayerFields(ms[1..]) + y;
      LayerFirst(ls, x);
      LayerFirst(ms, y);
      SplitFields(LayerHead(l), l.violations + p, LayerHead(m), m.violations + q);
      LayerHeadUnique(l, m);
      SplitFields(l.violations, p, m.violations, q);
      LayersUnique(ls[1..], x, ms[1..], y);
      assert ls == [l] + ls[1..] && ms == [m] + ms[1..];
    }
  }

  lemma PresenceUnique(a: Option<Metrics>, b: Option<Metrics>)
    requires MetricFields(a) == MetricFields(b)
    ensures a.Some? <==> b.Some?
  {
    assert MetricFields(a)[0] == MetricFields(b)[0];
  }

  lemma MetricsUnique(a: Option<Metrics>, b: Option<Metrics>)
    requires MetricFields(a) == MetricFields(b)
    requires (a.Some? ==> MetricsInRange(a.value)) && (b.Some? ==> MetricsInRange(b.value))
    ensures a == b
  {
    PresenceUnique(a, b);
    if a.Some? {
      var p, q := MetricFields(a), MetricFields(b);
      var v, w := a.value, b.value;
      assert p[1] == q[1] && p[2] == q[2] && p[3] == q[3] && p[4] == q[4] && p[5] == q[5] && p[6] == q[6];
      U64Injective(v.latencyDeltaBits, w.latencyDeltaBits);
      U64Injective(v.pValueBits, w.pValueBits);
      U64Injective(v.p95Bits, w.p95Bits);
      U64Injective(v.p99Bits, w.p99Bits);
      U64Injective(v.rssGrowthBits, w.rssGrowthBits);
      U64Injective(v.residentMb, w.residentMb);
    }
  }

  lemma HeadUnique(x: Statement, y: Statement)
    requires InRange(x) && InRange(y) && Head(x) == Head(y)
    ensures x.body.(layers := [], metrics := None) == y.body.(layers := [], metrics := None) && x.binding == y.binding && |x.body.layers| == |y.body.layers|
  {
    var rx, ry := Head(x)[11..], Head(y)[11..];
    assert Head(x)[1..11] == Strings(x) && Head(y)[1..11] == Strings(y);
    var s, t := Strings(x), Strings(y);
    assert s[0] == t[0] && s[1] == t[1] && s[2] == t[2] && s[3] == t[3] && s[4] == t[4];
    assert s[5] == t[5] && s[6] == t[6] && s[7] == t[7] && s[8] == t[8] && s[9] == t[9];
    assert rx[0] == ry[0] && rx[1] == ry[1] && rx[2] == ry[2] && rx[3] == ry[3] && rx[4] == ry[4] && rx[5] == ry[5];
    U64Injective(x.binding.holdoutsTotal, y.binding.holdoutsTotal);
    U64Injective(x.binding.holdoutsPassed, y.binding.holdoutsPassed);
    FlagInjective(x.body.admitted, y.body.admitted);
    FlagInjective(x.body.passedAllHardInvariants, y.body.passedAllHardInvariants);
    FlagInjective(x.body.passedStatisticalGates, y.body.passedStatisticalGates);
    U64Injective(|x.body.layers|, |y.body.layers|);
  }

  /** The preimage of the digest is uniquely decodable: it determines every signed id, flag, count,
      layer, violation and metric. */
  lemma PreimageUnique(x: Statement, y: Statement)
    requires InRange(x) && InRange(y) && PutFields(FieldList(x)) == PutFields(FieldList(y))
    ensures x == y
  {
    FieldsUnique(FieldList(x), FieldList(y));
    Assoc(Head(x), AllLayerFields(x.body.layers), MetricFields(x.body.metrics));
    Assoc(Head(y), AllLayerFields(y.body.layers), MetricFields(y.body.metrics));
    SplitFields(Head(x), AllLayerFields(x.body.layers) + MetricFields(x.body.metrics), Head(y), AllLayerFields(y.body.layers) + MetricFields(y.body.metrics));
    HeadUnique(x, y);
    LayersUnique(x.body.layers, MetricFields(x.body.metrics), y.body.layers, MetricFields(y.body.metrics));
    MetricsUnique(x.body.metrics, y.body.metrics);
  }

  /** SHA-256 and P-256: nothing is assumed here but what a lemma names. */
  datatype Crypto = Crypto(
    hash: Hash, sign: (string, string) -> string, verify: (string, string, string) -> bool,
    publicKey: string -> string, parseKey: string -> Option<string>)

  /** A receipt at one moment. */
  datatype Record = Record(body: Body, receiptDigest: string, signature: Option<string>, formatVersion: nat, binding: Option<Binding>)

  function DigestV2(h: Hash, x: Statement): Digest {
    h(PutFields(FieldList(x)))
  }

  function V1LayerInput(ls: seq<LayerResult>): string {
    if ls == [] then "" else
      V1LayerInput(ls[..|ls| - 1])
      + (ls[|ls| - 1].layerName + (if ls[|ls| - 1].passed then "1" else "0") + U64(ls[|ls| - 1].scoreBits) + ls[|ls| - 1].summary)
  }

  /** Version 1 hashes its fields without lengths. */
  function V1Input(b: Body): string {
    b.cycleId + b.candidateId + b.parentId + (if b.admitted then "1" else "0") + V1LayerInput(b.layers)
  }

  /** The recomputed digest matches. Other combinations of version and binding never verify. */
  predicate DigestVerifies(h: Hash, r: Record) {
    match (r.formatVersion, r.binding)
    case (1, None) => r.receiptDigest == h(V1Input(r.body))
    case (2, Some(b)) => r.receiptDigest == DigestV2(h, Statement(r.body, b))
    case _ => false
  }

  /** The bytes that are signed: the decoded digest, or its text when it is not hex. */
  function DigestBytes(digest: string): string {
    match Hex.Decode(digest)
    case Some(bytes) => bytes
    case None => digest
  }

  /** What is signed determines the digest. */
  lemma SignedBytesFixDigest(a: Digest, b: Digest)
    requires DigestBytes(a) == DigestBytes(b)
    ensures a == b
  {
    Hex.DecodesHex(a);
    Hex.DecodesHex(b);
    Hex.DecodeInjective(a, b);
  }

  function StripPrefix(s: string): string {
    if SIGNATURE_PREFIX <= s then s[|SIGNATURE_PREFIX|..] else s
  }

  predicate SignatureVerifies(c: Crypto, key: string, r: Record) {
    && DigestVerifies(c.hash, r)
    && r.signature.Some?
    && var bytes := Hex.Decode(StripPrefix(r.signature.value));
    && bytes.Some? && c.verify(key, DigestBytes(r.receiptDigest), bytes.value)
  }

  /** What a promotion of this subject under this policy and holdout set asks of a receipt. */
  predicate Sufficient(c: Crypto, judgeKey: string, r: Record, subjectSha256: string, policySha256: string, holdoutSetSha256: string) {
    && r.formatVersion == 2 && r.binding.Some? && SignatureVerifies(c, judgeKey, r)
    && r.binding.value.subjectSha256 == subjectSha256 && r.binding.value.policySha256 == policySha256
    && r.binding.value.holdoutSetSha256 == holdoutSetSha256 && r.body.admitted
  }

  lemma PutFieldsOne(fields: seq<string>, f: string)
    ensures PutFields(fields + [f]) == PutFields(fields) + PutField(f)
  {
    PutFieldsAppend(fields, [f]);
    assert PutFields([f]) == PutField(f) + PutFields([]);
  }

  /** Feeds fields to the hasher one after the other. */
  method PutEach(buffer: string, fields: seq<string>) returns (b: string)
    ensures b == buffer + PutFields(fields)
  {
    b := buffer;
    for i := 0 to |fields|
      invariant b == buffer + PutFields(fields[..i])
    {
      assert fields[..i + 1] == fields[..i] + [fields[i]];
      PutFieldsOne(fields[..i], fields[i]);
      b := b + PutField(fields[i]);
    }
    assert fields[..|fields|] == fields;
  }

  method PutLayer(buffer: string, l: LayerResult) returns (b: string)
    ensures b == buffer + PutFields(LayerFields(l))
  {
    b := PutEach(buffer, LayerHead(l));
    b := PutEach(b, l.violations);
    PutFieldsAppend(LayerHead(l), l.violations);
  }

  method PutLayers(buffer: string, ls: seq<LayerResult>) returns (b: string)
    ensures b == buffer + PutFields(AllLayerFields(ls))
  {
    hide LayerFields, PutField;
    b := buffer;
    for i := 0 to |ls|
      invariant b == buffer + PutFields(AllLayerFields(ls[..i]))
    {
      b := PutLayer(b, ls[i]);
      assert ls[..i + 1] == ls[..i] + [ls[i]];
      LayersAppend(ls[..i], ls[i]);
      PutFieldsAppend(AllLayerFields(ls[..i]), LayerFields(ls[i]));
    }
    assert ls[..|ls|] == ls;
  }

  method PutStatement(x: Statement) returns (b: string)
    ensures b == PutFields(FieldList(x))
  {
    b := PutEach("", [RECEIPT_V2_DOMAIN]);
    b := PutEach(b, Strings(x));
    b := PutEach(b, [U64(x.binding.holdoutsTotal), U64(x.binding.holdoutsPassed),
                     Flag(x.body.admitted), Flag(x.body.passedAllHardInvariants), Flag(x.body.passedStatisticalGates), U64(|x.body.layers|)]);
    PutFieldsAppend([RECEIPT_V2_DOMAIN], Strings(x));
    PutFieldsAppend([RECEIPT_V2_DOMAIN] + Strings(x),
                    [U64(x.binding.holdoutsTotal), U64(x.binding.holdoutsPassed),
                     Flag(x.body.admitted), Flag(x.body.passedAllHardInvariants), Flag(x.body.passedStatisticalGates), U64(|x.body.layers|)]);
    assert b == PutFields(Head(x));
    b := PutLayers(b, x.body.layers);
    PutFieldsAppend(Head(x), AllLayerFields(x.body.layers));
    b := PutEach(b, MetricFields(x.body.metrics));
    PutFieldsAppend(Head(x) + AllLayerFields(x.body.layers), MetricFields(x.body.metrics));
  }

  class EvaluationReceipt {
    const body: Body
    var receiptDigest: string
    var signature: Option<string>
    var formatVersion: nat
    var binding: Option<Binding>

    constructor (body: Body, receiptDigest: string)
      ensures this.body == body && this.receiptDigest == receiptDigest && signature == None && formatVersion == 1 && binding == None
    {
      this.body, this.receiptDigest, signature, formatVersion, binding := body, receiptDigest, None, 1, None;
    }

    function Value(): Record
      reads this
    {
      Record(body, receiptDigest, signature, formatVersion, binding)
    }

    method ComputeDigestV2(h: Hash) returns (r: Result<Digest, string>)
      ensures r.Ok? <==> binding.Some?
      ensures r.Ok? ==> r.value == DigestV2(h, Statement(body, binding.value))
    {
      if binding.None? {
        return Err("version 2 digest needs a binding");
      }
      var preimage := PutStatement(Statement(body, binding.value));
      return Ok(h(preimage));
    }

    /** Signs the digest bytes with the judge's key. The signed receipt verifies under exactly the keys
        that accept this signature, if its digest is right. */
    method Sign(c: Crypto, key: string)
      requires IsBytes(c.sign(key, DigestBytes(receiptDigest)))
      modifies this`signature
      ensures signature.Some? && SIGNATURE_PREFIX <= signature.value
      ensures Hex.Decode(StripPrefix(signature.value)) == Some(c.sign(key, DigestBytes(receiptDigest)))
      ensures forall k :: SignatureVerifies(c, k, Value()) <==>
        DigestVerifies(c.hash, Value()) && c.verify(k, DigestBytes(receiptDigest), c.sign(key, DigestBytes(receiptDigest)))
      ensures SignedVerifies(c, key) && DigestVerifies(c.hash, Value()) ==> SignatureVerifies(c, c.publicKey(key), Value())
    {
      var signed := c.sign(key, DigestBytes(receiptDigest));
      signature := Some(SIGNATURE_PREFIX + Hex.Encode(signed));
      Hex.DecodesEncoded(signed);
      assert StripPrefix(signature.value) == Hex.Encode(signed);
    }

    /** Turns the receipt into version 2. A signature that verifies makes it sufficient exactly for the
        bound subject, policy and holdout set, and only if the candidate was admitted. */
    method BindAndSignV2(c: Crypto, binding: Binding, key: string) returns (r: Result<(), string>)
      requires SignsBytes(c, key)
      modifies this
      ensures r.Ok? && formatVersion == 2 && this.binding == Some(binding)
      ensures receiptDigest == DigestV2(c.hash, Statement(body, binding))
      ensures DigestVerifies(c.hash, Value())
      ensures SignedVerifies(c, key) ==> forall s, p, q :: Sufficient(c, c.publicKey(key), Value(), s, p, q) <==>
        binding.subjectSha256 == s && binding.policySha256 == p && binding.holdoutSetSha256 == q && body.admitted
    {
      formatVersion := 2;
      this.binding := Some(binding);
      var digest := ComputeDigestV2(c.hash);
      receiptDigest := digest.value;
      Sign(c, key);
      return Ok(());
    }

    method VerifyForPromotion(c: Crypto, judgeKey: string, subjectSha256: string, policySha256: string, holdoutSetSha256: string)
      returns (r: Result<(), string>)
      ensures r.Ok? <==> Sufficient(c, judgeKey, Value(), subjectSha256, policySha256, holdoutSetSha256)
      ensures r.Ok? ==> binding.Some?
    {
      if formatVersion != 2 {
        return Err("version 2 required");
      }
      if !SignatureVerifies(c, judgeKey, Value()) {
        return Err("receipt signature or digest does not verify under the judge key");
      }
      if binding.None? {
        return Err("version 2 receipt without binding");
      }
      var b := binding.value;
      if b.subjectSha256 != subjectSha256 {
        return Err("receipt subject is not the change being promoted");
      }
      if b.policySha256 != policySha256 {
        return Err("receipt policy digest differs from the pinned policy");
      }
      if b.holdoutSetSha256 != holdoutSetSha256 {
        return Err("receipt holdout set differs from the pinned holdout set");
      }
      if !body.admitted {
        return Err("judge did not admit the candidate");
      }
      return Ok(());
    }
  }

  ghost predicate SignsBytes(c: Crypto, key: string) {
    forall m :: IsBytes(c.sign(key, m))
  }

  /** The named assumption on P-256: what a key signs verifies under its public key. */
  ghost predicate SignedVerifies(c: Crypto, key: string) {
    forall m :: c.verify(c.publicKey(key), m, c.sign(key, m))
  }
}
