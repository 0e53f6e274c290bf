/** The canary contract's records: observations, workload and candidate identity. */
module Canary {
  import opened Wrappers
  import opened Bytes
  import opened Fields

  const CANARY_PROTOCOL_VERSION := 1
  const OBSERVATION_RECORD_VERSION := 2
  const OBSERVATION_LOG_VERSION := 1
  const WORKLOAD_VERSION := 1
  const IDENTITY_VERSION := 1

  const OBSERVATION_DOMAIN := "spark-rsi/canary-observation/v2"
  const OBSERVATION_ID_DOMAIN := "spark-rsi/canary-observation-id/v2"
  const WORKLOAD_DOMAIN := "spark-rsi/canary-workload/v1"
  const REQUEST_DOMAIN := "spark-rsi/canary-request/v1"

  /** How many bytes of UTF-8 text are taken by the white space it starts with; 0 when it starts with
      something else. */
  function SpaceWidth(s: string): (n: nat)
    ensures n <= |s|
  {
    if s == "" then 0
    else if s[0] == ' ' || '\t' <= s[0] <= '\r' then 1
    else if |s| == 1 then 0
    else
      var a, b := s[0] as int, s[1] as int;
      if a == 0xC2 && (b == 0x85 || b == 0xA0) then 2
      else if |s| == 2 then 0
      else
        var c := s[2] as int;
        if (a == 0xE1 && b == 0x9A && c == 0x80)
          || (a == 0xE2 && b == 0x80 && (0x80 <= c <= 0x8A || c == 0xA8 || c == 0xA9 || c == 0xAF))
          || (a == 0xE2 && b == 0x81 && c == 0x9F)
          || (a == 0xE3 && b == 0x80 && c == 0x80)
        then 3 else 0
  }

  /** Nothing but white space. */
  predicate IsBlank(s: string) {
    s == "" || (SpaceWidth(s) > 0 && IsBlank(s[SpaceWidth(s)..]))
  }

  /** The ASCII white space: space, tab, line feed, vertical tab, form feed, carriage return. */
  ghost predicate AsciiSpace(c: char) {
    c as int == 32 || 9 <= c as int <= 13
  }

  /** A text with one visible ASCII character is not blank, and nothing but ASCII white space is. */
  lemma {:induction false} BlankPlainly(s: string)
    ensures IsBlank(s) ==> forall i :: 0 <= i < |s| && s[i] as int < 128 ==> AsciiSpace(s[i])
    ensures (forall i :: 0 <= i < |s| ==> AsciiSpace(s[i])) ==> IsBlank(s)
    decreases |s|
  {
    var n := SpaceWidth(s);
    if n > 0 {
      BlankPlainly(s[n..]);
      forall i | IsBlank(s) && 0 <= i < |s| && s[i] as int < 128 ensures AsciiSpace(s[i]) {
        if i >= n { assert s[n..][i - n] == s[i]; }
      }
    }
  }

  /** A control character starts here: U+0000 to U+001F and U+007F to U+009F. */
  predicate ControlAt(s: string, i: nat)
    requires i < |s|
  {
    s[i] < ' ' || s[i] == 127 as char || (i + 1 < |s| && s[i] as int == 0xC2 && 0x80 <= s[i + 1] as int <= 0x9F)
  }

  predicate HasControl(s: string) {
    exists i :: 0 <= i < |s| && ControlAt(s, i)
  }

  /** In ASCII text the control characters are those below the space, and DEL. */
  lemma ControlPlainly(s: string)
    ensures (exists i :: 0 <= i < |s| && (s[i] as int < 32 || s[i] as int == 127)) ==> HasControl(s)
    ensures HasControl(s) ==> exists i :: 0 <= i < |s| && (s[i] as int < 32 || s[i] as int >= 127)
  {
    if exists i :: 0 <= i < |s| && (s[i] as int < 32 || s[i] as int == 127) {
      var i :| 0 <= i < |s| && (s[i] as int < 32 || s[i] as int == 127);
      assert ControlAt(s, i);
    }
  }

  datatype VerifiedStatus = VerifiedSuccess | WrongResult | Timeout | InvalidResponse | ConnectionClosed

  datatype Provenance = Measured | Synthetic

  datatype Observation = Observation(
    recordVersion: nat, observationId: string, generationId: string, requestId: string,
    requestDigest: string, workloadDigest: string, executableDigest: string,
    resultDigest: Option<string>, elapsedUs: nat, observedAt: nat,
    status: VerifiedStatus, provenance: Provenance)

  datatype RequestSpec = RequestSpec(requestId: string, input: string, expectedOutput: string, deadlineMs: nat)

  datatype Workload = Workload(version: nat, workloadId: string, protocolVersion: nat, requests: seq<RequestSpec>)

  datatype Identity = Identity(version: nat, patchDigest: string, treeDigest: string, executableDigest: string, generationId: string)

  /** Canonical JSON of observations and workloads, as far as it matters here: some byte string. */
  datatype Printers = Printers(observation: Observation -> string, workload: Workload -> string)

  function ObservationId(h: Hash, generationId: string, requestId: string, requestDigest: string): Digest {
    DomainDigest(h, OBSERVATION_ID_DOMAIN, [generationId, requestId, requestDigest])
  }

  function RequestDigest(h: Hash, workloadId: string, s: RequestSpec): Digest {
    DomainDigest(h, REQUEST_DOMAIN, [workloadId, s.requestId, s.input, s.expectedOutput, U64(s.deadlineMs), "exact"])
  }

  function WorkloadDigest(h: Hash, p: Printers, w: Workload): Digest {
    DomainDigest(h, WORKLOAD_DOMAIN, [p.workload(w)])
  }

  function ObservationDigest(h: Hash, p: Printers, o: Observation): Digest {
    DomainDigest(h, OBSERVATION_DOMAIN, [p.observation(o)])
  }

  /** Builds the record and derives its id. */
  function NewObservation(h: Hash, generationId: string, requestId: string, requestDigest: string, workloadDigest: string,
                          executableDigest: string, resultDigest: Option<string>, elapsedUs: nat, observedAt: nat,
                          status: VerifiedStatus, provenance: Provenance): Observation
  {
    Observation(OBSERVATION_RECORD_VERSION, ObservationId(h, generationId, requestId, requestDigest), generationId,
                requestId, requestDigest, workloadDigest, executableDigest, resultDigest, elapsedUs, observedAt,
                status, provenance)
  }

  /** Structural validity of an observation. */
  predicate ObservationValid(h: Hash, o: Observation) {
    && o.recordVersion == OBSERVATION_RECORD_VERSION
    && !IsBlank(o.generationId) && !IsBlank(o.requestId)
    && IsHexDigest(o.requestDigest) && IsHexDigest(o.workloadDigest) && IsHexDigest(o.executableDigest)
    && (match o.resultDigest
        case Some(d) => IsHexDigest(d)
        case None => o.status != VerifiedSuccess && o.status != WrongResult)
    && o.observationId == ObservationId(h, o.generationId, o.requestId, o.requestDigest)
  }

  /** Counts toward the quota only when measured and verified as a success. */
  predicate IsQualifying(o: Observation) {
    o.provenance == Measured && o.status == VerifiedSuccess && o.resultDigest.Some?
  }

  predicate RequestValid(s: RequestSpec) {
    !IsBlank(s.requestId) && !HasControl(s.requestId) && s.deadlineMs != 0
  }

  ghost predicate WorkloadValid(w: Workload) {
    && w.version == WORKLOAD_VERSION && w.protocolVersion == CANARY_PROTOCOL_VERSION
    && !IsBlank(w.workloadId) && !HasControl(w.workloadId)
    && w.requests != []
    && (forall i :: 0 <= i < |w.requests| ==>
        !IsBlank(w.requests[i].requestId) && !HasControl(w.requests[i].requestId) && w.requests[i].deadlineMs > 0)
    && (forall i, j :: 0 <= i < j < |w.requests| ==> w.requests[i].requestId != w.requests[j].requestId)
  }

  method ValidateWorkload(w: Workload) returns (r: Result<(), string>)
    ensures r.Ok? <==> WorkloadValid(w)
  {
    if w.version != WORKLOAD_VERSION {
      return Err("canary workload version is not supported");
    }
    if w.protocolVersion != CANARY_PROTOCOL_VERSION {
      return Err("canary workload protocol version is not supported");
    }
    if IsBlank(w.workloadId) || HasControl(w.workloadId) {
      return Err("canary workload id is required and must be printable");
    }
    if w.requests == [] {
      return Err("canary workload has no requests");
    }
    var ids: set<string> := {};
    for i := 0 to |w.requests|
      invariant forall k :: 0 <= k < i ==> RequestValid(w.requests[k]) && w.requests[k].requestId in ids
      invariant forall id :: id in ids ==> exists k :: 0 <= k < i && w.requests[k].requestId == id
      invariant forall k, j :: 0 <= k < j < i ==> w.requests[k].requestId != w.requests[j].requestId
    {
      var req := w.requests[i];
      if !RequestValid(req) {
        return Err("canary request is invalid");
      }
      if req.requestId in ids {
        return Err("canary workload repeats a request id");
      }
      ids := ids + {req.requestId};
    }
    r := Ok(());
  }

  /** The first request with this id. */
  function FindRequest(requests: seq<RequestSpec>, requestId: string): (r: Option<RequestSpec>)
    ensures r.Some? ==> r.value in requests && r.value.requestId == requestId
    ensures r.None? ==> forall i :: 0 <= i < |requests| ==> requests[i].requestId != requestId
  {
    if requests == [] then None
    else if requests[0].requestId == requestId then Some(requests[0])
    else FindRequest(requests[1..], requestId)
  }

  lemma {:induction false} FindRequestAt(requests: seq<RequestSpec>, i: nat)
    requires i < |requests|
    requires forall j, k :: 0 <= j < k < |requests| ==> requests[j].requestId != requests[k].requestId
    ensures FindRequest(requests, requests[i].requestId) == Some(requests[i])
  {
    if i > 0 {
      FindRequestAt(requests[1..], i - 1);
    }
  }

  predicate IdentityValid(id: Identity) {
    && id.version == IDENTITY_VERSION
    && IsHexDigest(id.patchDigest) && IsHexDigest(id.treeDigest) && IsHexDigest(id.executableDigest)
    && !IsBlank(id.generationId)
  }

  /** SHA-256 of the bytes a correct answer consists of. */
  function ExpectedResultDigest(h: Hash, s: RequestSpec): Digest {
    h(s.expectedOutput)
  }

  function IdOf(h: Hash, generationId: string, w: Workload, s: RequestSpec): Digest {
    ObservationId(h, generationId, s.requestId, RequestDigest(h, w.workloadId, s))
  }

  /** The requests of the workload have different observation ids. */
  ghost predicate DistinctIds(h: Hash, generationId: string, w: Workload) {
    forall i, j :: 0 <= i < j < |w.requests| ==>
      IdOf(h, generationId, w, w.requests[i]) != IdOf(h, generationId, w, w.requests[j])
  }

  ghost function IdInput(h: Hash, generationId: string, w: Workload, s: RequestSpec): string {
    DomainInput(OBSERVATION_ID_DOMAIN, [generationId, s.requestId, RequestDigest(h, w.workloadId, s)])
  }

  lemma IdInputUnique(h: Hash, generationId: string, w: Workload, a: RequestSpec, b: RequestSpec)
    requires |generationId| < U64_LIMIT && |a.requestId| < U64_LIMIT && |b.requestId| < U64_LIMIT
    requires IdInput(h, generationId, w, a) == IdInput(h, generationId, w, b)
    ensures a.requestId == b.requestId
  {
    var f, g := [generationId, a.requestId, RequestDigest(h, w.workloadId, a)], [generationId, b.requestId, RequestDigest(h, w.workloadId, b)];
    DomainInputUnique(OBSERVATION_ID_DOMAIN, f, OBSERVATION_ID_DOMAIN, g);
    assert f[1] == g[1];
  }

  /** Distinct ids follow from distinct request ids when the id inputs do not collide. */
  lemma DistinctRequestsDistinctIds(h: Hash, generationId: string, w: Workload)
    requires WorkloadValid(w) && |generationId| < U64_LIMIT
    requires forall i :: 0 <= i < |w.requests| ==> |w.requests[i].requestId| < U64_LIMIT
    requires CollisionFree(h, set i | 0 <= i < |w.requests| :: IdInput(h, generationId, w, w.requests[i]))
    ensures DistinctIds(h, generationId, w)
  {
    forall i, j | 0 <= i < j < |w.requests|
      ensures IdOf(h, generationId, w, w.requests[i]) != IdOf(h, generationId, w, w.requests[j])
    {
      var a, b := w.requests[i], w.requests[j];
      if IdInput(h, generationId, w, a) == IdInput(h, generationId, w, b) {
        IdInputUnique(h, generationId, w, a, b);
      }
    }
  }
}
