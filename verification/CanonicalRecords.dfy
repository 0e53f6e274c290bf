/** The canary records in canonical JSON, and why the assumptions on formats can be met. */
module CanonicalRecords {
  import opened Wrappers
  import opened Bytes
  import opened Fields
  import opened Json
  import opened Canary
  import opened CanaryLog

  function StatusName(s: VerifiedStatus): string {
    match s
    case VerifiedSuccess => "verified_success"
    case WrongResult => "wrong_result"
    case Timeout => "timeout"
    case InvalidResponse => "invalid_response"
    case ConnectionClosed => "connection_closed"
  }

  function ProvenanceName(p: Provenance): string {
    match p
    case Measured => "measured"
    case Synthetic => "synthetic"
  }

  function Optional(s: Option<string>): Value {
    match s
    case None => Null
    case Some(v) => Str(v)
  }

  function ObservationValue(o: Observation): Value {
    Object(map[
      "record_version" := Number(o.recordVersion), "observation_id" := Str(o.observationId),
      "generation_id" := Str(o.generationId), "request_id" := Str(o.requestId), "request_digest" := Str(o.requestDigest),
      "workload_digest" := Str(o.workloadDigest), "candidate_executable_digest" := Str(o.executableDigest),
      "result_digest" := Optional(o.resultDigest), "elapsed_us" := Number(o.elapsedUs), "observed_at_ms" := Number(o.observedAt),
      "status" := Str(StatusName(o.status)), "provenance" := Str(ProvenanceName(o.provenance))])
  }

  lemma StatusNamesApart(a: VerifiedStatus, b: VerifiedStatus)
    requires StatusName(a) == StatusName(b)
    ensures a == b
  {
    assert |StatusName(a)| == |StatusName(b)|;
    assert StatusName(a)[0] == StatusName(b)[0];
  }

  lemma ProvenanceNamesApart(a: Provenance, b: Provenance)
    requires ProvenanceName(a) == ProvenanceName(b)
    ensures a == b
  {
    assert ProvenanceName(a)[0] == ProvenanceName(b)[0];
  }

  lemma ObservationKeys(o: Observation)
    ensures var m := ObservationValue(o).entries;
      && m["record_version"] == Number(o.recordVersion) && m["observation_id"] == Str(o.observationId)
      && m["generation_id"] == Str(o.generationId) && m["request_id"] == Str(o.requestId) && m["request_digest"] == Str(o.requestDigest)
      && m["workload_digest"] == Str(o.workloadDigest) && m["candidate_executable_digest"] == Str(o.executableDigest)
      && m["result_digest"] == Optional(o.resultDigest) && m["elapsed_us"] == Number(o.elapsedUs) && m["observed_at_ms"] == Number(o.observedAt)
      && m["status"] == Str(StatusName(o.status)) && m["provenance"] == Str(ProvenanceName(o.provenance))
  {
  }

  /** The canonical value of an observation covers every field. */
  lemma ObservationValueUnique(a: Observation, b: Observation)
    requires ObservationValue(a) == ObservationValue(b)
    ensures a == b
  {
    ObservationKeys(a);
    ObservationKeys(b);
    hide ObservationValue, StatusName, ProvenanceName;
    StatusNamesApart(a.status, b.status);
    ProvenanceNamesApart(a.provenance, b.provenance);
  }

  function RequestValue(s: RequestSpec): Value {
    Object(map[
      "request_id" := Str(s.requestId), "input" := Str(s.input), "expected_output" := Str(s.expectedOutput),
      "deadline_ms" := Number(s.deadlineMs), "nondeterminism" := Str("exact")])
  }

  lemma RequestValueUnique(a: RequestSpec, b: RequestSpec)
    requires RequestValue(a) == RequestValue(b)
    ensures a == b
  {
    var m, n := RequestValue(a).entries, RequestValue(b).entries;
    assert m["request_id"] == n["request_id"] && m["input"] == n["input"] && m["expected_output"] == n["expected_output"];
    assert m["deadline_ms"] == n["deadline_ms"];
  }

  function RequestValues(rs: seq<RequestSpec>): (vs: seq<Value>)
    ensures |vs| == |rs| && forall i :: 0 <= i < |rs| ==> vs[i] == RequestValue(rs[i])
  {
    if rs == [] then [] else [RequestValue(rs[0])] + RequestValues(rs[1..])
  }

  function WorkloadValue(w: Workload): Value {
    Object(map[
      "workload_version" := Number(w.version), "workload_id" := Str(w.workloadId), "protocol_version" := Number(w.protocolVersion),
      "requests" := Array(RequestValues(w.requests))])
  }

  /** So does that of a workload: every request, outcome and deadline. */
  lemma WorkloadValueUnique(a: Workload, b: Workload)
    requires WorkloadValue(a) == WorkloadValue(b)
    ensures a == b
  {
    var m, n := WorkloadValue(a).entries, WorkloadValue(b).entries;
    assert m["workload_version"] == n["workload_version"] && m["workload_id"] == n["workload_id"];
    assert m["protocol_version"] == n["protocol_version"] && m["requests"] == n["requests"];
    forall i | 0 <= i < |a.requests| ensures a.requests[i] == b.requests[i] {
      assert RequestValues(a.requests)[i] == RequestValues(b.requests)[i];
      RequestValueUnique(a.requests[i], b.requests[i]);
    }
  }

  /** The kind of a log line and what stands under it. */
  function KindName(r: LogRecord): string {
    match r
    case Header(_) => "header"
    case Observed(_, _) => "observation"
    case Rejected(_) => "rejection"
    case Sealing(_) => "seal"
  }

  function BodyValue(r: LogRecord): Value {
    match r
    case Header(h) => Object(map[
      "log_version" := Number(h.version), "generation_id" := Str(h.generationId), "workload_digest" := Str(h.workloadDigest),
      "candidate_executable_digest" := Str(h.executableDigest), "opened_at_ms" := Number(h.openedAt)])
    case Observed(o, digest) => Object(map["observation" := ObservationValue(o), "observation_digest" := Str(digest)])
    case Rejected(x) => Object(map["reason" := Str(x.reason), "observed_at_ms" := Number(x.observedAt)])
    case Sealing(s) => Object(map[
      "observation_count" := Number(s.observationCount), "qualifying_count" := Number(s.qualifyingCount),
      "log_digest" := Str(s.logDigest), "sealed_at_ms" := Number(s.sealedAt)])
  }

  function RecordValue(r: LogRecord): Value {
    Object(map["kind" := Str(KindName(r)), "record" := BodyValue(r)])
  }

  lemma BodyValueUnique(a: LogRecord, b: LogRecord)
    requires KindName(a) == KindName(b) && BodyValue(a) == BodyValue(b)
    ensures a == b
  {
    assert |KindName(a)| == |KindName(b)| && KindName(a)[0] == KindName(b)[0];
    var m, n := BodyValue(a).entries, BodyValue(b).entries;
    match a {
      case Header(_) =>
        assert m["log_version"] == n["log_version"] && m["generation_id"] == n["generation_id"] && m["workload_digest"] == n["workload_digest"];
        assert m["candidate_executable_digest"] == n["candidate_executable_digest"] && m["opened_at_ms"] == n["opened_at_ms"];
      case Observed(o, _) =>
        assert m["observation"] == n["observation"] && m["observation_digest"] == n["observation_digest"];
        ObservationValueUnique(o, b.observation);
      case Rejected(_) =>
        assert m["reason"] == n["reason"] && m["observed_at_ms"] == n["observed_at_ms"];
      case Sealing(_) =>
        assert m["observation_count"] == n["observation_count"] && m["qualifying_count"] == n["qualifying_count"];
        assert m["log_digest"] == n["log_digest"] && m["sealed_at_ms"] == n["sealed_at_ms"];
    }
  }

  /** The line of a record without its newline. */
  ghost function LineText(r: LogRecord): string {
    Print(RecordValue(r))
  }

  /** Different log records have different lines. */
  lemma LineTextUnique(a: LogRecord, b: LogRecord)
    requires LineText(a) == LineText(b)
    ensures a == b
  {
    PrintInjective(RecordValue(a), RecordValue(b));
    var m, n := RecordValue(a).entries, RecordValue(b).entries;
    assert m["kind"] == n["kind"] && m["record"] == n["record"];
    BodyValueUnique(a, b);
  }

  /** Reading a line back: the record that prints as it, if there is one. */
  ghost function ParseLine(s: string): Option<LogRecord> {
    if exists r :: LineText(r) == s then
      var r :| LineText(r) == s;
      Some(r)
    else None
  }

  /** The formats of the canary log. */
  ghost function CanonicalFormats(h: Hash): Formats {
    Formats(h, Printers(o => Print(ObservationValue(o)), w => Print(WorkloadValue(w))), r => LineText(r), s => ParseLine(s))
  }

  /** Canonical JSON meets what the log asks of its line format. */
  lemma CanonicalFormatsAreLawful(h: Hash)
    ensures Lawful(CanonicalFormats(h))
  {
    var f := CanonicalFormats(h);
    forall r ensures PrintsBack(f, r) {
      PrintIsPrintable(RecordValue(r));
      assert NewlineFree(LineText(r));
      var back := ParseLine(LineText(r));
      assert back.Some? && LineText(back.value) == LineText(r);
      LineTextUnique(back.value, r);
    }
  }

  /** Digests of workloads tell them apart. */
  lemma WorkloadDigestUnique(h: Hash, a: Workload, b: Workload)
    requires |Print(WorkloadValue(a))| < U64_LIMIT && |Print(WorkloadValue(b))| < U64_LIMIT
    requires CollisionFree(h, {DomainInput(WORKLOAD_DOMAIN, [Print(WorkloadValue(a))]), DomainInput(WORKLOAD_DOMAIN, [Print(WorkloadValue(b))])})
    requires WorkloadDigest(h, CanonicalFormats(h).printers, a) == WorkloadDigest(h, CanonicalFormats(h).printers, b)
    ensures a == b
  {
    DomainInputUnique(WORKLOAD_DOMAIN, [Print(WorkloadValue(a))], WORKLOAD_DOMAIN, [Print(WorkloadValue(b))]);
    assert [Print(WorkloadValue(a))][0] == [Print(WorkloadValue(b))][0];
    PrintInjective(WorkloadValue(a), WorkloadValue(b));
    WorkloadValueUnique(a, b);
  }
}
