/** The quota validator: the only authority on whether a sealed log holds enough evidence. */
module CanaryAdmission {
  import opened Wrappers
  import opened Bytes
  import opened Canary
  import opened CanaryLog
  import opened CanaryWriter

  const U64_MAX: nat := U64_LIMIT - 1

  datatype QuotaDecision = QuotaDecision(counted: nat, target: nat, generationId: string, executableDigest: string, workloadDigest: string, logDigest: string)

  /** `saturating_mul` of a u64 number of milliseconds by 1000. */
  function DeadlineUs(ms: nat): nat {
    if ms * 1000 > U64_MAX then U64_MAX else ms * 1000
  }

  /** Everything one observation has to satisfy to be counted. */
  ghost predicate Countable(h: Hash, p: Printers, id: Identity, w: Workload, o: Observation) {
    && ObservationValid(h, o)
    && o.generationId == id.generationId && o.executableDigest == id.executableDigest && o.workloadDigest == WorkloadDigest(h, p, w)
    && o.provenance == Measured && o.status == VerifiedSuccess
    && (match FindRequest(w.requests, o.requestId)
        case None => false
        case Some(s) => Answers(h, w, s, o))
  }

  /** The expected outcome of this request, in time. */
  ghost predicate Answers(h: Hash, w: Workload, s: RequestSpec, o: Observation) {
    && o.requestDigest == RequestDigest(h, w.workloadId, s)
    && o.resultDigest == Some(ExpectedResultDigest(h, s))
    && o.elapsedUs <= s.deadlineMs * 1000 && o.elapsedUs < U64_LIMIT
  }

  ghost function Ids(os: seq<Observation>): set<string> {
    set o | o in os :: o.observationId
  }

  ghost predicate HeaderMatches(h: Hash, p: Printers, header: LogHeader, id: Identity, w: Workload) {
    header.generationId == id.generationId && header.executableDigest == id.executableDigest
      && header.workloadDigest == WorkloadDigest(h, p, w)
  }

  ghost predicate AllCountable(h: Hash, p: Printers, id: Identity, w: Workload, os: seq<Observation>) {
    forall o :: o in os ==> Countable(h, p, id, w, o)
  }

  /** The exact condition for admission. */
  ghost predicate Admissible(h: Hash, p: Printers, log: SealedLog, id: Identity, w: Workload, target: nat) {
    && target >= 1 && IdentityValid(id) && WorkloadValid(w) && HeaderMatches(h, p, log.header, id, w)
    && AllCountable(h, p, id, w, log.observations)
    && |Ids(log.observations)| >= target
  }

  /** One observation through all the checks, in the order of the source. */
  method CheckObservation(h: Hash, p: Printers, id: Identity, w: Workload, o: Observation) returns (r: Result<(), string>)
    ensures r.Ok? <==> Countable(h, p, id, w, o)
  {
    hide ObservationValid, WorkloadDigest, FindRequest, Answers;
    if !ObservationValid(h, o) {
      return Err("observation is invalid");
    }
    if o.generationId != id.generationId || o.executableDigest != id.executableDigest || o.workloadDigest != WorkloadDigest(h, p, w) {
      return Err("observation is not bound to this generation, executable and workload");
    }
    if o.provenance != Measured {
      return Err("observation is a synthetic rehearsal");
    }
    if o.status != VerifiedSuccess {
      return Err("the candidate is not promotable");
    }
    var spec := FindRequest(w.requests, o.requestId);
    if spec.None? {
      return Err("observation answers a request which is not in the pinned workload");
    }
    r := CheckAnswer(h, w, spec.value, o);
  }

  /** The observation against the request it names. */
  method CheckAnswer(h: Hash, w: Workload, s: RequestSpec, o: Observation) returns (r: Result<(), string>)
    ensures r.Ok? <==> Answers(h, w, s, o)
  {
    hide RequestDigest, ExpectedResultDigest;
    if o.requestDigest != RequestDigest(h, w.workloadId, s) {
      return Err("observation carries another request digest");
    }
    if o.resultDigest != Some(ExpectedResultDigest(h, s)) {
      return Err("observation result digest does not equal the expected outcome");
    }
    if o.elapsedUs > DeadlineUs(s.deadlineMs) {
      return Err("observation took longer than the deadline");
    }
    r := Ok(());
  }

  /** The checks before any observation is looked at. */
  method CheckHeader(h: Hash, p: Printers, header: LogHeader, id: Identity, w: Workload, target: nat) returns (r: Result<Digest, string>)
    ensures r.Ok? <==> target >= 1 && IdentityValid(id) && WorkloadValid(w) && HeaderMatches(h, p, header, id, w)
    ensures r.Ok? ==> r.value == WorkloadDigest(h, p, w)
  {
    if target == 0 {
      return Err("production canary quota target must be at least 1");
    }
    if !IdentityValid(id) {
      return Err("candidate identity is invalid");
    }
    var _ :- ValidateWorkload(w);
    var workloadDigest := WorkloadDigest(h, p, w);
    if header.generationId != id.generationId {
      return Err("observation log is for another generation");
    }
    if header.executableDigest != id.executableDigest {
      return Err("observation log executable digest does not match the candidate executable");
    }
    if header.workloadDigest != workloadDigest {
      return Err("observation log workload digest does not match the pinned workload");
    }
    r := Ok(workloadDigest);
  }

  lemma OneMore(h: Hash, p: Printers, id: Identity, w: Workload, os: seq<Observation>, i: nat)
    requires i < |os|
    ensures AllCountable(h, p, id, w, os[..i + 1]) <==> AllCountable(h, p, id, w, os[..i]) && Countable(h, p, id, w, os[i])
    ensures AllCountable(h, p, id, w, os) ==> Countable(h, p, id, w, os[i])
    ensures Ids(os[..i + 1]) == Ids(os[..i]) + {os[i].observationId}
  {
    assert os[..i + 1] == os[..i] + [os[i]];
    assert os[i] in os[..i + 1];
  }

  /** The loop over the observations: every one must count, and each id counts once. */
  method CountObservations(h: Hash, p: Printers, id: Identity, w: Workload, os: seq<Observation>) returns (r: Result<nat, string>)
    ensures r.Ok? <==> AllCountable(h, p, id, w, os)
    ensures r.Ok? ==> r.value == |Ids(os)|
  {
    hide Countable;
    var counted := 0;
    var seen: set<string> := {};
    for i := 0 to |os|
      invariant AllCountable(h, p, id, w, os[..i])
      invariant seen == Ids(os[..i]) && counted == |seen|
    {
      OneMore(h, p, id, w, os, i);
      var _ :- CheckObservation(h, p, id, w, os[i]);
      var oid := os[i].observationId;
      if oid !in seen {
        seen, counted := seen + {oid}, counted + 1;
      }
    }
    assert os[..|os|] == os;
    r := Ok(counted);
  }

  method AdmitSealedQuota(h: Hash, p: Printers, log: SealedLog, id: Identity, w: Workload, target: nat)
    returns (r: Result<QuotaDecision, string>)
    ensures r.Ok? <==> Admissible(h, p, log, id, w, target)
    ensures r.Ok? ==> r.value.counted == |Ids(log.observations)| && r.value.target == target
    ensures r.Ok? ==> r.value.logDigest == log.seal.logDigest && r.value.generationId == id.generationId
  {
    var workloadDigest :- CheckHeader(h, p, log.header, id, w, target);
    var counted :- CountObservations(h, p, id, w, log.observations);
    if counted < target {
      return Err("production canary quota requires more verified observations");
    }
    r := Ok(QuotaDecision(counted, target, id.generationId, id.executableDigest, workloadDigest, log.seal.logDigest));
  }
}
