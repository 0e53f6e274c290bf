/** What every run of the canary keeps true of the observation log, and what that means for admission. */
module CanaryEvidence {
  import opened Wrappers
  import opened Bytes
  import opened Canary
  import opened CanaryLog
  import opened CanaryWriter
  import opened CanaryWorker
  import opened CanaryAdmission

  /** The fixed part of a canary: formats, pinned workload and candidate. */
  datatype Job = Job(f: Formats, manifest: Workload, identity: Identity) {
    function WorkloadPin(): Digest {
      WorkloadDigest(f.hash, f.printers, manifest)
    }

    function RequestPin(s: RequestSpec): Digest {
      RequestDigest(f.hash, manifest.workloadId, s)
    }

    function Id(s: RequestSpec): Digest {
      IdOf(f.hash, identity.generationId, manifest, s)
    }

    /** The record that reports this verdict. */
    function Report(s: RequestSpec, resultDigest: Option<string>, elapsedUs: nat, observedAt: nat, status: VerifiedStatus): Observation {
      NewObservation(f.hash, identity.generationId, s.requestId, RequestPin(s), WorkloadPin(), identity.executableDigest,
                     resultDigest, elapsedUs, observedAt, status, Measured)
    }

    /** A header of this generation, workload and executable. */
    predicate Binds(header: LogHeader) {
      header.generationId == identity.generationId && header.workloadDigest == WorkloadPin()
        && header.executableDigest == identity.executableDigest
    }

    /** The inputs that `run` accepts, and distinct observation ids. */
    ghost predicate Valid() {
      Lawful(f) && IdentityValid(identity) && WorkloadValid(manifest) && DistinctIds(f.hash, identity.generationId, manifest)
    }
  }

  /** The observation reports the verdict on this receipt for request `s`. */
  ghost predicate Evidence(job: Job, s: RequestSpec, o: Observation, r: Receipt) {
    && r.openRequest == s.requestId && r.deadlineMs <= s.deadlineMs
    && var reply := Deciding(job.identity.generationId, s, r.incoming);
    && reply.Some?
    && Verdict(job.f.hash, s, r.deadlineMs, reply.value, r.incoming.elapsedNs) == (o.status, o.resultDigest)
    && o.elapsedUs == ElapsedUs(r.incoming.elapsedNs)
  }

  ghost predicate Backed(job: Job, heard: seq<Event>, s: RequestSpec, o: Observation) {
    exists i, j :: Wait(job, heard, s, i, j) && Evidence(job, s, o, heard[j].receipt)
  }

  /** The request went out at i, and at j something arrived for it; what arrived in between named no
      other generation. */
  ghost predicate Wait(job: Job, heard: seq<Event>, s: RequestSpec, i: int, j: int) {
    && 0 <= i < j < |heard| && heard[i] == Sent(s.requestId) && heard[j].Received?
    && forall k :: i < k < j ==> Uneventful(job, heard[k], s)
  }

  ghost predicate Uneventful(job: Job, e: Event, s: RequestSpec) {
    e.Received? && e.receipt.openRequest == s.requestId && !Foreign(job.identity.generationId, e.receipt.incoming)
  }

  /** The observation is the record of request `s` and something heard justifies it. */
  ghost predicate Reports(job: Job, heard: seq<Event>, s: RequestSpec, o: Observation) {
    o == job.Report(s, o.resultDigest, o.elapsedUs, o.observedAt, o.status) && Backed(job, heard, s, o)
  }

  predicate AllSuccess(os: seq<Observation>) {
    forall i :: 0 <= i < |os| ==> os[i].status == VerifiedSuccess
  }

  /** The stored observations answer the first requests of the workload in order, and all of them
      but possibly the last are successes. */
  ghost predicate Progress(job: Job, heard: seq<Event>, os: seq<Observation>) {
    && |os| <= |job.manifest.requests|
    && (forall i :: 0 <= i < |os| ==> Reports(job, heard, job.manifest.requests[i], os[i]))
    && (os != [] ==> AllSuccess(os[..|os| - 1]))
  }

  /** The observations of the observation records. */
  function Listed(rs: seq<LogRecord>): seq<Observation> {
    if rs == [] then [] else
      Listed(rs[..|rs| - 1]) + if rs[|rs| - 1].Observed? then [rs[|rs| - 1].observation] else []
  }

  ghost predicate LogInv(job: Job, heard: seq<Event>, rs: seq<LogRecord>) {
    && OpenLog(job.f, rs) && job.Binds(StateOf(job.f, rs).header.value)
    && StateOf(job.f, rs).observations == Listed(rs)
    && Progress(job, heard, Listed(rs))
  }

  /** An unsealed log file: complete records and possibly a torn last line. */
  ghost predicate Unsealed(job: Job, heard: seq<Event>, bytes: string, kept: seq<Observation>) {
    exists rs, tail :: bytes == Encode(job.f, rs) + tail && NewlineFree(tail) && LogInv(job, heard, rs) && kept <= Listed(rs)
  }

  ghost predicate ClosedBy(job: Job, heard: seq<Event>, bytes: string, kept: seq<Observation>, rs: seq<LogRecord>, seal: LogSeal) {
    && LogInv(job, heard, rs) && bytes == Encode(job.f, rs + [Sealing(seal)]) && kept <= Listed(rs)
    && seal == SealFor(job.f, StateOf(job.f, rs), Encode(job.f, rs), seal.sealedAt)
  }

  ghost predicate Closed(job: Job, heard: seq<Event>, bytes: string, kept: seq<Observation>) {
    exists rs, seal :: ClosedBy(job, heard, bytes, kept, rs, seal)
  }

  /** The file between two runs: missing, a torn header line, an unsealed log or a sealed log. */
  ghost predicate FileInv(job: Job, heard: seq<Event>, present: bool, bytes: string) {
    || (!present && bytes == "")
    || (present && NewlineFree(bytes))
    || (present && Unsealed(job, heard, bytes, []))
    || (present && Closed(job, heard, bytes, []))
  }

  /** The observations that a parser finds in the file. */
  ghost function Stored(f: Formats, bytes: string): seq<Observation> {
    if ScanLog(f, bytes).Some? then ScanLog(f, bytes).value.parsed.observations else []
  }

  lemma StoredUnsealed(job: Job, heard: seq<Event>, bytes: string, rs: seq<LogRecord>, tail: string)
    requires Lawful(job.f) && bytes == Encode(job.f, rs) + tail && NewlineFree(tail) && LogInv(job, heard, rs)
    ensures ScanLog(job.f, bytes) == Some(Scan(StateOf(job.f, rs), |Encode(job.f, rs)|))
    ensures Stored(job.f, bytes) == Listed(rs)
  {
    ScanEncoded(job.f, NOTHING, true, 0, rs, tail);
  }

  lemma StoredClosed(job: Job, heard: seq<Event>, bytes: string, kept: seq<Observation>, rs: seq<LogRecord>, seal: LogSeal)
    requires Lawful(job.f) && ClosedBy(job, heard, bytes, kept, rs, seal)
    ensures Stored(job.f, bytes) == Listed(rs)
    ensures Verify(job.f, bytes) == Some(SealedLog(StateOf(job.f, rs).header.value, Listed(rs), StateOf(job.f, rs).rejections, seal))
    ensures ScanLog(job.f, bytes).Some? && ScanLog(job.f, bytes).value.parsed.seal.Some?
  {
    SealVerifies(job.f, rs, seal.sealedAt);
  }

  lemma StoredTornHeader(f: Formats, bytes: string)
    requires NewlineFree(bytes)
    ensures ScanLog(f, bytes) == Some(Scan(NOTHING, 0)) && Stored(f, bytes) == []
  {
    NoNewline(bytes);
  }

  lemma BackedLater(job: Job, heard: seq<Event>, later: seq<Event>, s: RequestSpec, o: Observation)
    requires heard <= later && Backed(job, heard, s, o)
    ensures Backed(job, later, s, o)
  {
    var i, j :| Wait(job, heard, s, i, j) && Evidence(job, s, o, heard[j].receipt);
    assert Wait(job, later, s, i, j) && later[j] == heard[j];
  }

  /** Hearing more takes nothing back. */
  lemma ProgressLater(job: Job, heard: seq<Event>, later: seq<Event>, os: seq<Observation>)
    requires heard <= later && Progress(job, heard, os)
    ensures Progress(job, later, os)
  {
    forall i | 0 <= i < |os| ensures Reports(job, later, job.manifest.requests[i], os[i]) {
      BackedLater(job, heard, later, job.manifest.requests[i], os[i]);
    }
  }

  lemma LogInvLater(job: Job, heard: seq<Event>, later: seq<Event>, rs: seq<LogRecord>)
    requires heard <= later && LogInv(job, heard, rs)
    ensures LogInv(job, later, rs)
  {
    ProgressLater(job, heard, later, Listed(rs));
  }

  /** One more success or failure at the end keeps the log in order. */
  lemma ProgressGrows(job: Job, heard: seq<Event>, os: seq<Observation>, o: Observation)
    requires Progress(job, heard, os) && AllSuccess(os) && |os| < |job.manifest.requests|
    requires Reports(job, heard, job.manifest.requests[|os|], o)
    ensures Progress(job, heard, os + [o])
  {
    assert (os + [o])[..|os + [o]| - 1] == os;
  }

  lemma ListedGrows(rs: seq<LogRecord>, r: LogRecord)
    ensures Listed(rs + [r]) == Listed(rs) + if r.Observed? then [r.observation] else []
  {
    assert (rs + [r])[..|rs + [r]| - 1] == rs;
  }

  /** The remembered ids and digests are exactly those of the observations, each once. */
  ghost predicate Remembers(f: Formats, p: Parsed) {
    && p.seen.Keys == Ids(p.observations)
    && |Ids(p.observations)| == |p.observations|
    && (forall i :: 0 <= i < |p.observations| ==> Remembered(f, p.seen, p.observations[i]))
  }

  ghost predicate Remembered(f: Formats, seen: map<string, string>, o: Observation) {
    ObservationValid(f.hash, o) && o.observationId in seen && seen[o.observationId] == ObservationDigest(f.hash, f.printers, o)
  }

  lemma IdsOneMore(os: seq<Observation>, o: Observation)
    ensures Ids(os + [o]) == Ids(os) + {o.observationId}
  {
    assert o in os + [o];
  }

  lemma RemembersOneMore(f: Formats, p: Parsed, q: Parsed, o: Observation)
    requires Remembers(f, p) && ObservationValid(f.hash, o) && o.observationId !in p.seen
    requires q.observations == p.observations + [o]
    requires q.seen == p.seen[o.observationId := ObservationDigest(f.hash, f.printers, o)]
    ensures Remembers(f, q)
  {
    hide Ids, ObservationValid, ObservationDigest;
    IdsOneMore(p.observations, o);
    forall i | 0 <= i < |q.observations| ensures Remembered(f, q.seen, q.observations[i]) {
      if i < |p.observations| {
        assert Remembered(f, p.seen, p.observations[i]);
      }
    }
  }

  lemma StepRemembers(f: Formats, p: Parsed, r: LogRecord, first: bool, at: nat)
    requires Remembers(f, p) && Step(f, p, r, first, at).Some?
    ensures Remembers(f, Step(f, p, r, first, at).value)
  {
    var q := Step(f, p, r, first, at).value;
    match r
    case Header(h) => assert q == p.(header := Some(h));
    case Observed(o, digest) =>
      if o.observationId !in p.seen {
        RemembersOneMore(f, p, q, o);
      }
    case Rejected(x) => assert q == p.(rejections := p.rejections + [x]);
    case Sealing(s) => assert q == p.(seal := Some((s, at)));
  }

  /** The ids a parser remembers are those of the observations it keeps, in any log. */
  lemma {:induction false} SeenAreStored(f: Formats, rs: seq<LogRecord>)
    requires Replay(f, rs).Some?
    ensures Remembers(f, StateOf(f, rs))
    decreases |rs|
  {
    if rs != [] {
      var a, r := rs[..|rs| - 1], rs[|rs| - 1];
      assert rs == a + [r];
      ReplayPrefix(f, a, [r]);
      ReplayOne(f, a, r);
      SeenAreStored(f, a);
      StepRemembers(f, StateOf(f, a), r, a == [], |Encode(f, a)|);
    }
  }

  /** A success was heard from the authenticated worker: the right version, generation and request,
      the pinned output, and in time; and since the request went out nothing named another generation. */
  lemma SuccessIsEarned(job: Job, heard: seq<Event>, s: RequestSpec, o: Observation) returns (i: nat, j: nat)
    requires Reports(job, heard, s, o) && o.status == VerifiedSuccess
    ensures Wait(job, heard, s, i, j) && EarnedBy(job, s, heard[j].receipt)
    ensures !Foreign(job.identity.generationId, heard[j].receipt.incoming)
    ensures o.resultDigest == Some(ExpectedResultDigest(job.f.hash, s))
    ensures o.elapsedUs == ElapsedUs(heard[j].receipt.incoming.elapsedNs) && o.elapsedUs <= s.deadlineMs * 1000
  {
    i, j :| Wait(job, heard, s, i, j) && Evidence(job, s, o, heard[j].receipt);
    var r := heard[j].receipt;
    assert r.incoming.elapsedNs <= r.deadlineMs * NS_PER_MS <= s.deadlineMs * NS_PER_MS;
  }

  /** The authenticated worker answered this request: the right version, generation and request, the
      pinned output, within the deadline. */
  ghost predicate EarnedBy(job: Job, s: RequestSpec, r: Receipt) {
    && r.openRequest == s.requestId && r.incoming.Frame?
    && r.incoming.message == ExecuteResult(CANARY_PROTOCOL_VERSION, job.identity.generationId, s.requestId, s.expectedOutput)
    && r.incoming.elapsedNs <= s.deadlineMs * NS_PER_MS
  }

  /** The worker answered this request with the right version and generation. */
  ghost predicate Answered(job: Job, s: RequestSpec, i: Incoming) {
    && i.Frame? && i.message.ExecuteResult? && i.message.requestId == s.requestId
    && i.message.version == CANARY_PROTOCOL_VERSION && i.message.generationId == job.identity.generationId
  }

  /** Why an observation has its status. */
  ghost predicate Explains(job: Job, s: RequestSpec, status: VerifiedStatus, r: Receipt) {
    && r.openRequest == s.requestId && r.deadlineMs <= s.deadlineMs
    && var i := r.incoming;
    match status
    case VerifiedSuccess => EarnedBy(job, s, r)
    case WrongResult => Answered(job, s, i) && i.message.output != s.expectedOutput && i.elapsedNs <= r.deadlineMs * NS_PER_MS
    case Timeout => i.DeadlinePassed? || (Answered(job, s, i) && i.elapsedNs > r.deadlineMs * NS_PER_MS)
    case InvalidResponse =>
      i.Undecodable? || (i.Frame? && i.message.ExecuteResult? && i.message.requestId == s.requestId && !Answered(job, s, i))
    case ConnectionClosed =>
      i.ClosedByPeer? || i.ReadFailed? || i.SendFailed? || Foreign(job.identity.generationId, i)
  }

  lemma EvidenceExplains(job: Job, s: RequestSpec, o: Observation, r: Receipt)
    requires Evidence(job, s, o, r)
    ensures Explains(job, s, o.status, r)
  {
    assert r.deadlineMs * NS_PER_MS <= s.deadlineMs * NS_PER_MS;
  }

  /** What was heard for this observation. */
  ghost predicate Witnessed(job: Job, heard: seq<Event>, s: RequestSpec, status: VerifiedStatus) {
    exists i, j :: Wait(job, heard, s, i, j) && Explains(job, s, status, heard[j].receipt)
  }

  /** Every observation reports a request of the workload, in order, and was witnessed. */
  ghost predicate AllWitnessed(job: Job, heard: seq<Event>, os: seq<Observation>) {
    && |os| <= |job.manifest.requests|
    && forall i :: 0 <= i < |os| ==>
      os[i].requestId == job.manifest.requests[i].requestId && Witnessed(job, heard, job.manifest.requests[i], os[i].status)
  }

  lemma ProgressWitnessed(job: Job, heard: seq<Event>, os: seq<Observation>)
    requires Progress(job, heard, os)
    ensures AllWitnessed(job, heard, os)
  {
    forall k | 0 <= k < |os|
      ensures os[k].requestId == job.manifest.requests[k].requestId && Witnessed(job, heard, job.manifest.requests[k], os[k].status)
    {
      var s := job.manifest.requests[k];
      assert Reports(job, heard, s, os[k]);
      var i, j :| Wait(job, heard, s, i, j) && Evidence(job, s, os[k], heard[j].receipt);
      EvidenceExplains(job, s, os[k], heard[j].receipt);
    }
  }

  /** Whatever happened, every observation that a parser finds in the file was witnessed. */
  lemma StoredAreWitnessed(job: Job, heard: seq<Event>, present: bool, bytes: string)
    requires Lawful(job.f) && FileInv(job, heard, present, bytes)
    ensures AllWitnessed(job, heard, Stored(job.f, bytes))
  {
    if NewlineFree(bytes) {
      StoredTornHeader(job.f, bytes);
    } else if Unsealed(job, heard, bytes, []) {
      var rs, tail :| bytes == Encode(job.f, rs) + tail && NewlineFree(tail) && LogInv(job, heard, rs) && [] <= Listed(rs);
      StoredUnsealed(job, heard, bytes, rs, tail);
      ProgressWitnessed(job, heard, Listed(rs));
    } else {
      var rs, seal :| ClosedBy(job, heard, bytes, [], rs, seal);
      StoredClosed(job, heard, bytes, [], rs, seal);
      ProgressWitnessed(job, heard, Listed(rs));
    }
  }

  /** A stored observation is counted by admission exactly when it is a success. */
  lemma CountableIffSuccess(job: Job, heard: seq<Event>, i: nat, o: Observation)
    requires job.Valid() && i < |job.manifest.requests| && Reports(job, heard, job.manifest.requests[i], o)
    requires ObservationValid(job.f.hash, o)
    ensures Countable(job.f.hash, job.f.printers, job.identity, job.manifest, o) <==> o.status == VerifiedSuccess
  {
    FindRequestAt(job.manifest.requests, i);
    if o.status == VerifiedSuccess {
      var sent, answered := SuccessIsEarned(job, heard, job.manifest.requests[i], o);
    }
  }

  lemma AllCountableIffAllSuccess(job: Job, heard: seq<Event>, os: seq<Observation>)
    requires job.Valid() && Progress(job, heard, os)
    requires forall i :: 0 <= i < |os| ==> ObservationValid(job.f.hash, os[i])
    ensures AllCountable(job.f.hash, job.f.printers, job.identity, job.manifest, os) <==> AllSuccess(os)
  {
    forall i | 0 <= i < |os|
      ensures Countable(job.f.hash, job.f.printers, job.identity, job.manifest, os[i]) <==> os[i].status == VerifiedSuccess
    {
      CountableIffSuccess(job, heard, i, os[i]);
    }
  }

  /** Admission of a log that the executor sealed, after any history of runs, crashes and worker
      behaviour: exactly when the target is met and no failure is recorded. */
  lemma AdmissionExactly(job: Job, heard: seq<Event>, bytes: string, target: nat)
    requires job.Valid() && Closed(job, heard, bytes, [])
    ensures Verify(job.f, bytes).Some?
    ensures var log := Verify(job.f, bytes).value;
      && log.observations == Stored(job.f, bytes)
      && (Admissible(job.f.hash, job.f.printers, log, job.identity, job.manifest, target) <==>
          target >= 1 && AllSuccess(log.observations) && |log.observations| >= target)
      && |Ids(log.observations)| == |log.observations|
  {
    var rs, seal :| ClosedBy(job, heard, bytes, [], rs, seal);
    StoredClosed(job, heard, bytes, [], rs, seal);
    SeenAreStored(job.f, rs);
    var p := StateOf(job.f, rs);
    forall i | 0 <= i < |p.observations| ensures ObservationValid(job.f.hash, p.observations[i]) {
      assert Remembered(job.f, p.seen, p.observations[i]);
    }
    AllCountableIffAllSuccess(job, heard, Listed(rs));
  }
}
