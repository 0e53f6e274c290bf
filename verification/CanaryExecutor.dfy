/** The canary executor: opens or reopens the log, issues the outstanding requests one at a time,
    stores each verdict and seals the log. Any write may be cut short by a crash, and any number of
    runs may follow one another on the same file. */
module CanaryExecutor {
  import opened Wrappers
  import opened Bytes
  import opened Canary
  import opened CanaryLog
  import opened CanaryWriter
  import opened CanaryWorker
  import opened CanaryAdmission
  import opened CanaryEvidence

  datatype ExecutorConfig = ExecutorConfig(deadlineCapMs: Option<nat>, requestLimit: Option<nat>, haltAfterRequests: Option<nat>)

  datatype Summary = Summary(
    planned: nat, recovered: nat, issued: nat, verifiedSuccess: nat, wrongResult: nat, timeout: nat,
    invalidResponse: nat, connectionClosed: nat, rejections: nat, ready: bool, firstFailure: Option<string>, reverted: bool)
  {
    /** Observations this run stored. */
    function Recorded(): nat {
      verifiedSuccess + wrongResult + timeout + invalidResponse + connectionClosed
    }

    /** Observations of this status that this run stored. */
    function Of(status: VerifiedStatus): nat {
      match status
      case VerifiedSuccess => verifiedSuccess
      case WrongResult => wrongResult
      case Timeout => timeout
      case InvalidResponse => invalidResponse
      case ConnectionClosed => connectionClosed
    }

    function Count(status: VerifiedStatus): (s: Summary)
      ensures s.Recorded() == Recorded() + 1
      ensures forall other :: s.Of(other) == Of(other) + if other == status then 1 else 0
      ensures s == this.(verifiedSuccess := s.verifiedSuccess, wrongResult := s.wrongResult, timeout := s.timeout,
                         invalidResponse := s.invalidResponse, connectionClosed := s.connectionClosed)
    {
      match status
      case VerifiedSuccess => this.(verifiedSuccess := verifiedSuccess + 1)
      case WrongResult => this.(wrongResult := wrongResult + 1)
      case Timeout => this.(timeout := timeout + 1)
      case InvalidResponse => this.(invalidResponse := invalidResponse + 1)
      case ConnectionClosed => this.(connectionClosed := connectionClosed + 1)
    }
  }

  datatype Outcome = Sealed(log: SealedLog, summary: Summary) | Halted(summary: Summary)

  datatype GenerationState = Staged | Starting | CanaryActive | Reverting | OtherState

  class Generation {
    const generationId: string
    var state: GenerationState

    constructor (generationId: string, state: GenerationState)
      ensures this.generationId == generationId && this.state == state
    {
      this.generationId, this.state := generationId, state;
    }
  }

  /** Reads every complete line. */
  function ReadRecords(f: Formats, bytes: string): Option<seq<LogRecord>>
    decreases |bytes|
  {
    var k := FirstNewline(bytes);
    if k == |bytes| then Some([]) else
      match f.parse(bytes[..k])
      case None => None
      case Some(r) => Prepend([r], ReadRecords(f, bytes[k + 1..]))
  }

  function Prepend(rs: seq<LogRecord>, more: Option<seq<LogRecord>>): (r: Option<seq<LogRecord>>)
    ensures rs == [] ==> r == more
  {
    if more.None? then None else
      assert rs == [] ==> rs + more.value == more.value;
      Some(rs + more.value)
  }

  lemma PrependTwice(rs: seq<LogRecord>, r: LogRecord, more: Option<seq<LogRecord>>)
    ensures Prepend(rs, Prepend([r], more)) == Prepend(rs + [r], more)
  {
    if more.Some? {
      assert rs + ([r] + more.value) == rs + [r] + more.value;
    }
  }

  method StoredRecords(f: Formats, bytes: string) returns (r: Option<seq<LogRecord>>)
    ensures r == ReadRecords(f, bytes)
  {
    var records, rest := [], bytes;
    var pos := FirstNewline(rest);
    while pos < |rest|
      invariant pos == FirstNewline(rest)
      invariant ReadRecords(f, bytes) == Prepend(records, ReadRecords(f, rest))
      decreases |rest|
    {
      var record := f.parse(rest[..pos]);
      if record.None? {
        return None;
      }
      PrependTwice(records, record.value, ReadRecords(f, rest[pos + 1..]));
      records, rest := records + [record.value], rest[pos + 1..];
      pos := FirstNewline(rest);
    }
    assert records + [] == records;
    r := Some(records);
  }

  lemma {:induction false} ReadEncoded(f: Formats, rs: seq<LogRecord>, tail: string)
    requires Lawful(f) && NewlineFree(tail)
    ensures ReadRecords(f, Encode(f, rs) + tail) == Some(rs)
    decreases |rs|
  {
    var bytes := Encode(f, rs) + tail;
    if rs == [] {
      assert bytes == tail;
      NoNewline(tail);
    } else {
      var u, rest := f.print_(rs[0]), Encode(f, rs[1..]) + tail;
      assert PrintsBack(f, rs[0]);
      assert bytes == u + "\n" + rest;
      FirstNewlineIn(u, rest);
      assert bytes[..|u|] == u && bytes[|u| + 1..] == rest;
      ReadEncoded(f, rs[1..], tail);
      assert rs == [rs[0]] + rs[1..];
    }
  }

  /** A writer on a log of this canary. */
  ghost predicate Running(job: Job, heard: seq<Event>, w: LogWriter)
    reads w, w.file
  {
    job.Valid() && w.Valid() && w.f == job.f && job.Binds(w.header) && LogInv(job, heard, w.records)
  }

  lemma RunningLater(job: Job, heard: seq<Event>, later: seq<Event>, w: LogWriter)
    requires Running(job, heard, w) && heard <= later
    ensures Running(job, later, w)
  {
    LogInvLater(job, heard, later, w.records);
  }

  lemma RunningUnsealed(job: Job, heard: seq<Event>, w: LogWriter)
    requires Running(job, heard, w)
    ensures w.file.present && Unsealed(job, heard, w.file.bytes, Listed(w.records))
    ensures Stored(job.f, w.file.bytes) == Listed(w.records)
  {
    assert w.file.bytes == Encode(job.f, w.records) + "";
    StoredUnsealed(job, heard, w.file.bytes, w.records, "");
  }

  /** A rejection changes nothing that counts. */
  lemma RejectionKeeps(job: Job, heard: seq<Event>, rs: seq<LogRecord>, r: LogRecord)
    requires LogInv(job, heard, rs) && r.Rejected? && OpenLog(job.f, rs + [r])
    requires StateOf(job.f, rs + [r]).header == StateOf(job.f, rs).header
    requires StateOf(job.f, rs + [r]).observations == StateOf(job.f, rs).observations
    ensures LogInv(job, heard, rs + [r]) && Listed(rs + [r]) == Listed(rs)
  {
    ListedGrows(rs, r);
  }

  /** A crash while one more record was written leaves a log that can be reopened, with everything
      that was stored before. */
  lemma TornUnsealed(job: Job, heard: seq<Event>, bytes: string, rs: seq<LogRecord>, r: LogRecord)
    requires Lawful(job.f) && Torn(job.f, bytes, rs, r)
    requires LogInv(job, heard, rs) && LogInv(job, heard, rs + [r])
    ensures Unsealed(job, heard, bytes, Listed(rs))
  {
    ListedGrows(rs, r);
    var complete, tail := TornRecords(job.f, bytes, rs, r);
  }

  /** A crash while the seal was written leaves either an unsealed or a sealed log. */
  lemma TornSeal(job: Job, heard: seq<Event>, bytes: string, rs: seq<LogRecord>, seal: LogSeal)
    requires Lawful(job.f) && Torn(job.f, bytes, rs, Sealing(seal)) && LogInv(job, heard, rs)
    requires seal == SealFor(job.f, StateOf(job.f, rs), Encode(job.f, rs), seal.sealedAt)
    ensures Unsealed(job, heard, bytes, Listed(rs)) || Closed(job, heard, bytes, Listed(rs))
  {
    var complete, tail := TornRecords(job.f, bytes, rs, Sealing(seal));
    if complete == rs {
      assert bytes == Encode(job.f, rs) + tail;
    } else {
      EncodeOne(job.f, rs, Sealing(seal));
      assert |bytes| >= |Encode(job.f, rs + [Sealing(seal)])| && tail == "";
      assert ClosedBy(job, heard, bytes, Listed(rs), rs, seal);
    }
  }

  /** The machine never stops and nobody else connects. */
  ghost predicate Quiet(script: Script) {
    forall t :: script.crash(t).None? && script.strays(t) == []
  }

  /** The worker answers this request correctly and at once. */
  ghost predicate AnswersWell(job: Job, script: Script, s: RequestSpec) {
    forall t :: script.sends(t, s.requestId).None?
      && script.arrives(t, s.requestId) == Frame(ExecuteResult(CANARY_PROTOCOL_VERSION, job.identity.generationId, s.requestId, s.expectedOutput), 0)
  }

  ghost predicate Serves(job: Job, world: World, s: RequestSpec) {
    Quiet(world.script) && world.patience > 0 && AnswersWell(job, world.script, s)
  }

  ghost predicate AlwaysWithin(script: Script, s: RequestSpec) {
    forall t :: script.withinBudget(t, s.requestId) == Some(true)
  }

  ghost predicate NeverWithin(script: Script, s: RequestSpec) {
    forall t :: script.withinBudget(t, s.requestId) != Some(true)
  }

  /** The worker starts and authenticates at once. */
  ghost predicate Greets(script: Script) {
    forall t :: script.spawns(t) && script.readiness(t) == Authenticated
  }

  /** A worker that answers everything correctly and is within its memory limit for exactly the first
      k of these requests. */
  ghost predicate ServesUpTo(job: Job, world: World, todo: seq<RequestSpec>, k: nat) {
    && Quiet(world.script) && Greets(world.script) && world.patience > 0
    && k <= |todo| && (forall i :: 0 <= i < |todo| ==> Serves(job, world, todo[i]))
    && (forall i :: 0 <= i < k ==> AlwaysWithin(world.script, todo[i]))
    && (k < |todo| ==> NeverWithin(world.script, todo[k]))
  }

  method RecordRejection(job: Job, world: World, w: LogWriter, reason: string, summary: Summary) returns (alive: bool, s: Summary)
    requires Running(job, world.heard, w)
    modifies world`asked, w, w.file
    ensures alive ==> Running(job, world.heard, w) && Listed(w.records) == old(Listed(w.records)) && w.seen == old(w.seen)
    ensures alive ==> s == summary.(rejections := summary.rejections + 1)
    ensures Quiet(world.script) ==> alive
    ensures !alive ==> w.file.present && Unsealed(job, world.heard, w.file.bytes, old(Listed(w.records)))
  {
    var now := world.Now();
    var crash := world.CrashPoint();
    ghost var rs, r := w.records, Rejected(LogRejection(reason, now));
    var written := w.AppendRejection(reason, now, crash);
    RejectionKeeps(job, world.heard, rs, r);
    if written.Err? {
      TornUnsealed(job, world.heard, w.file.bytes, rs, r);
      return false, summary;
    }
    return true, summary.(rejections := summary.rejections + 1);
  }

  method DrainStrays(job: Job, world: World, w: LogWriter, summary: Summary) returns (alive: bool, s: Summary)
    requires Running(job, world.heard, w)
    modifies world`asked, w, w.file
    ensures alive ==> Running(job, world.heard, w) && Listed(w.records) == old(Listed(w.records)) && w.seen == old(w.seen)
    ensures alive ==> s == summary.(rejections := s.rejections)
    ensures Quiet(world.script) ==> alive
    ensures !alive ==> w.file.present && Unsealed(job, world.heard, w.file.bytes, old(Listed(w.records)))
  {
    hide Running, Unsealed, Listed;
    var reasons := world.Strays();
    s := summary;
    for i := 0 to |reasons|
      invariant Running(job, world.heard, w) && Listed(w.records) == old(Listed(w.records)) && w.seen == old(w.seen)
      invariant s == summary.(rejections := s.rejections)
    {
      alive, s := RecordRejection(job, world, w, reasons[i], s);
      if !alive {
        return;
      }
    }
    alive := true;
  }

  datatype Handled = Dead | Waiting | Answered(reply: Reply)

  /** A frame that is logged as a rejection: not the answer to `s`, no ping reply, and no diagnostic of
      this generation. */
  predicate Unsolicited(generationId: string, s: RequestSpec, m: Message) {
    match m
    case ExecuteResult(_, _, requestId, _) => requestId != s.requestId
    case Heartbeat(named) => named != generationId
    case CanaryReport(named) => named != generationId
    case DrainComplete(_) => true
    case Pong => false
    case Ready => true
    case AuthResponse => true
  }

  /** One frame that arrived while `s` was open: what is refused is logged. */
  method HandleFrame(job: Job, world: World, w: LogWriter, s: RequestSpec, message: Message,
                     issued: set<string>, answered: set<string>, summary: Summary) returns (r: Handled, t: Summary)
    requires Running(job, world.heard, w)
    modifies world`asked, w, w.file
    ensures !r.Dead? ==> Running(job, world.heard, w) && Listed(w.records) == old(Listed(w.records)) && w.seen == old(w.seen)
    ensures !r.Dead? ==> t == summary.(rejections := summary.rejections + if Unsolicited(job.identity.generationId, s, message) then 1 else 0)
    ensures Quiet(world.script) ==> !r.Dead?
    ensures !r.Dead? ==> DecidingFrame(job.identity.generationId, s, message) == if r.Waiting? then None else Some(r.reply)
    ensures !r.Dead? ==> forall ns :: Foreign(job.identity.generationId, Frame(message, ns)) ==>
      r.Answered? && r.reply.status in {InvalidResponse, ConnectionClosed}
    ensures !r.Dead? ==> forall ns :: !Foreign(job.identity.generationId, Frame(message, ns)) ==>
      (r.Waiting? <==> !(message.ExecuteResult? && message.requestId == s.requestId))
    ensures r.Dead? ==> w.file.present && Unsealed(job, world.heard, w.file.bytes, old(Listed(w.records)))
  {
    hide Running, Unsealed, Listed;
    var generationId := job.identity.generationId;
    var alive;
    t := summary;
    match message {
    case ExecuteResult(version, named, requestId, output) =>
      if requestId == s.requestId {
        if version != CANARY_PROTOCOL_VERSION || named != generationId {
          return Answered(Reply(InvalidResponse, None)), t;
        }
        return Answered(Reply(VerifiedSuccess, Some(output))), t;
      }
      var why := if requestId in answered then "already answered" else if requestId in issued then "not the open request" else "not issued";
      alive, t := RecordRejection(job, world, w, "ExecuteResult for request " + requestId + " which was " + why, t);
      if !alive {
        return Dead, t;
      }
      if named != generationId {
        return Answered(Reply(ConnectionClosed, None)), t;
      }
      return Waiting, t;
    case Pong =>
      return Waiting, t;
    case Heartbeat(named) =>
      if named == generationId {
        return Waiting, t;
      }
    case CanaryReport(named) =>
      if named == generationId {
        return Waiting, t;
      }
    case DrainComplete(_) =>
    case Ready =>
    case AuthResponse =>
    }
    if (message.Heartbeat? || message.CanaryReport? || message.DrainComplete?) && message.generationId != generationId {
      alive, t := RecordRejection(job, world, w, "message naming generation " + message.generationId, t);
      return if alive then Answered(Reply(ConnectionClosed, None)) else Dead, t;
    }
    alive, t := RecordRejection(job, world, w, "unexpected frame on the authenticated connection", t);
    return if alive then Waiting else Dead, t;
  }

  /** The wait brought this reply: everything heard before it decided nothing. */
  ghost predicate Decided(job: Job, s: RequestSpec, deadlineMs: nat, before: seq<Event>, heard: seq<Event>, reply: Reply, elapsedNs: nat) {
    && before < heard
    && (forall i :: |before| <= i < |heard| - 1 ==> Passed(job, s, deadlineMs, heard[i]))
    && heard[|heard| - 1].Received?
    && var last := heard[|heard| - 1].receipt;
    && last.openRequest == s.requestId && last.deadlineMs == deadlineMs
    && Deciding(job.identity.generationId, s, last.incoming) == Some(reply) && last.incoming.elapsedNs == elapsedNs
  }

  ghost predicate Passed(job: Job, s: RequestSpec, deadlineMs: nat, e: Event) {
    && e.Received? && e.receipt.openRequest == s.requestId && e.receipt.deadlineMs == deadlineMs
    && Deciding(job.identity.generationId, s, e.receipt.incoming).None?
  }

  /** What is passed over names no other generation. */
  lemma PassedIsUneventful(job: Job, s: RequestSpec, deadlineMs: nat, e: Event)
    requires Passed(job, s, deadlineMs, e)
    ensures Uneventful(job, e, s)
  {
  }

  /** Since the events `before`, a frame that names another generation came last if it came at all, and
      then there was no success. */
  ghost predicate CutOff(job: Job, before: seq<Event>, heard: seq<Event>, success: bool) {
    forall k :: |before| <= k < |heard| && heard[k].Received? && Foreign(job.identity.generationId, heard[k].receipt.incoming) ==>
      k == |heard| - 1 && !success
  }

  lemma DecidedCutsOff(job: Job, s: RequestSpec, deadlineMs: nat, before: seq<Event>, heard: seq<Event>, reply: Reply, elapsedNs: nat)
    requires Decided(job, s, deadlineMs, before, heard, reply, elapsedNs)
    ensures CutOff(job, before, heard, reply.status == VerifiedSuccess)
  {
    forall k | |before| <= k < |heard| - 1 ensures !Foreign(job.identity.generationId, heard[k].receipt.incoming) {
      PassedIsUneventful(job, s, deadlineMs, heard[k]);
    }
  }

  /** Waits for the result of `s`; None after a crash. */
  method AwaitResult(job: Job, world: World, w: LogWriter, s: RequestSpec, deadlineMs: nat,
                     issued: set<string>, answered: set<string>, summary: Summary)
    returns (r: Option<(Reply, nat)>, t: Summary)
    requires Running(job, world.heard, w)
    modifies world, w, w.file
    ensures world.sent == old(world.sent) && old(world.heard) <= world.heard
    ensures r.Some? ==> Running(job, world.heard, w) && Listed(w.records) == old(Listed(w.records)) && w.seen == old(w.seen)
    ensures r.Some? ==> t == summary.(rejections := t.rejections)
    ensures r.Some? ==> Decided(job, s, deadlineMs, old(world.heard), world.heard, r.value.0, r.value.1)
    ensures r.Some? ==> CutOff(job, old(world.heard), world.heard, r.value.0.status == VerifiedSuccess)
    ensures r.None? ==> w.file.present && Unsealed(job, world.heard, w.file.bytes, old(Listed(w.records)))
    ensures Serves(job, world, s) && old(world.left) > 0 ==> r == Some((Reply(VerifiedSuccess, Some(s.expectedOutput)), 0))
  {
    hide Running, Unsealed, Listed;
    t := summary;
    while true
      invariant Running(job, world.heard, w) && Listed(w.records) == old(Listed(w.records)) && w.seen == old(w.seen)
      invariant t == summary.(rejections := t.rejections)
      invariant world.sent == old(world.sent) && old(world.heard) <= world.heard
      invariant forall i :: |old(world.heard)| <= i < |world.heard| ==> Passed(job, s, deadlineMs, world.heard[i])
      invariant Serves(job, world, s) ==> world.left == old(world.left)
      decreases world.left
    {
      ghost var before := world.heard;
      var i := world.Receive(s.requestId, deadlineMs);
      RunningLater(job, before, world.heard, w);
      match i {
        case DeadlinePassed(ns) =>
          r := Some((Reply(Timeout, None), ns));
          break;
        case ClosedByPeer(ns) =>
          r := Some((Reply(ConnectionClosed, None), ns));
          break;
        case ReadFailed(ns) =>
          r := Some((Reply(ConnectionClosed, None), ns));
          break;
        case SendFailed(ns) =>
          r := Some((Reply(ConnectionClosed, None), ns));
          break;
        case Undecodable(ns) =>
          r := Some((Reply(InvalidResponse, None), ns));
          break;
        case Frame(message, ns) =>
          var handled;
          handled, t := HandleFrame(job, world, w, s, message, issued, answered, t);
          match handled {
            case Dead => return None, t;
            case Answered(reply) =>
              r := Some((reply, ns));
              break;
            case Waiting =>
          }
      }
    }
    DecidedCutsOff(job, s, deadlineMs, old(world.heard), world.heard, r.value.0, r.value.1);
  }

  lemma StoredUnder(job: Job, heard: seq<Event>, os: seq<Observation>, id: string) returns (j: nat)
    requires Progress(job, heard, os) && id in Ids(os)
    ensures j < |os| && job.Id(job.manifest.requests[j]) == id
  {
    var o :| o in os && o.observationId == id;
    j :| 0 <= j < |os| && os[j] == o;
    assert Reports(job, heard, job.manifest.requests[j], os[j]);
  }

  /** The requests before and after `|os|` are told apart by their ids. */
  lemma StoredIffBefore(job: Job, heard: seq<Event>, os: seq<Observation>, i: nat)
    requires job.Valid() && Progress(job, heard, os) && i < |job.manifest.requests|
    ensures job.Id(job.manifest.requests[i]) in Ids(os) <==> i < |os|
  {
    var id := job.Id(job.manifest.requests[i]);
    if i < |os| {
      assert Reports(job, heard, job.manifest.requests[i], os[i]);
      assert os[i] in os && os[i].observationId == id;
    } else if id in Ids(os) {
      var j := StoredUnder(job, heard, os, id);
    }
  }

  lemma KnownIffBefore(job: Job, heard: seq<Event>, w: LogWriter, i: nat)
    requires Running(job, heard, w) && i < |job.manifest.requests|
    ensures w.Contains(job.Id(job.manifest.requests[i])) <==> i < |Listed(w.records)|
  {
    SeenAreStored(job.f, w.records);
    StoredIffBefore(job, heard, Listed(w.records), i);
  }

  /** Sends the request and waits; a failed send is a closed connection. */
  method Ask(job: Job, world: World, w: LogWriter, s: RequestSpec, deadlineMs: nat,
             issued: set<string>, answered: set<string>, summary: Summary)
    returns (r: Option<(Reply, nat)>, t: Summary)
    requires Running(job, world.heard, w)
    modifies world, w, w.file
    ensures world.sent == old(world.sent) + [s.requestId] && old(world.heard) <= world.heard
    ensures r.Some? ==> Running(job, world.heard, w) && Listed(w.records) == old(Listed(w.records)) && w.seen == old(w.seen)
    ensures r.Some? ==> t == summary.(rejections := t.rejections)
    ensures r.Some? ==> Decided(job, s, deadlineMs, old(world.heard) + [Sent(s.requestId)], world.heard, r.value.0, r.value.1)
    ensures r.Some? ==> CutOff(job, old(world.heard), world.heard, r.value.0.status == VerifiedSuccess)
    ensures r.None? ==> w.file.present && Unsealed(job, world.heard, w.file.bytes, old(Listed(w.records)))
    ensures Serves(job, world, s) ==> r == Some((Reply(VerifiedSuccess, Some(s.expectedOutput)), 0))
  {
    ghost var before := world.heard;
    var failed := world.Send(s.requestId, deadlineMs);
    RunningLater(job, before, world.heard, w);
    if failed.Some? {
      return Some((Reply(ConnectionClosed, None), failed.value.elapsedNs)), summary;
    }
    r, t := AwaitResult(job, world, w, s, deadlineMs, issued, answered, summary);
  }

  /** Whatever the time of the report, this verdict on `s` is justified by what was heard. */
  ghost predicate Justified(job: Job, heard: seq<Event>, s: RequestSpec, status: VerifiedStatus, digest: Option<string>, elapsedUs: nat) {
    forall at: nat :: Reports(job, heard, s, job.Report(s, digest, elapsedUs, at, status))
  }

  lemma DecidedWaits(job: Job, s: RequestSpec, deadlineMs: nat, before: seq<Event>, heard: seq<Event>, reply: Reply, elapsedNs: nat)
    requires Decided(job, s, deadlineMs, before + [Sent(s.requestId)], heard, reply, elapsedNs)
    ensures Wait(job, heard, s, |before|, |heard| - 1)
  {
    assert heard[|before|] == (before + [Sent(s.requestId)])[|before|];
    forall k | |before| < k < |heard| - 1 ensures Uneventful(job, heard[k], s) {
      PassedIsUneventful(job, s, deadlineMs, heard[k]);
    }
  }

  lemma DecidedJustifies(job: Job, s: RequestSpec, deadlineMs: nat, before: seq<Event>, heard: seq<Event>, reply: Reply, elapsedNs: nat)
    requires Decided(job, s, deadlineMs, before + [Sent(s.requestId)], heard, reply, elapsedNs) && deadlineMs <= s.deadlineMs
    ensures var (status, digest) := Verdict(job.f.hash, s, deadlineMs, reply, elapsedNs);
      Justified(job, heard, s, status, digest, ElapsedUs(elapsedNs))
  {
    var (status, digest) := Verdict(job.f.hash, s, deadlineMs, reply, elapsedNs);
    DecidedWaits(job, s, deadlineMs, before, heard, reply, elapsedNs);
    forall at: nat
      ensures Reports(job, heard, s, job.Report(s, digest, ElapsedUs(elapsedNs), at, status))
    {
      assert Evidence(job, s, job.Report(s, digest, ElapsedUs(elapsedNs), at, status), heard[|heard| - 1].receipt);
    }
  }

  /** The writer never refuses a report on a request of the workload. */
  lemma ReportsAreValid(job: Job, heard: seq<Event>, s: RequestSpec, o: Observation, header: LogHeader)
    requires job.Valid() && job.Binds(header) && s in job.manifest.requests && Reports(job, heard, s, o)
    ensures ObservationValid(job.f.hash, o) && Bound(header, o)
  {
    var i', j' :| Wait(job, heard, s, i', j') && Evidence(job, s, o, heard[j'].receipt);
    var i :| 0 <= i < |job.manifest.requests| && job.manifest.requests[i] == s;
    assert !IsBlank(job.manifest.requests[i].requestId);
  }

  lemma ReportKeeps(job: Job, heard: seq<Event>, rs: seq<LogRecord>, o: Observation)
    requires LogInv(job, heard, rs) && AllSuccess(Listed(rs)) && |Listed(rs)| < |job.manifest.requests|
    requires Reports(job, heard, job.manifest.requests[|Listed(rs)|], o)
    requires OpenLog(job.f, rs + [ObservedRecord(job.f, o)])
    requires StateOf(job.f, rs + [ObservedRecord(job.f, o)]).header == StateOf(job.f, rs).header
    requires StateOf(job.f, rs + [ObservedRecord(job.f, o)]).observations == StateOf(job.f, rs).observations + [o]
    ensures LogInv(job, heard, rs + [ObservedRecord(job.f, o)])
    ensures Listed(rs + [ObservedRecord(job.f, o)]) == Listed(rs) + [o]
  {
    ListedGrows(rs, ObservedRecord(job.f, o));
    ProgressGrows(job, heard, Listed(rs), o);
  }

  /** Stores the report on the next request. */
  method Store(job: Job, world: World, w: LogWriter, s: RequestSpec, o: Observation) returns (alive: bool)
    requires Running(job, world.heard, w) && AllSuccess(Listed(w.records))
    requires |Listed(w.records)| < |job.manifest.requests| && s == job.manifest.requests[|Listed(w.records)|]
    requires Reports(job, world.heard, s, o)
    modifies world`asked, w, w.file
    ensures alive ==> Running(job, world.heard, w) && Listed(w.records) == old(Listed(w.records)) + [o]
    ensures Quiet(world.script) ==> alive
    ensures !alive ==> w.file.present && Unsealed(job, world.heard, w.file.bytes, old(Listed(w.records)))
  {
    ghost var rs, record := w.records, ObservedRecord(job.f, o);
    ReportsAreValid(job, world.heard, s, o, w.header);
    KnownIffBefore(job, world.heard, w, |Listed(rs)|);
    var crash := world.CrashPoint();
    assert o.observationId !in w.seen;
    assert ObservationValid(w.f.hash, o) && Bound(w.header, o);
    var stored := w.AppendObservation(o, crash);
    match stored {
      case Ok(Appended) =>
        ReportKeeps(job, world.heard, rs, o);
        return true;
      case Err(Crashed) =>
        ReportKeeps(job, world.heard, rs, o);
        TornUnsealed(job, world.heard, w.file.bytes, rs, record);
        return false;
      case Ok(Idempotent) => assert false;
      case Err(Refused(_)) => assert false;
    }
  }

  datatype Issue = Recorded(status: VerifiedStatus) | OverBudget(reason: string) | Stopped

  function Deadline(exec: ExecutorConfig, s: RequestSpec): (d: nat)
    ensures d <= s.deadlineMs
  {
    match exec.deadlineCapMs
    case Some(cap) => if s.deadlineMs <= cap then s.deadlineMs else cap
    case None => s.deadlineMs
  }

  /** Asks and judges the reply: status, digest of the output, elapsed microseconds. */
  method AskForVerdict(job: Job, exec: ExecutorConfig, world: World, w: LogWriter, s: RequestSpec,
                       issued: set<string>, answered: set<string>, summary: Summary)
    returns (r: Option<(VerifiedStatus, Option<string>, nat)>, t: Summary)
    requires Running(job, world.heard, w)
    modifies world, w, w.file
    ensures world.sent == old(world.sent) + [s.requestId] && old(world.heard) <= world.heard
    ensures r.Some? ==> Running(job, world.heard, w) && Listed(w.records) == old(Listed(w.records))
    ensures r.Some? ==> t == summary.(rejections := t.rejections)
    ensures r.Some? ==> Justified(job, world.heard, s, r.value.0, r.value.1, r.value.2)
    ensures r.Some? ==> CutOff(job, old(world.heard), world.heard, r.value.0 == VerifiedSuccess)
    ensures Serves(job, world, s) ==> r.Some? && r.value.0 == VerifiedSuccess
    ensures r.None? ==> w.file.present && Unsealed(job, world.heard, w.file.bytes, old(Listed(w.records)))
  {
    hide Running, Unsealed, Listed;
    var deadlineMs := Deadline(exec, s);
    var answer;
    answer, t := Ask(job, world, w, s, deadlineMs, issued, answered, summary);
    if answer.None? {
      return None, t;
    }
    var (reply, elapsedNs) := answer.value;
    var (status, digest) := Verdict(job.f.hash, s, deadlineMs, reply, elapsedNs);
    DecidedJustifies(job, s, deadlineMs, old(world.heard), world.heard, reply, elapsedNs);
    return Some((status, digest, ElapsedUs(elapsedNs))), t;
  }

  /** How many of the observations have this status. */
  function CountOf(os: seq<Observation>, status: VerifiedStatus): nat {
    if os == [] then 0 else CountOf(os[..|os| - 1], status) + if os[|os| - 1].status == status then 1 else 0
  }

  lemma OneMoreOf(os: seq<Observation>, o: Observation, status: VerifiedStatus)
    ensures CountOf(os + [o], status) == CountOf(os, status) + if o.status == status then 1 else 0
  {
    assert (os + [o])[..|os|] == os;
  }

  /** `issued` more requests were sent, and the observations stored grew from `was` to `os`. */
  ghost predicate Tallied(s: Summary, t: Summary, issued: int, was: seq<Observation>, os: seq<Observation>) {
    && s.planned == t.planned && s.recovered == t.recovered && s.ready == t.ready && s.reverted == t.reverted
    && t.issued == s.issued + issued && t.Recorded() == s.Recorded() + |os| - |was|
    && forall status :: t.Of(status) == s.Of(status) + CountOf(os, status) - CountOf(was, status)
  }

  lemma StoredIsTallied(s: Summary, os: seq<Observation>, o: Observation)
    ensures Tallied(s, s.Count(o.status), 0, os, os + [o])
  {
    forall status ensures CountOf(os + [o], status) == CountOf(os, status) + if o.status == status then 1 else 0 {
      OneMoreOf(os, o, status);
    }
  }

  ghost predicate GrewBy(was: seq<Observation>, os: seq<Observation>, k: int) {
    was <= os && |os| == |was| + k
  }

  /** None when the worker is within its budget, otherwise why not. */
  method OverMemory(world: World, requestId: string) returns (reason: Option<string>)
    modifies world`asked
    ensures reason.None? <==> world.script.withinBudget(old(world.asked), requestId) == Some(true)
  {
    var budget := world.WithinMemoryBudget(requestId);
    return match budget
           case Some(true) => None
           case Some(false) => Some("resource budget exceeded")
           case None => Some("resource budget unreadable, reverting");
  }

  /** A success is stored if the worker was within its memory limit, and only then. */
  ghost predicate Budgeted(script: Script, s: RequestSpec, r: Issue) {
    && (AlwaysWithin(script, s) ==> r == Recorded(VerifiedSuccess))
    && (NeverWithin(script, s) ==> r.OverBudget?)
  }

  /** Stores the verdict, unless a success was reached over budget. */
  method Conclude(job: Job, world: World, w: LogWriter, s: RequestSpec, status: VerifiedStatus, digest: Option<string>,
                  elapsedUs: nat, summary: Summary) returns (r: Issue, t: Summary)
    requires Running(job, world.heard, w) && AllSuccess(Listed(w.records))
    requires |Listed(w.records)| < |job.manifest.requests| && s == job.manifest.requests[|Listed(w.records)|]
    requires Justified(job, world.heard, s, status, digest, elapsedUs)
    modifies world`asked, w, w.file
    ensures r.Stopped? ==> w.file.present && Unsealed(job, world.heard, w.file.bytes, old(Listed(w.records)))
    ensures !r.Stopped? ==> Running(job, world.heard, w)
    ensures r.OverBudget? ==> Listed(w.records) == old(Listed(w.records)) && Tallied(summary, t, 0, [], [])
    ensures r.Recorded? ==> GrewBy(old(Listed(w.records)), Listed(w.records), 1) && Tallied(summary, t, 0, old(Listed(w.records)), Listed(w.records))
    ensures r.Recorded? ==> Listed(w.records)[|Listed(w.records)| - 1].status == r.status
    ensures Quiet(world.script) && status == VerifiedSuccess ==> Budgeted(world.script, s, r)
    ensures r.Recorded? ==> r.status == status
  {
    hide Running, Unsealed, Listed;
    var alive;
    if status == VerifiedSuccess {
      var over := OverMemory(world, s.requestId);
      if over.Some? {
        alive, t := RecordRejection(job, world, w, over.value, summary);
        return if alive then OverBudget(over.value) else Stopped, t;
      }
    }
    var now := world.Now();
    alive := Store(job, world, w, s, job.Report(s, digest, elapsedUs, now, status));
    StoredIsTallied(summary, old(Listed(w.records)), job.Report(s, digest, elapsedUs, now, status));
    return if alive then Recorded(status) else Stopped, summary.Count(status);
  }

  /** One request from sending to the stored verdict. */
  method IssueOne(job: Job, exec: ExecutorConfig, world: World, w: LogWriter, s: RequestSpec,
                  issued: set<string>, answered: set<string>, summary: Summary) returns (r: Issue, t: Summary)
    requires Running(job, world.heard, w) && AllSuccess(Listed(w.records))
    requires |Listed(w.records)| < |job.manifest.requests| && s == job.manifest.requests[|Listed(w.records)|]
    modifies world, w, w.file
    ensures world.sent == old(world.sent) + [s.requestId] && old(world.heard) <= world.heard
    ensures r.Stopped? ==> w.file.present && Unsealed(job, world.heard, w.file.bytes, old(Listed(w.records)))
    ensures !r.Stopped? ==> Running(job, world.heard, w)
    ensures r.OverBudget? ==> Listed(w.records) == old(Listed(w.records)) && Tallied(summary, t, 1, [], [])
    ensures r.Recorded? ==> GrewBy(old(Listed(w.records)), Listed(w.records), 1) && Tallied(summary, t, 1, old(Listed(w.records)), Listed(w.records))
    ensures r.Recorded? ==> Listed(w.records)[|Listed(w.records)| - 1].status == r.status
    ensures !r.Stopped? ==> CutOff(job, old(world.heard), world.heard, r == Recorded(VerifiedSuccess))
    ensures Serves(job, world, s) ==> Budgeted(world.script, s, r)
  {
    hide Running, Unsealed, Listed;
    var verdict;
    verdict, t := AskForVerdict(job, exec, world, w, s, issued, answered, summary.(issued := summary.issued + 1));
    if verdict.None? {
      return Stopped, t;
    }
    var (status, digest, elapsedUs) := verdict.value;
    r, t := Conclude(job, world, w, s, status, digest, elapsedUs, t);
  }

  datatype Phase = Finished(revert: bool) | HaltedEarly | Stopped_

  lemma UnsealedKeepsLess(job: Job, heard: seq<Event>, bytes: string, kept: seq<Observation>, fewer: seq<Observation>)
    requires Unsealed(job, heard, bytes, kept) && fewer <= kept
    ensures Unsealed(job, heard, bytes, fewer)
  {
    var rs, tail :| bytes == Encode(job.f, rs) + tail && NewlineFree(tail) && LogInv(job, heard, rs) && kept <= Listed(rs);
    assert fewer <= Listed(rs);
  }

  /** Since `before`, the first `n` requests of `todo` were sent, in order, and nothing else. */
  ghost predicate SentInOrder(todo: seq<RequestSpec>, n: int, before: seq<string>, sent: seq<string>) {
    && 0 <= n <= |todo| && |sent| == |before| + n && before <= sent
    && forall j :: 0 <= j < n ==> sent[|before| + j] == todo[j].requestId
  }

  lemma SendNext(todo: seq<RequestSpec>, n: nat, before: seq<string>, sent: seq<string>, later: seq<string>)
    requires SentInOrder(todo, n, before, sent) && n < |todo| && later == sent + [todo[n].requestId]
    ensures SentInOrder(todo, n + 1, before, later)
  {
  }

  lemma AllSuccessGrows(was: seq<Observation>, os: seq<Observation>)
    requires AllSuccess(was) && GrewBy(was, os, 1) && os[|os| - 1].status == VerifiedSuccess
    ensures AllSuccess(os)
  {
  }

  /** Drains the strays and issues the request. */
  method DrainAndIssue(job: Job, exec: ExecutorConfig, world: World, w: LogWriter, s: RequestSpec,
                       issued: set<string>, answered: set<string>, summary: Summary) returns (r: Issue, t: Summary)
    requires Running(job, world.heard, w) && AllSuccess(Listed(w.records))
    requires |Listed(w.records)| < |job.manifest.requests| && s == job.manifest.requests[|Listed(w.records)|]
    modifies world, w, w.file
    ensures old(world.heard) <= world.heard
    ensures world.sent == old(world.sent) + [s.requestId] || (r.Stopped? && world.sent == old(world.sent))
    ensures r.Stopped? ==> w.file.present && Unsealed(job, world.heard, w.file.bytes, old(Listed(w.records)))
    ensures !r.Stopped? ==> Running(job, world.heard, w)
    ensures r.OverBudget? ==> Listed(w.records) == old(Listed(w.records)) && Tallied(summary, t, 1, [], [])
    ensures r.Recorded? ==> GrewBy(old(Listed(w.records)), Listed(w.records), 1) && Tallied(summary, t, 1, old(Listed(w.records)), Listed(w.records))
    ensures r.Recorded? ==> Listed(w.records)[|Listed(w.records)| - 1].status == r.status
    ensures Serves(job, world, s) ==> Budgeted(world.script, s, r)
  {
    hide Running, Unsealed, Listed;
    var alive;
    alive, t := DrainStrays(job, world, w, summary);
    if !alive {
      return Stopped, t;
    }
    r, t := IssueOne(job, exec, world, w, s, issued, answered, t);
  }

  /** The requests still to be issued when `m` are stored. */
  ghost predicate Outstanding(job: Job, m: nat, todo: seq<RequestSpec>) {
    m + |todo| <= |job.manifest.requests| && job.manifest.requests[m..m + |todo|] == todo
  }

  lemma NextOutstanding(job: Job, m: nat, todo: seq<RequestSpec>, i: nat)
    requires Outstanding(job, m, todo) && i < |todo|
    ensures m + i < |job.manifest.requests| && todo[i] == job.manifest.requests[m + i]
  {
  }

  /** Round `i` of the loop, with the books kept since the loop began. */
  method NextRound(job: Job, exec: ExecutorConfig, world: World, w: LogWriter, todo: seq<RequestSpec>, i: nat,
                   issued: set<string>, answered: set<string>, summary: Summary,
                   ghost was: seq<Observation>, ghost before: seq<string>, ghost start: Summary)
    returns (r: Issue, t: Summary)
    requires Running(job, world.heard, w) && AllSuccess(Listed(w.records))
    requires i < |todo| && Outstanding(job, |was|, todo) && GrewBy(was, Listed(w.records), i)
    requires SentInOrder(todo, i, before, world.sent) && Tallied(start, summary, i, was, Listed(w.records))
    modifies world, w, w.file
    ensures old(world.heard) <= world.heard && SentInOrder(todo, |world.sent| - |before|, before, world.sent)
    ensures r.Stopped? ==> w.file.present && Unsealed(job, world.heard, w.file.bytes, was)
    ensures !r.Stopped? ==> Running(job, world.heard, w) && |world.sent| == |before| + i + 1
    ensures r.OverBudget? ==> GrewBy(was, Listed(w.records), i) && Tallied(start, t, i + 1, was, Listed(w.records))
    ensures r.Recorded? ==> GrewBy(was, Listed(w.records), i + 1) && Tallied(start, t, i + 1, was, Listed(w.records))
    ensures r == Recorded(VerifiedSuccess) || r.OverBudget? ==> AllSuccess(Listed(w.records))
    ensures Serves(job, world, todo[i]) ==> Budgeted(world.script, todo[i], r)
  {
    hide Running, Unsealed, Listed;
    ghost var stored, sent := Listed(w.records), world.sent;
    NextOutstanding(job, |was|, todo, i);
    r, t := DrainAndIssue(job, exec, world, w, todo[i], issued, answered, summary);
    if world.sent != sent {
      SendNext(todo, i, before, sent, world.sent);
    }
    if r.Stopped? {
      UnsealedKeepsLess(job, world.heard, w.file.bytes, stored, was);
    } else if r == Recorded(VerifiedSuccess) {
      AllSuccessGrows(stored, Listed(w.records));
    }
  }

  lemma ServedAtMost(job: Job, world: World, todo: seq<RequestSpec>)
    ensures forall k: nat :: ServesUpTo(job, world, todo, k) ==> k <= |todo|
  {
  }

  lemma RoundServed(job: Job, world: World, todo: seq<RequestSpec>, i: nat, r: Issue)
    requires i < |todo| && (Serves(job, world, todo[i]) ==> Budgeted(world.script, todo[i], r))
    ensures forall k: nat :: ServesUpTo(job, world, todo, k) && i <= k ==>
      (i < k ==> r == Recorded(VerifiedSuccess)) && (i == k ==> r.OverBudget?)
  {
    hide Serves, AlwaysWithin, NeverWithin, Quiet, Greets;
  }

  /** The loop over the outstanding requests. */
  method RunRequests(job: Job, exec: ExecutorConfig, world: World, w: LogWriter, todo: seq<RequestSpec>, summary: Summary)
    returns (r: Phase, t: Summary)
    requires Running(job, world.heard, w) && AllSuccess(Listed(w.records)) && Outstanding(job, |Listed(w.records)|, todo)
    modifies world, w, w.file
    ensures old(world.heard) <= world.heard && SentInOrder(todo, |world.sent| - |old(world.sent)|, old(world.sent), world.sent)
    ensures r.Stopped_? ==> w.file.present && Unsealed(job, world.heard, w.file.bytes, old(Listed(w.records)))
    ensures !r.Stopped_? ==> Running(job, world.heard, w)
    ensures !r.Stopped_? ==> old(Listed(w.records)) <= Listed(w.records)
    ensures !r.Stopped_? ==> Tallied(summary, t, |world.sent| - |old(world.sent)|, old(Listed(w.records)), Listed(w.records))
    ensures r == Finished(false) ==> AllSuccess(Listed(w.records)) && |Listed(w.records)| == |old(Listed(w.records))| + |todo|
    ensures r == Finished(true) ==> |world.sent| > |old(world.sent)| && t.firstFailure == Some(world.sent[|world.sent| - 1])
    ensures forall k: nat :: ServesUpTo(job, world, todo, k) && exec.haltAfterRequests.None? ==>
      r == Finished(k < |todo|) && AllSuccess(Listed(w.records)) && |Listed(w.records)| == |old(Listed(w.records))| + k
    ensures r.HaltedEarly? ==> AllSuccess(Listed(w.records)) && exec.haltAfterRequests == Some(|Listed(w.records)| - |old(Listed(w.records))|)
  {
    hide Running, Unsealed, Listed, ServesUpTo;
    t := summary;
    ghost var was, before := Listed(w.records), world.sent;
    ServedAtMost(job, world, todo);
    var issued, answered: set<string> := {}, {};
    var revert := false;
    for i := 0 to |todo|
      invariant Running(job, world.heard, w) && AllSuccess(Listed(w.records)) && !revert
      invariant GrewBy(was, Listed(w.records), i) && Tallied(summary, t, i, was, Listed(w.records))
      invariant old(world.heard) <= world.heard && SentInOrder(todo, i, before, world.sent)
      invariant forall k: nat :: ServesUpTo(job, world, todo, k) ==> i <= k
    {
      var requestId := todo[i].requestId;
      issued := issued + {requestId};
      var issue;
      issue, t := NextRound(job, exec, world, w, todo, i, issued, answered, t, was, before, summary);
      RoundServed(job, world, todo, i, issue);
      if issue.Stopped? {
        return Stopped_, t;
      }
      if issue.OverBudget? || issue.status != VerifiedSuccess {
        t := t.(firstFailure := Some(requestId));
        revert := true;
        break;
      }
      answered := answered + {requestId};
      if exec.haltAfterRequests == Some(i + 1) {
        return HaltedEarly, t;
      }
    }
    return Finished(revert), t;
  }

  lemma SliceGrows(s: seq<RequestSpec>, m: nat, i: nat)
    requires m <= i < |s|
    ensures s[m..i + 1] == s[m..i] + [s[i]]
  {
  }

  /** The requests whose observation is not stored yet. */
  method FindOutstanding(job: Job, world: World, w: LogWriter, planned: seq<RequestSpec>) returns (todo: seq<RequestSpec>)
    requires Running(job, world.heard, w) && planned <= job.manifest.requests
    ensures todo == planned[Least(|Listed(w.records)|, |planned|)..]
  {
    hide Running, Listed;
    todo := [];
    ghost var m := Least(|Listed(w.records)|, |planned|);
    for i := 0 to |planned|
      invariant todo == if i <= m then [] else planned[m..i]
    {
      KnownIffBefore(job, world.heard, w, i);
      if !w.Contains(job.Id(planned[i])) {
        SliceGrows(planned, m, i);
        todo := todo + [planned[i]];
      }
    }
  }

  function Least(m: nat, n: nat): nat {
    if m <= n then m else n
  }

  /** The first requests of the workload, up to the limit. */
  function Planned(job: Job, exec: ExecutorConfig): (r: seq<RequestSpec>)
    ensures r <= job.manifest.requests
  {
    match exec.requestLimit
    case Some(n) => job.manifest.requests[..Least(n, |job.manifest.requests|)]
    case None => job.manifest.requests
  }

  /** Waits for an authenticated connection of the right version and generation. */
  method AwaitReady(job: Job, world: World, w: LogWriter, summary: Summary) returns (alive: bool, t: Summary)
    requires Running(job, world.heard, w)
    modifies world`asked, world`left, w, w.file
    ensures alive ==> Running(job, world.heard, w) && Listed(w.records) == old(Listed(w.records)) && w.seen == old(w.seen)
    ensures alive ==> t == summary.(rejections := t.rejections, ready := t.ready, firstFailure := t.firstFailure)
    ensures alive && !t.ready ==> t.firstFailure.Some?
    ensures Quiet(world.script) && Greets(world.script) && old(world.left) > 0 ==> alive && t.ready
    ensures !alive ==> w.file.present && Unsealed(job, world.heard, w.file.bytes, old(Listed(w.records)))
  {
    hide Running, Unsealed, Listed;
    t := summary.(ready := false);
    while true
      invariant Running(job, world.heard, w) && Listed(w.records) == old(Listed(w.records)) && w.seen == old(w.seen)
      invariant t == summary.(rejections := t.rejections, ready := false)
      invariant Greets(world.script) ==> world.left == old(world.left)
      decreases world.left
    {
      var event := world.AwaitReadiness();
      match event {
        case Authenticated => return true, t.(ready := true);
        case DeadlineReached => return true, t.(firstFailure := Some("no authenticated versioned readiness"));
        case WorkerExited => return true, t.(firstFailure := Some("worker exited before it became ready"));
        case Rejection(reason) =>
          alive, t := RecordRejection(job, world, w, reason, t);
          if !alive {
            return false, t;
          }
        case Idle =>
      }
    }
  }

  lemma SealCloses(job: Job, heard: seq<Event>, rs: seq<LogRecord>, sealedAt: nat)
    requires LogInv(job, heard, rs)
    ensures var seal := SealFor(job.f, StateOf(job.f, rs), Encode(job.f, rs), sealedAt);
      Closed(job, heard, Encode(job.f, rs + [Sealing(seal)]), Listed(rs))
  {
    assert ClosedBy(job, heard, Encode(job.f, rs + [Sealing(SealFor(job.f, StateOf(job.f, rs), Encode(job.f, rs), sealedAt))]), Listed(rs), rs,
                    SealFor(job.f, StateOf(job.f, rs), Encode(job.f, rs), sealedAt));
  }

  /** Marks an early revert and seals the log. */
  method Finish(job: Job, world: World, generation: Generation, w: LogWriter, summary: Summary, revert: bool)
    returns (r: Result<Outcome, Failure>)
    requires Running(job, world.heard, w)
    modifies world`asked, generation, w, w.file
    ensures Quiet(world.script) ==> r.Ok?
    ensures w.file.present && (r.Err? ==> r.error == Crashed)
    ensures generation.state == if revert then Reverting else old(generation.state)
    ensures r.Err? ==> Unsealed(job, world.heard, w.file.bytes, old(Listed(w.records))) || Closed(job, world.heard, w.file.bytes, old(Listed(w.records)))
    ensures r.Ok? ==> Closed(job, world.heard, w.file.bytes, old(Listed(w.records))) && r.value.Sealed?
    ensures r.Ok? ==> Verify(job.f, w.file.bytes) == Some(r.value.log) && r.value.log.observations == old(Listed(w.records))
    ensures r.Ok? ==> r.value.summary == summary.(reverted := revert || summary.reverted)
  {
    hide IdentityValid, WorkloadValid, DistinctIds, Unsealed, Closed, NewlineFree;
    var t := summary;
    if revert {
      generation.state := Reverting;
      t := t.(reverted := true);
    }
    ghost var rs := w.records;
    var now := world.Now();
    var crash := world.CrashPoint();
    SealCloses(job, world.heard, rs, now);
    var sealed := w.Seal(now, crash);
    if sealed.Err? {
      TornSeal(job, world.heard, w.file.bytes, rs, SealFor(job.f, StateOf(job.f, rs), Encode(job.f, rs), now));
      return Err(sealed.error);
    }
    return Ok(Sealed(sealed.value, t));
  }

  lemma {:induction false} HeaderIsKept(f: Formats, p: Parsed, at: nat, rs: seq<LogRecord>)
    requires ReplayFrom(f, p, false, at, rs).Some?
    ensures ReplayFrom(f, p, false, at, rs).value.header == p.header
    decreases |rs|
  {
    if rs != [] {
      var q := Step(f, p, rs[0], false, at).value;
      assert q.header == p.header;
      HeaderIsKept(f, q, at + |Line(f, rs[0])|, rs[1..]);
    }
  }

  /** A log with a header starts with it. */
  lemma StartsWithHeader(f: Formats, rs: seq<LogRecord>)
    requires Replay(f, rs).Some? && Replay(f, rs).value.header.Some?
    ensures rs != [] && rs[0] == Header(Replay(f, rs).value.header.value) && HeaderValid(Replay(f, rs).value.header.value)
  {
    HeaderIsKept(f, Step(f, NOTHING, rs[0], true, 0).value, |Line(f, rs[0])|, rs[1..]);
  }

  lemma OneLine(f: Formats, r: LogRecord)
    ensures Encode(f, [r]) == Line(f, r)
  {
    assert Encode(f, [r]) == Line(f, r) + Encode(f, []);
  }

  lemma TornHeader(job: Job, heard: seq<Event>, header: LogHeader, crash: Option<nat>)
    requires Lawful(job.f) && HeaderValid(header) && job.Binds(header)
    ensures LogInv(job, heard, [Header(header)]) && Listed([Header(header)]) == []
    ensures var bytes := Reached(Line(job.f, Header(header)), crash);
      NewlineFree(bytes) || Unsealed(job, heard, bytes, [])
  {
    var r := Header(header);
    HeaderReplays(job.f, header);
    assert Listed([r]) == [] by { ListedGrows([], r); assert [] + [r] == [r]; }
    var bytes := Reached(Line(job.f, r), crash);
    assert PrintsBack(job.f, r);
    if crash.None? || crash.value >= |Line(job.f, r)| {
      OneLine(job.f, r);
      assert bytes == Encode(job.f, [r]) + "" && NewlineFree("") && LogInv(job, heard, [r]);
    } else {
      assert bytes == job.f.print_(r)[..crash.value];
    }
  }

  /** What a restart finds in an unsealed log. */
  lemma UnsealedFacts(job: Job, heard: seq<Event>, bytes: string, kept: seq<Observation>) returns (rs: seq<LogRecord>)
    requires Lawful(job.f) && Unsealed(job, heard, bytes, kept)
    ensures LogInv(job, heard, rs) && kept <= Listed(rs) && Stored(job.f, bytes) == Listed(rs)
    ensures ReadRecords(job.f, bytes) == Some(rs) && rs != [] && rs[0].Header?
    ensures job.Binds(rs[0].header) && HeaderValid(rs[0].header) && Reopenable(job.f, bytes, rs[0].header)
  {
    var tail;
    rs, tail :| bytes == Encode(job.f, rs) + tail && NewlineFree(tail) && LogInv(job, heard, rs) && kept <= Listed(rs);
    StoredUnsealed(job, heard, bytes, rs, tail);
    ReadEncoded(job.f, rs, tail);
    StartsWithHeader(job.f, rs);
  }

  /** A log that was reopened is one that an earlier run left unsealed. */
  lemma ReopenedFacts(job: Job, heard: seq<Event>, bytes: string, rs: seq<LogRecord>, tail: string)
    requires Lawful(job.f) && FileInv(job, heard, true, bytes)
    requires bytes == Encode(job.f, rs) + tail && NewlineFree(tail) && OpenLog(job.f, rs)
    ensures LogInv(job, heard, rs) && Stored(job.f, bytes) == Listed(rs)
    ensures !NewlineFree(bytes) && !Closed(job, heard, bytes, []) && Unsealed(job, heard, bytes, [])
  {
    ScanEncoded(job.f, NOTHING, true, 0, rs, tail);
    if NewlineFree(bytes) {
      StoredTornHeader(job.f, bytes);
      assert false;
    }
    if Closed(job, heard, bytes, []) {
      var qs, seal :| ClosedBy(job, heard, bytes, [], qs, seal);
      StoredClosed(job, heard, bytes, [], qs, seal);
      assert false;
    }
    ReadEncoded(job.f, rs, tail);
    var qs := UnsealedFacts(job, heard, bytes, []);
  }

  /** Starts a new log. A crash during its first line leaves a torn header or an empty log. */
  method CreateFor(job: Job, world: World, file: LogFile) returns (r: Result<LogWriter, Failure>)
    requires job.Valid() && !file.present && file.bytes == ""
    modifies world`asked, file
    ensures Quiet(world.script) ==> r.Ok?
    ensures file.present
    ensures r.Ok? ==> fresh(r.value) && r.value.file == file && Running(job, world.heard, r.value) && Listed(r.value.records) == []
    ensures r.Err? ==> r.error == Crashed && (NewlineFree(file.bytes) || Unsealed(job, world.heard, file.bytes, []))
  {
    var now := world.Now();
    var crash := world.CrashPoint();
    var wanted := LogHeader(OBSERVATION_LOG_VERSION, job.identity.generationId, job.WorkloadPin(), job.identity.executableDigest, now);
    TornHeader(job, world.heard, wanted, crash);
    r := CreateLog(job.f, file, wanted, crash);
  }

  /** Reopens the log of an earlier run. */
  method Restart(job: Job, world: World, file: LogFile) returns (r: Result<LogWriter, Failure>)
    requires job.Valid() && file.present && FileInv(job, world.heard, true, file.bytes)
    modifies file
    ensures file.present
    ensures r.Ok? ==> fresh(r.value) && r.value.file == file && Running(job, world.heard, r.value)
    ensures r.Ok? ==> Listed(r.value.records) == Stored(job.f, old(file.bytes))
    ensures r.Err? ==> r.error.Refused? && file.bytes == old(file.bytes)
    ensures r.Ok? <==> Unsealed(job, world.heard, old(file.bytes), [])
    ensures NewlineFree(old(file.bytes)) || Closed(job, world.heard, old(file.bytes), []) ==> r.Err?
  {
    hide IdentityValid, WorkloadValid, DistinctIds, LogInv, Listed, Stored, FileInv, Closed, Unsealed, NewlineFree;
    ghost var bytes, rs := file.bytes, [];
    if Unsealed(job, world.heard, bytes, []) {
      rs := UnsealedFacts(job, world.heard, bytes, []);
    }
    var stored := StoredRecords(job.f, file.bytes);
    if stored.None? || stored.value == [] || !stored.value[0].Header? {
      return Err(Refused("observation log has no header; refusing"));
    }
    var existing := stored.value[0].header;
    if !job.Binds(existing) {
      return Err(Refused("observation log is bound to another generation, workload or executable; refusing"));
    }
    r := ReopenLog(job.f, file, existing);
    if r.Ok? {
      ghost var tail :| bytes == Encode(job.f, r.value.records) + tail && NewlineFree(tail);
      ReopenedFacts(job, world.heard, bytes, r.value.records, tail);
    }
  }

  lemma AllSuccessAppend(os: seq<Observation>, o: Observation)
    ensures AllSuccess(os + [o]) <==> AllSuccess(os) && o.status == VerifiedSuccess
  {
    assert (os + [o])[|os|] == o;
    assert forall k :: 0 <= k < |os| ==> (os + [o])[k] == os[k];
  }

  lemma ListedUpTo(rs: seq<LogRecord>, i: nat)
    requires i < |rs|
    ensures Listed(rs[..i + 1]) == if rs[i].Observed? then Listed(rs[..i]) + [rs[i].observation] else Listed(rs[..i])
  {
    assert rs[..i + 1] == rs[..i] + [rs[i]];
    ListedGrows(rs[..i], rs[i]);
  }

  /** How many observations an earlier run stored, and the first failure among them. */
  method PriorRecords(records: seq<LogRecord>) returns (recovered: nat, failure: Option<string>)
    ensures recovered == |Listed(records)|
    ensures failure.None? <==> AllSuccess(Listed(records))
  {
    recovered, failure := 0, None;
    for i := 0 to |records|
      invariant recovered == |Listed(records[..i])|
      invariant failure.None? <==> AllSuccess(Listed(records[..i]))
    {
      ListedUpTo(records, i);
      if records[i].Observed? {
        var o := records[i].observation;
        AllSuccessAppend(Listed(records[..i]), o);
        recovered := recovered + 1;
        if o.status != VerifiedSuccess && failure.None? {
          failure := Some(o.requestId + ": recorded before a restart");
        }
      }
    }
    assert records[..|records|] == records;
  }

  /** What the summary of a run says about the log: every stored observation is accounted for, under
      its own status. */
  ghost predicate Accounted(summary: Summary, was: seq<Observation>, sent: int, os: seq<Observation>) {
    && summary.recovered == |was| && summary.recovered + summary.Recorded() == |os|
    && summary.issued == sent && was <= os
    && forall status :: summary.Of(status) == CountOf(os, status) - CountOf(was, status)
  }

  /** How a run can end that started with `was` stored and `n` requests outstanding, and sent `sent`
      of them: nothing stored is ever lost, a sealed log verifies and holds exactly what is stored,
      without a revert every outstanding request succeeded, and a halted log stays open. Requests go
      only to a ready worker, and the generation is then active until it is reverted. */
  ghost predicate Ended(job: Job, exec: ExecutorConfig, heard: seq<Event>, bytes: string, state: GenerationState,
                        was: seq<Observation>, n: nat, sent: int, r: Result<Outcome, Failure>)
  {
    match r
    case Err(e) =>
      (Unsealed(job, heard, bytes, was) || Closed(job, heard, bytes, was)) && (e.Refused? ==> sent == 0)
    case Ok(Sealed(log, summary)) =>
      && Closed(job, heard, bytes, was) && Verify(job.f, bytes) == Some(log) && log.observations == Stored(job.f, bytes)
      && Accounted(summary, was, sent, log.observations)
      && (summary.reverted ==> state == Reverting && summary.firstFailure.Some?)
      && (!summary.reverted ==> AllSuccess(log.observations) && |log.observations| == |was| + n)
      && (sent > 0 || !summary.reverted ==> summary.ready) && (!summary.reverted && n > 0 ==> state == CanaryActive)
    case Ok(Halted(summary)) =>
      && Unsealed(job, heard, bytes, was) && Accounted(summary, was, sent, Stored(job.f, bytes))
      && AllSuccess(Stored(job.f, bytes)) && exec.haltAfterRequests == Some(summary.Recorded())
      && summary.ready && state == CanaryActive
  }

  lemma ClosedKeepsLess(job: Job, heard: seq<Event>, bytes: string, kept: seq<Observation>, fewer: seq<Observation>)
    requires Closed(job, heard, bytes, kept) && fewer <= kept
    ensures Closed(job, heard, bytes, fewer)
  {
    var rs, seal :| ClosedBy(job, heard, bytes, kept, rs, seal);
    assert ClosedBy(job, heard, bytes, fewer, rs, seal);
  }

  lemma ClosedStores(job: Job, heard: seq<Event>, bytes: string, kept: seq<Observation>)
    requires Lawful(job.f) && Closed(job, heard, bytes, kept)
    ensures Verify(job.f, bytes).Some? && Verify(job.f, bytes).value.observations == Stored(job.f, bytes)
  {
    var rs, seal :| ClosedBy(job, heard, bytes, kept, rs, seal);
    StoredClosed(job, heard, bytes, kept, rs, seal);
  }

  lemma AccountedReverted(summary: Summary, was: seq<Observation>, sent: int, os: seq<Observation>, reverted: bool)
    requires Accounted(summary, was, sent, os)
    ensures Accounted(summary.(reverted := reverted), was, sent, os) && was <= os
  {
  }

  /** Seals, and states how the run ended. */
  method EndRun(job: Job, exec: ExecutorConfig, world: World, generation: Generation, w: LogWriter, summary: Summary, revert: bool,
                ghost was: seq<Observation>, ghost n: nat, ghost sent: nat)
    returns (r: Result<Outcome, Failure>)
    requires Running(job, world.heard, w) && Accounted(summary, was, sent, Listed(w.records)) && !summary.reverted
    requires revert ==> summary.firstFailure.Some?
    requires !revert ==> AllSuccess(Listed(w.records)) && |Listed(w.records)| == |was| + n
    requires (sent > 0 || !revert ==> summary.ready) && (!revert && n > 0 ==> generation.state == CanaryActive)
    modifies world`asked, generation, w, w.file
    ensures Quiet(world.script) ==> r.Ok?
    ensures w.file.present && Ended(job, exec, world.heard, w.file.bytes, generation.state, was, n, sent, r)
    ensures r.Err? ==> r.error == Crashed
    ensures r.Ok? ==> r.value.Sealed? && r.value.summary.reverted == revert && r.value.log.observations == old(Listed(w.records))
    ensures generation.state == if revert then Reverting else old(generation.state)
  {
    ghost var os := Listed(w.records);
    assert Lawful(job.f);
    AccountedReverted(summary, was, sent, os, revert);
    hide Running, Unsealed, Closed, Listed, Ended, Stored, Accounted;
    r := Finish(job, world, generation, w, summary, revert);
    EndedBySeal(job, exec, world.heard, w.file.bytes, generation.state, was, n, sent, r, os, revert);
  }

  /** The end that sealing gives. */
  lemma EndedBySeal(job: Job, exec: ExecutorConfig, heard: seq<Event>, bytes: string, state: GenerationState, was: seq<Observation>,
                    n: nat, sent: nat, r: Result<Outcome, Failure>, os: seq<Observation>, revert: bool)
    requires Lawful(job.f) && was <= os && (r.Err? ==> r.error == Crashed)
    requires r.Err? ==> Unsealed(job, heard, bytes, os) || Closed(job, heard, bytes, os)
    requires r.Ok? ==> Closed(job, heard, bytes, os) && r.value.Sealed? && Verify(job.f, bytes) == Some(r.value.log) && r.value.log.observations == os
    requires r.Ok? ==> Accounted(r.value.summary, was, sent, os) && r.value.summary.reverted == revert
    requires r.Ok? && revert ==> state == Reverting && r.value.summary.firstFailure.Some?
    requires r.Ok? && !revert ==> AllSuccess(os) && |os| == |was| + n
    requires r.Ok? && (sent > 0 || !revert) ==> r.value.summary.ready
    requires r.Ok? && !revert && n > 0 ==> state == CanaryActive
    ensures Ended(job, exec, heard, bytes, state, was, n, sent, r)
  {
    hide Unsealed, Closed, Stored;
    if Closed(job, heard, bytes, os) {
      ClosedStores(job, heard, bytes, os);
      ClosedKeepsLess(job, heard, bytes, os, was);
    } else {
      UnsealedKeepsLess(job, heard, bytes, os, was);
    }
  }

  /** A crash is an end that keeps everything. */
  lemma CrashEnds(job: Job, exec: ExecutorConfig, heard: seq<Event>, bytes: string, state: GenerationState,
                  was: seq<Observation>, n: nat, sent: int, kept: seq<Observation>)
    requires Unsealed(job, heard, bytes, kept) && was <= kept
    ensures Ended(job, exec, heard, bytes, state, was, n, sent, Err(Crashed))
  {
    UnsealedKeepsLess(job, heard, bytes, kept, was);
  }

  lemma HaltEnds(job: Job, exec: ExecutorConfig, heard: seq<Event>, w: LogWriter, state: GenerationState,
                 was: seq<Observation>, n: nat, sent: int, t: Summary)
    requires Running(job, heard, w) && AllSuccess(Listed(w.records)) && Accounted(t, was, sent, Listed(w.records))
    requires exec.haltAfterRequests == Some(t.Recorded()) && t.ready && state == CanaryActive
    ensures w.file.present && Ended(job, exec, heard, w.file.bytes, state, was, n, sent, Ok(Halted(t)))
  {
    RunningUnsealed(job, heard, w);
    UnsealedKeepsLess(job, heard, w.file.bytes, Listed(w.records), was);
  }

  /** The run sealed k successes of n outstanding ones, and reverted exactly if some are missing. */
  ghost predicate Served(r: Result<Outcome, Failure>, was: seq<Observation>, n: nat, k: nat) {
    && r.Ok? && r.value.Sealed? && (r.value.summary.reverted <==> k < n)
    && AllSuccess(r.value.log.observations) && |r.value.log.observations| == |was| + k
  }

  /** The requests and the end of the run. */
  method IssueAndSeal(job: Job, exec: ExecutorConfig, world: World, generation: Generation, w: LogWriter, todo: seq<RequestSpec>, summary: Summary)
    returns (r: Result<Outcome, Failure>)
    requires Running(job, world.heard, w) && AllSuccess(Listed(w.records)) && Outstanding(job, |Listed(w.records)|, todo)
    requires Accounted(summary, Listed(w.records), 0, Listed(w.records)) && !summary.reverted
    requires summary.ready && generation.state == CanaryActive
    modifies world, generation, w, w.file
    ensures old(world.heard) <= world.heard && SentInOrder(todo, |world.sent| - |old(world.sent)|, old(world.sent), world.sent)
    ensures w.file.present
    ensures Ended(job, exec, world.heard, w.file.bytes, generation.state, old(Listed(w.records)), |todo|, |world.sent| - |old(world.sent)|, r)
    ensures r.Err? ==> r.error == Crashed
    ensures forall k: nat :: ServesUpTo(job, world, todo, k) && exec.haltAfterRequests.None? ==> Served(r, old(Listed(w.records)), |todo|, k)
  {
    hide Running, Unsealed, Closed, Listed, Ended;
    ghost var was, before := Listed(w.records), |world.sent|;
    var phase, t := RunRequests(job, exec, world, w, todo, summary);
    ghost var sent := |world.sent| - before;
    if phase.Stopped_? {
      CrashEnds(job, exec, world.heard, w.file.bytes, generation.state, was, |todo|, sent, was);
      return Err(Crashed);
    }
    if phase.HaltedEarly? {
      HaltEnds(job, exec, world.heard, w, generation.state, was, |todo|, sent, t);
      return Ok(Halted(t));
    }
    ghost var os := Listed(w.records);
    var alive;
    alive, t := DrainStrays(job, world, w, t);
    if !alive {
      CrashEnds(job, exec, world.heard, w.file.bytes, generation.state, was, |todo|, sent, os);
      return Err(Crashed);
    }
    r := EndRun(job, exec, world, generation, w, t, phase.revert, was, |todo|, sent);
  }

  lemma RefusedEnds(job: Job, exec: ExecutorConfig, heard: seq<Event>, bytes: string, state: GenerationState,
                    was: seq<Observation>, n: nat, reason: string)
    requires Unsealed(job, heard, bytes, was)
    ensures Ended(job, exec, heard, bytes, state, was, n, 0, Err(Refused(reason)))
  {
  }

  lemma ServedWorld(job: Job, world: World, todo: seq<RequestSpec>)
    ensures forall k: nat :: ServesUpTo(job, world, todo, k) ==> Quiet(world.script) && Greets(world.script) && world.patience > 0
  {
  }

  lemma AccountedReady(summary: Summary, t: Summary, was: seq<Observation>, sent: int, os: seq<Observation>)
    requires Accounted(summary, was, sent, os)
    requires t == summary.(rejections := t.rejections, ready := t.ready, firstFailure := t.firstFailure)
    ensures Accounted(t, was, sent, os)
  {
  }

  /** The launch, the readiness wait, the requests and the end of the run. */
  method LaunchAndIssue(job: Job, exec: ExecutorConfig, world: World, generation: Generation, w: LogWriter, todo: seq<RequestSpec>, summary: Summary)
    returns (r: Result<Outcome, Failure>)
    requires Running(job, world.heard, w) && AllSuccess(Listed(w.records)) && Outstanding(job, |Listed(w.records)|, todo)
    requires Accounted(summary, Listed(w.records), 0, Listed(w.records)) && !summary.reverted
    modifies world, generation, w, w.file
    ensures old(world.heard) <= world.heard && SentInOrder(todo, |world.sent| - |old(world.sent)|, old(world.sent), world.sent)
    ensures w.file.present
    ensures Ended(job, exec, world.heard, w.file.bytes, generation.state, old(Listed(w.records)), |todo|, |world.sent| - |old(world.sent)|, r)
    ensures forall k: nat :: ServesUpTo(job, world, todo, k) && exec.haltAfterRequests.None? ==> Served(r, old(Listed(w.records)), |todo|, k)
  {
    hide Running, Unsealed, Closed, Listed, Ended, Served, Accounted, ServesUpTo;
    ghost var was := Listed(w.records);
    RunningUnsealed(job, world.heard, w);
    ServedWorld(job, world, todo);
    var spawned := world.Launch();
    if !spawned {
      r := Err(Refused("failed to spawn the worker"));
      RefusedEnds(job, exec, world.heard, w.file.bytes, generation.state, was, |todo|, r.error.reason);
      return;
    }
    generation.state := Starting;
    var alive, t := AwaitReady(job, world, w, summary);
    if !alive {
      CrashEnds(job, exec, world.heard, w.file.bytes, generation.state, was, |todo|, 0, was);
      return Err(Crashed);
    }
    AccountedReady(summary, t, was, 0, was);
    if !t.ready {
      r := EndRun(job, exec, world, generation, w, t, true, was, |todo|, 0);
      return;
    }
    generation.state := CanaryActive;
    r := IssueAndSeal(job, exec, world, generation, w, todo, t);
  }

  lemma NothingRecorded(summary: Summary, was: seq<Observation>)
    requires summary.recovered == |was| && summary.issued == 0 && summary.Recorded() == 0
    ensures Accounted(summary, was, 0, was)
  {
  }

  lemma NothingSent(sent: seq<string>)
    ensures SentInOrder([], 0, sent, sent)
  {
  }

  /** The rest of a run without recorded failures: nothing is left, or the outstanding requests are
      issued. */
  method Resume(job: Job, exec: ExecutorConfig, world: World, generation: Generation, w: LogWriter, summary: Summary)
    returns (r: Result<Outcome, Failure>, ghost todo: seq<RequestSpec>)
    requires Running(job, world.heard, w) && AllSuccess(Listed(w.records))
    requires Accounted(summary, Listed(w.records), 0, Listed(w.records)) && !summary.reverted
    modifies world, generation, w, w.file
    ensures old(world.heard) <= world.heard && w.file.present
    ensures todo == Remaining(job, exec, |old(Listed(w.records))|)
    ensures SentInOrder(todo, |world.sent| - |old(world.sent)|, old(world.sent), world.sent)
    ensures Ended(job, exec, world.heard, w.file.bytes, generation.state, old(Listed(w.records)), |todo|, |world.sent| - |old(world.sent)|, r)
    ensures forall k: nat :: ServesUpTo(job, world, todo, k) && exec.haltAfterRequests.None? ==> Served(r, old(Listed(w.records)), |todo|, k)
  {
    hide Running, Unsealed, Closed, Listed, Ended, Accounted, ServesUpTo, SentInOrder, AllSuccess;
    ghost var was := Listed(w.records);
    ServedWorld(job, world, []);
    ServedAtMost(job, world, []);
    NothingSent(world.sent);
    var outstanding := FindOutstanding(job, world, w, Planned(job, exec));
    todo := outstanding;
    hide Planned, Remaining;
    if outstanding == [] {
      AccountedReady(summary, summary.(ready := true), was, 0, was);
      r := EndRun(job, exec, world, generation, w, summary.(ready := true), false, was, 0, 0);
      return;
    }
    hide Served;
    r := LaunchAndIssue(job, exec, world, generation, w, outstanding, summary);
  }

  /** A run on an open log: recorded failures end it at once, otherwise the outstanding requests are
      issued. */
  method RunOpened(job: Job, exec: ExecutorConfig, world: World, generation: Generation, w: LogWriter, ghost was: seq<Observation>)
    returns (r: Result<Outcome, Failure>, ghost todo: seq<RequestSpec>)
    requires Running(job, world.heard, w) && was == Listed(w.records)
    modifies world, generation, w, w.file
    ensures old(world.heard) <= world.heard && w.file.present
    ensures todo == if AllSuccess(was) then Remaining(job, exec, |was|) else []
    ensures SentInOrder(todo, |world.sent| - |old(world.sent)|, old(world.sent), world.sent)
    ensures Ended(job, exec, world.heard, w.file.bytes, generation.state, was, |todo|, |world.sent| - |old(world.sent)|, r)
    ensures !AllSuccess(was) && r.Ok? ==> r.value.Sealed? && r.value.summary.reverted
    ensures forall k: nat :: AllSuccess(was) && ServesUpTo(job, world, todo, k) && exec.haltAfterRequests.None? ==> Served(r, was, |todo|, k)
  {
    hide Running, Unsealed, Closed, Listed, Ended, Accounted, ServesUpTo, SentInOrder, Served, ReadRecords, Remaining, Planned, AllSuccess;
    var stored := StoredRecords(job.f, w.file.bytes);
    RunningReads(job, world.heard, w);
    var recovered, failure := PriorRecords(stored.value);
    var summary := Summary(|Planned(job, exec)|, recovered, 0, 0, 0, 0, 0, 0, 0, false, failure, false);
    NothingRecorded(summary, was);
    NothingSent(world.sent);
    if failure.Some? {
      todo := [];
      r := EndRun(job, exec, world, generation, w, summary, true, was, 0, 0);
      return;
    }
    r, todo := Resume(job, exec, world, generation, w, summary);
  }

  lemma RunningReads(job: Job, heard: seq<Event>, w: LogWriter)
    requires Running(job, heard, w)
    ensures ReadRecords(job.f, w.file.bytes) == Some(w.records)
  {
    assert w.file.bytes == Encode(job.f, w.records) + "";
    ReadEncoded(job.f, w.records, "");
  }

  /** What is left of the plan when m observations are stored. */
  function Remaining(job: Job, exec: ExecutorConfig, m: nat): seq<RequestSpec> {
    Planned(job, exec)[Least(m, |Planned(job, exec)|)..]
  }

  lemma WholePlan(job: Job, exec: ExecutorConfig)
    ensures Remaining(job, exec, 0) == Planned(job, exec) && AllSuccess([])
  {
  }

  /** The supervisor's canary of one generation: one log file, run as often as the supervisor is
      started. `Valid` is what holds between runs, whatever the worker did and wherever the machine
      stopped. */
  class Executor {
    const job: Job
    const pinnedDigest: string
    const file: LogFile
    const world: World

    ghost predicate Valid()
      reads file, world
    {
      && Lawful(job.f) && (WorkloadValid(job.manifest) ==> DistinctIds(job.f.hash, job.identity.generationId, job.manifest))
      && (file.present ==> job.Valid())
      && FileInv(job, world.heard, file.present, file.bytes)
    }

    lemma ValidIsWitnessed()
      requires Valid()
      ensures AllWitnessed(job, world.heard, StoredNow())
    {
      StoredAreWitnessed(job, world.heard, file.present, file.bytes);
    }

    /** What a parser finds in the log file. */
    ghost function StoredNow(): seq<Observation>
      reads file
    {
      Stored(job.f, file.bytes)
    }

    constructor (job: Job, pinnedDigest: string, script: Script, patience: nat)
      requires Lawful(job.f) && (WorkloadValid(job.manifest) ==> DistinctIds(job.f.hash, job.identity.generationId, job.manifest))
      ensures Valid() && this.job == job && this.pinnedDigest == pinnedDigest && !file.present && fresh(file) && fresh(world)
      ensures world.heard == [] && world.sent == [] && StoredNow() == [] && world.script == script && world.patience == patience
    {
      var f := new LogFile();
      var w := new World(script, patience);
      StoredTornHeader(job.f, "");
      this.job, this.pinnedDigest, file, world := job, pinnedDigest, f, w;
    }

    ghost predicate Pinned(executable: Option<string>, generation: Generation) {
      && IdentityValid(job.identity) && generation.generationId == job.identity.generationId && WorkloadValid(job.manifest)
      && job.WorkloadPin() == pinnedDigest && executable.Some? && job.f.hash(executable.value) == job.identity.executableDigest
    }

    /** Nothing is run unless generation, workload and executable are the pinned ones. */
    method CheckPins(executable: Option<string>, generation: Generation) returns (r: Result<(), Failure>)
      requires Valid()
      ensures r.Ok? <==> Pinned(executable, generation)
      ensures r.Ok? ==> job.Valid() && job.WorkloadPin() == pinnedDigest
      ensures r.Err? ==> r.error.Refused?
    {
      hide IdentityValid, WorkloadValid, DistinctIds, Lawful, FileInv;
      if !IdentityValid(job.identity) {
        return Err(Refused("candidate identity is invalid"));
      }
      if generation.generationId != job.identity.generationId {
        return Err(Refused("generation is not the candidate identity's generation"));
      }
      var valid := ValidateWorkload(job.manifest);
      if valid.Err? {
        return Err(Refused(valid.error));
      }
      if job.WorkloadPin() != pinnedDigest {
        return Err(Refused("pinned workload does not match its own digest; refusing"));
      }
      if executable.None? || job.f.hash(executable.value) != job.identity.executableDigest {
        return Err(Refused("executable is not the candidate's; refusing to launch"));
      }
      return Ok(());
    }

    /** Creates the log, or reopens the one that an earlier run left unsealed. */
    method StartLog() returns (r: Result<LogWriter, Failure>)
      requires Valid() && job.Valid()
      modifies world`asked, file
      ensures file.present
      ensures r.Err? ==> Valid() && old(StoredNow()) <= StoredNow()
      ensures r.Ok? ==> fresh(r.value) && r.value.file == file && Running(job, world.heard, r.value)
      ensures r.Ok? ==> Listed(r.value.records) == old(StoredNow())
      ensures old(file.present) && (NewlineFree(old(file.bytes)) || Closed(job, world.heard, old(file.bytes), [])) ==>
        r.Err? && r.error.Refused? && file.bytes == old(file.bytes)
      ensures !old(file.present) ==> old(StoredNow()) == [] && (Quiet(world.script) ==> r.Ok?)
    {
      hide Running, Unsealed, Closed, Listed;
      if file.present {
        r := Restart(job, world, file);
      } else {
        StoredTornHeader(job.f, file.bytes);
        r := CreateFor(job, world, file);
      }
    }

    /** One run. `Valid` holds afterwards even if the machine stopped during a write. The requests sent
        are the outstanding ones in workload order; a stored failure means none is ever sent again; a
        sealed log or a torn header is never touched. */
    method Run(exec: ExecutorConfig, executable: Option<string>, generation: Generation)
      returns (r: Result<Outcome, Failure>, ghost todo: seq<RequestSpec>)
      requires Valid()
      modifies file, world, generation
      ensures Valid() && old(world.heard) <= world.heard
      ensures old(StoredNow()) <= StoredNow() && AllWitnessed(job, world.heard, StoredNow())
      ensures SentInOrder(todo, |world.sent| - |old(world.sent)|, old(world.sent), world.sent)
      ensures todo == [] || todo == Remaining(job, exec, |old(StoredNow())|)
      ensures !AllSuccess(old(StoredNow())) ==> todo == []
      ensures old(file.present) && (NewlineFree(old(file.bytes)) || Closed(job, old(world.heard), old(file.bytes), [])) ==>
        r.Err? && r.error.Refused? && file.bytes == old(file.bytes) && world.sent == old(world.sent)
      ensures r.Ok? ==> Ended(job, exec, world.heard, file.bytes, generation.state, old(StoredNow()), |todo|, |world.sent| - |old(world.sent)|, r)
      ensures r.Ok? ==> file.present && job.Valid() && job.WorkloadPin() == pinnedDigest
      ensures !old(file.present) && Pinned(executable, generation) && exec.haltAfterRequests.None? ==>
        forall k: nat :: ServesUpTo(job, world, Planned(job, exec), k) ==> Served(r, [], |Planned(job, exec)|, k)
    {
      hide Pinned, Served, ServesUpTo, SentInOrder, FileInv, Running, Unsealed, Closed, Ended, Listed, Stored;
      hide AllWitnessed, Planned, Remaining, Quiet, WorkloadValid, IdentityValid, DistinctIds, Lawful, NewlineFree;
      WholePlan(job, exec);
      NothingSent(world.sent);
      todo := [];
      var pins := CheckPins(executable, generation);
      ValidIsWitnessed();
      if pins.Err? {
        return Err(pins.error), todo;
      }
      ServedWorld(job, world, Planned(job, exec));
      var started := StartLog();
      if started.Err? {
        ValidIsWitnessed();
        return Err(started.error), todo;
      }
      ghost var was := Listed(started.value.records);
      r, todo := RunOpened(job, exec, world, generation, started.value, was);
      EndedKeeps(job, exec, world.heard, file.bytes, generation.state, was, |todo|, |world.sent| - |old(world.sent)|, r);
      ValidIsWitnessed();
    }

    /** The promotion path on this log: load the sealed log and ask the quota validator. After any
        history of runs it admits exactly the sealed logs that hold at least `target` observations
        and no failure, and it counts all of them; every one was earned by the authenticated worker,
        which named no other generation while it was asked. */
    method Admit(target: nat) returns (r: Result<QuotaDecision, string>)
      requires Valid() && file.present
      ensures r.Ok? <==> Closed(job, world.heard, file.bytes, []) && target >= 1 && AllSuccess(StoredNow()) && |StoredNow()| >= target
      ensures r.Ok? ==> r.value.counted == |StoredNow()| && AllWitnessed(job, world.heard, StoredNow())
    {
      hide AllWitnessed;
      ValidIsWitnessed();
      var sealed := VerifyBytes(job.f, file.bytes);
      if Closed(job, world.heard, file.bytes, []) {
        AdmissionExactly(job, world.heard, file.bytes, target);
      } else {
        UnsealedNotVerified(job, world.heard, file.bytes);
      }
      if sealed.Err? {
        return Err(sealed.error);
      }
      r := AdmitSealedQuota(job.f.hash, job.f.printers, sealed.value, job.identity, job.manifest, target);
    }
  }

  /** A world in which the worker answers every request correctly and at once, and exceeds its memory
      limit from request k on. */
  function PromptScript(job: Job, k: nat): Script {
    Script(
      t => 0, t => None, t => [], t => true, t => Authenticated, (t, id) => None,
      (t, id) => match FindRequest(job.manifest.requests, id)
        case Some(s) => Frame(ExecuteResult(CANARY_PROTOCOL_VERSION, job.identity.generationId, id, s.expectedOutput), 0)
        case None => ClosedByPeer(0),
      (t, id) => Some(exists i: nat | i < k && i < |job.manifest.requests| :: job.manifest.requests[i].requestId == id))
  }

  lemma PromptServes(job: Job, world: World, k: nat)
    requires job.Valid() && k <= |job.manifest.requests| && world.script == PromptScript(job, k) && world.patience > 0
    ensures ServesUpTo(job, world, job.manifest.requests, k)
  {
    var todo := job.manifest.requests;
    hide Lawful, IdentityValid, DistinctIds, FindRequest;
    forall i | 0 <= i < |todo| ensures Serves(job, world, todo[i]) {
      FindRequestAt(todo, i);
    }
  }

  /** Two whole runs. A worker that is always within its memory limit is not reverted, and its log is
      admitted for every target up to the number of requests. One that exceeds the limit on request k
      is reverted, and its log is still admitted for every target up to k: the revert leaves no
      observation behind. */
  method PromptRun(job: Job, executable: string, k: nat, target: nat)
    returns (r: Result<Outcome, Failure>, admission: Result<QuotaDecision, string>)
    requires job.Valid() && job.f.hash(executable) == job.identity.executableDigest && k <= |job.manifest.requests|
    ensures r.Ok? && r.value.Sealed? && (r.value.summary.reverted <==> k < |job.manifest.requests|)
    ensures admission.Ok? <==> 1 <= target <= k
    ensures admission.Ok? ==> admission.value.counted == k
  {
    hide Lawful, IdentityValid, WorkloadValid, DistinctIds, NewlineFree, Unsealed, Quiet, Serves, ServesUpTo, PromptScript, AllWitnessed;
    var executor := new Executor(job, job.WorkloadPin(), PromptScript(job, k), 1);
    var generation := new Generation(job.identity.generationId, Staged);
    PromptServes(job, executor.world, k);
    ghost var todo;
    r, todo := executor.Run(ExecutorConfig(None, None, None), Some(executable), generation);
    assert Planned(job, ExecutorConfig(None, None, None)) == job.manifest.requests;
    admission := executor.Admit(target);
  }

  lemma EndedKeeps(job: Job, exec: ExecutorConfig, heard: seq<Event>, bytes: string, state: GenerationState,
                   was: seq<Observation>, n: nat, sent: int, r: Result<Outcome, Failure>)
    requires Lawful(job.f) && Ended(job, exec, heard, bytes, state, was, n, sent, r)
    ensures FileInv(job, heard, true, bytes) && was <= Stored(job.f, bytes)
  {
    assert Unsealed(job, heard, bytes, was) || Closed(job, heard, bytes, was);
    if Unsealed(job, heard, bytes, was) {
      UnsealedKeepsLess(job, heard, bytes, was, []);
      var rs := UnsealedFacts(job, heard, bytes, was);
    } else {
      ClosedKeepsLess(job, heard, bytes, was, []);
      var rs, seal :| ClosedBy(job, heard, bytes, was, rs, seal);
      StoredClosed(job, heard, bytes, was, rs, seal);
    }
  }

  lemma UnsealedNotVerified(job: Job, heard: seq<Event>, bytes: string)
    requires Lawful(job.f) && FileInv(job, heard, true, bytes) && !Closed(job, heard, bytes, [])
    ensures Verify(job.f, bytes).None?
  {
    if NewlineFree(bytes) {
      StoredTornHeader(job.f, bytes);
    } else {
      var rs := UnsealedFacts(job, heard, bytes, []);
    }
  }
}
