/** Any history of appends, repeated appends, rejections, crashes and restarts on one observation log. */
module CanaryHistory {
  import opened Wrappers
  import opened Bytes
  import opened Canary
  import opened CanaryLog
  import opened CanaryWriter
  import opened CanaryAdmission
  import opened CanaryEvidence

  /** What a writer is asked to do; with a crash only so many bytes of the line reach the disk. */
  datatype Action =
    | Observe(o: Observation, crash: Option<nat>)
    | Reject(reason: string, at: nat, crash: Option<nat>)
    | Restart

  /** The observation is stored: it is valid, bound and new, and its newline was written. */
  ghost predicate Stores(f: Formats, header: LogHeader, kept: seq<Observation>, o: Observation, crash: Option<nat>) {
    && ObservationValid(f.hash, o) && Bound(header, o) && o.observationId !in Ids(kept)
    && (crash.None? || crash.value >= |Line(f, ObservedRecord(f, o))|)
  }

  ghost function After(f: Formats, header: LogHeader, kept: seq<Observation>, a: Action): seq<Observation> {
    match a
    case Observe(o, crash) => if Stores(f, header, kept, o, crash) then kept + [o] else kept
    case _ => kept
  }

  /** The observations that survive a history. */
  ghost function Kept(f: Formats, header: LogHeader, actions: seq<Action>): seq<Observation> {
    if actions == [] then [] else After(f, header, Kept(f, header, actions[..|actions| - 1]), actions[|actions| - 1])
  }

  /** A writer on a log that keeps these observations. */
  ghost predicate Keeps(w: LogWriter, f: Formats, header: LogHeader, kept: seq<Observation>)
    reads w, w.file
  {
    w.Valid() && w.f == f && w.header == header && HeaderValid(header) && StateOf(f, w.records).observations == kept
  }

  lemma SeenIsKept(w: LogWriter, f: Formats, header: LogHeader, kept: seq<Observation>)
    requires Keeps(w, f, header, kept)
    ensures w.seen.Keys == Ids(kept)
  {
    SeenAreStored(f, w.records);
  }

  /** Which records a torn file keeps. */
  lemma TornState(f: Formats, bytes: string, records: seq<LogRecord>, r: LogRecord, header: LogHeader, crash: Option<nat>)
    requires Lawful(f) && bytes == Encode(f, records) + Reached(Line(f, r), crash) && crash.Some?
    requires OpenLog(f, records) && OpenLog(f, records + [r])
    requires StateOf(f, records).header == Some(header) && StateOf(f, records + [r]).header == Some(header)
    ensures Reopenable(f, bytes, header)
    ensures ScanLog(f, bytes).value.parsed.observations ==
      StateOf(f, if crash.value < |Line(f, r)| then records else records + [r]).observations
  {
    ReachedIsTorn(f, bytes, records, r, crash);
    TornLogReopens(f, bytes, records, r, header);
    EncodeOne(f, records, r);
  }

  /** A reopened writer keeps what a parser finds in the file. */
  method Reopened(f: Formats, file: LogFile, header: LogHeader) returns (w: LogWriter)
    requires Lawful(f) && file.present && HeaderValid(header) && Reopenable(f, file.bytes, header)
    modifies file
    ensures fresh(w) && w.file == file
    ensures Keeps(w, f, header, ScanLog(f, old(file.bytes)).value.parsed.observations)
  {
    ghost var bytes := file.bytes;
    var r := ReopenLog(f, file, header);
    w := r.value;
    ghost var tail :| bytes == Encode(f, w.records) + tail && NewlineFree(tail);
    ScanEncoded(f, NOTHING, true, 0, w.records, tail);
  }

  /** An observation, with a restart after a crash. */
  method PerformObserve(f: Formats, file: LogFile, header: LogHeader, w: LogWriter, ghost kept: seq<Observation>, o: Observation, crash: Option<nat>)
    returns (v: LogWriter)
    requires Keeps(w, f, header, kept) && w.file == file
    modifies w, file
    ensures (v == w || fresh(v)) && v.file == file
    ensures Keeps(v, f, header, if Stores(f, header, kept, o, crash) then kept + [o] else kept)
  {
    SeenIsKept(w, f, header, kept);
    hide Ids, ObservationValid, Bound, Reached;
    ghost var records := w.records;
    var r := w.AppendObservation(o, crash);
    match r {
      case Err(Crashed) =>
        TornState(f, file.bytes, records, ObservedRecord(f, o), header, crash);
        v := Reopened(f, file, header);
      case Ok(Appended) => v := w;
      case Ok(Idempotent) => v := w;
      case Err(Refused(_)) => v := w;
    }
  }

  /** A rejection, with a restart after a crash. */
  method PerformReject(f: Formats, file: LogFile, header: LogHeader, w: LogWriter, ghost kept: seq<Observation>,
                       reason: string, at: nat, crash: Option<nat>)
    returns (v: LogWriter)
    requires Keeps(w, f, header, kept) && w.file == file
    modifies w, file
    ensures (v == w || fresh(v)) && v.file == file && Keeps(v, f, header, kept)
  {
    hide Reached;
    ghost var records := w.records;
    var r := w.AppendRejection(reason, at, crash);
    if r.Ok? {
      return w;
    }
    TornState(f, file.bytes, records, Rejected(LogRejection(reason, at)), header, crash);
    v := Reopened(f, file, header);
  }

  /** One action. */
  method Perform(f: Formats, file: LogFile, header: LogHeader, w: LogWriter, ghost kept: seq<Observation>, a: Action)
    returns (v: LogWriter)
    requires Keeps(w, f, header, kept) && w.file == file
    modifies w, file
    ensures (v == w || fresh(v)) && v.file == file && Keeps(v, f, header, After(f, header, kept, a))
  {
    match a {
      case Observe(o, crash) => v := PerformObserve(f, file, header, w, kept, o, crash);
      case Reject(reason, at, crash) => v := PerformReject(f, file, header, w, kept, reason, at, crash);
      case Restart =>
        UntornState(f, file.bytes, w.records, header);
        v := Reopened(f, file, header);
    }
  }

  lemma UntornState(f: Formats, bytes: string, records: seq<LogRecord>, header: LogHeader)
    requires Lawful(f) && bytes == Encode(f, records) && OpenLog(f, records) && StateOf(f, records).header == Some(header)
    ensures Reopenable(f, bytes, header)
    ensures ScanLog(f, bytes).value.parsed.observations == StateOf(f, records).observations
  {
    assert bytes == Encode(f, records) + "";
    ScanEncoded(f, NOTHING, true, 0, records, "");
  }

  /** After any history the log can be sealed, the sealed file is accepted, and it holds exactly the
      observations that survived: each once, in the order in which they were stored. */
  method RunLog(f: Formats, header: LogHeader, actions: seq<Action>, sealedAt: nat) returns (sealed: SealedLog, file: LogFile)
    requires Lawful(f) && HeaderValid(header)
    ensures fresh(file) && file.present && Verify(f, file.bytes) == Some(sealed)
    ensures sealed.header == header && sealed.observations == Kept(f, header, actions)
    ensures |Ids(sealed.observations)| == |sealed.observations|
  {
    file := new LogFile();
    var created := CreateLog(f, file, header, None);
    var w := created.value;
    HeaderReplays(f, header);
    for i := 0 to |actions|
      invariant fresh(w) && fresh(file) && w.file == file && Keeps(w, f, header, Kept(f, header, actions[..i]))
    {
      hide Keeps, Stores;
      assert actions[..i + 1][..i] == actions[..i];
      w := Perform(f, file, header, w, Kept(f, header, actions[..i]), actions[i]);
    }
    assert actions[..|actions|] == actions;
    SeenAreStored(f, w.records);
    var r := w.Seal(sealedAt, None);
    sealed := r.value;
  }
}
