/** Writing, reopening, sealing and verifying an observation log across crashes. */
module CanaryWriter {
  import opened Wrappers
  import opened Bytes
  import opened Fields
  import opened Canary
  import opened CanaryLog

  /** A file on disk. It outlives the process that writes it. */
  class LogFile {
    var present: bool
    var bytes: string

    constructor ()
      ensures !present && bytes == ""
    {
      present, bytes := false, "";
    }

    /** Appends and syncs. With a crash only the first `crash.value` bytes reach the disk. */
    method WriteSynced(line: string, crash: Option<nat>) returns (alive: bool)
      modifies this
      ensures present == old(present) && alive == crash.None?
      ensures bytes == old(bytes) + Reached(line, crash)
    {
      bytes := bytes + Reached(line, crash);
      alive := crash.None?;
    }
  }

  /** What a write leaves behind. */
  function Reached(line: string, crash: Option<nat>): string {
    if crash.Some? && crash.value < |line| then line[..crash.value] else line
  }

  datatype Failure = Refused(reason: string) | Crashed

  datatype AppendOutcome = Appended | Idempotent

  /** The file after a crash while one more record was being written: the record is either complete
      or a partial line. */
  ghost predicate Torn(f: Formats, bytes: string, records: seq<LogRecord>, r: LogRecord) {
    exists k :: 0 <= k <= |Line(f, r)| && bytes == Encode(f, records) + Line(f, r)[..k]
  }

  /** The records that are complete in a torn file. */
  lemma TornRecords(f: Formats, bytes: string, records: seq<LogRecord>, r: LogRecord) returns (complete: seq<LogRecord>, tail: string)
    requires Lawful(f) && Torn(f, bytes, records, r)
    ensures complete == records || complete == records + [r]
    ensures bytes == Encode(f, complete) + tail && NewlineFree(tail)
    ensures complete == records <==> |bytes| < |Encode(f, records + [r])|
  {
    var k :| 0 <= k <= |Line(f, r)| && bytes == Encode(f, records) + Line(f, r)[..k];
    EncodeOne(f, records, r);
    if k == |Line(f, r)| {
      complete, tail := records + [r], "";
      assert Line(f, r)[..k] == Line(f, r);
      assert records != records + [r] by { assert |records + [r]| == |records| + 1; }
    } else {
      complete, tail := records, Line(f, r)[..k];
      assert PrintsBack(f, r);
    }
  }

  lemma ReachedIsTorn(f: Formats, bytes: string, records: seq<LogRecord>, r: LogRecord, crash: Option<nat>)
    requires bytes == Encode(f, records) + Reached(Line(f, r), crash)
    ensures Torn(f, bytes, records, r)
  {
    var k := if crash.Some? && crash.value < |Line(f, r)| then crash.value else |Line(f, r)|;
    assert Reached(Line(f, r), crash) == Line(f, r)[..k];
  }

  /** An open log: records with a header, nothing sealed. */
  ghost predicate OpenLog(f: Formats, records: seq<LogRecord>) {
    Replay(f, records).Some? && Replay(f, records).value.header.Some? && Replay(f, records).value.seal.None?
  }

  ghost function StateOf(f: Formats, records: seq<LogRecord>): Parsed
    requires Replay(f, records).Some?
  {
    Replay(f, records).value
  }

  function ObservedRecord(f: Formats, o: Observation): LogRecord {
    Observed(o, ObservationDigest(f.hash, f.printers, o))
  }

  function Qualifying(os: seq<Observation>): nat {
    if os == [] then 0 else Qualifying(os[..|os| - 1]) + if IsQualifying(os[|os| - 1]) then 1 else 0
  }

  function LogDigestOf(f: Formats, bytes: string): Digest {
    DomainDigest(f.hash, LOG_DOMAIN, [bytes])
  }

  /** The only seal that fits these bytes, up to its time. */
  function SealFor(f: Formats, p: Parsed, bytes: string, sealedAt: nat): LogSeal {
    LogSeal(|p.observations|, Qualifying(p.observations), LogDigestOf(f, bytes), sealedAt)
  }

  datatype SealedLog = SealedLog(header: LogHeader, observations: seq<Observation>, rejections: seq<LogRejection>, seal: LogSeal)

  /** Verification of a closed log, as a function of its bytes. */
  function Verify(f: Formats, bytes: string): Option<SealedLog> {
    match ScanLog(f, bytes)
    case None => None
    case Some(Scan(p, end)) =>
      if p.header.None? || p.seal.None? || end != |bytes| then None else
        var (seal, start) := p.seal.value;
        if start > |bytes| || seal != SealFor(f, p, bytes[..start], seal.sealedAt) then None
        else Some(SealedLog(p.header.value, p.observations, p.rejections, seal))
  }

  /** The bytes in front of the seal line. */
  function BeforeSeal(f: Formats, bytes: string): string {
    match ScanLog(f, bytes)
    case Some(Scan(p, _)) => if p.seal.Some? && p.seal.value.1 <= |bytes| then bytes[..p.seal.value.1] else bytes
    case None => bytes
  }

  method VerifyBytes(f: Formats, bytes: string) returns (r: Result<SealedLog, string>)
    ensures r.Ok? <==> Verify(f, bytes).Some?
    ensures r.Ok? ==> Some(r.value) == Verify(f, bytes)
  {
    var scan := ParseLog(f, bytes);
    if scan.Err? {
      return Err(scan.error);
    }
    var Scan(parsed, end) := scan.value;
    if parsed.header.None? {
      return Err("observation log has no header");
    }
    if parsed.seal.None? {
      return Err("observation log is not sealed");
    }
    if end != |bytes| {
      return Err("observation log has bytes after the seal");
    }
    var (seal, start) := parsed.seal.value;
    if start > |bytes| || seal.logDigest != LogDigestOf(f, bytes[..start]) {
      return Err("observation log seal digest does not match the log bytes");
    }
    if seal.observationCount != |parsed.observations| {
      return Err("observation log seal counts other observations");
    }
    if seal.qualifyingCount != Qualifying(parsed.observations) {
      return Err("observation log seal counts other qualifying observations");
    }
    r := Ok(SealedLog(parsed.header.value, parsed.observations, parsed.rejections, seal));
  }

  /** An accepted file is the encoding of an open log and the seal that fits it. */
  lemma VerifiedShape(f: Formats, bytes: string) returns (records: seq<LogRecord>, seal: LogSeal)
    requires Lawful(f) && Verify(f, bytes).Some?
    ensures OpenLog(f, records) && bytes == Encode(f, records + [Sealing(seal)])
    ensures seal == SealFor(f, StateOf(f, records), Encode(f, records), seal.sealedAt)
    ensures Replay(f, records + [Sealing(seal)]).Some? && BeforeSeal(f, bytes) == Encode(f, records)
    ensures Verify(f, bytes).value == SealedLog(StateOf(f, records).header.value, StateOf(f, records).observations, StateOf(f, records).rejections, seal)
  {
    var rs, tail := ScanDecodes(f, NOTHING, true, 0, bytes);
    assert tail == "" && bytes == Encode(f, rs);
    SealedEndsWithSeal(f, rs);
    records, seal := rs[..|rs| - 1], rs[|rs| - 1].seal;
    assert rs == records + [Sealing(seal)];
    ReplayOne(f, records, Sealing(seal));
    EncodeOne(f, records, Sealing(seal));
    assert bytes[..|Encode(f, records)|] == Encode(f, records);
  }

  /** Sealing any open log gives a file that verifies and holds exactly the log's contents. */
  lemma SealVerifies(f: Formats, records: seq<LogRecord>, sealedAt: nat)
    requires Lawful(f) && OpenLog(f, records)
    ensures var p := StateOf(f, records);
      var s := SealFor(f, p, Encode(f, records), sealedAt);
      Verify(f, Encode(f, records + [Sealing(s)])) == Some(SealedLog(p.header.value, p.observations, p.rejections, s))
  {
    var p := StateOf(f, records);
    var s := SealFor(f, p, Encode(f, records), sealedAt);
    var rs := records + [Sealing(s)];
    OpenNonEmpty(f, records);
    ReplayOne(f, records, Sealing(s));
    ScanEncoded(f, NOTHING, true, 0, rs, "");
    assert Encode(f, rs) + "" == Encode(f, rs);
    EncodeOne(f, records, Sealing(s));
    assert Encode(f, rs)[..|Encode(f, records)|] == Encode(f, records);
  }

  lemma OpenNonEmpty(f: Formats, records: seq<LogRecord>)
    requires OpenLog(f, records)
    ensures records != []
  {
  }

  lemma PrefixIsWhole(f: Formats, a: seq<LogRecord>, s: LogSeal, x: string, long: seq<LogRecord>)
    requires Lawful(f) && OpenLog(f, a) && Replay(f, a + [Sealing(s)]).Some? && Replay(f, long).Some?
    requires Encode(f, a + [Sealing(s)]) + x == Encode(f, long)
    ensures x == ""
  {
    var short := a + [Sealing(s)];
    EncodePrefix(f, short, x, long);
    assert short + long[|short|..] == long;
    SealedPart(f, a, s);
    SealIsLast(f, short, long[|short|..]);
  }

  /** No strict prefix of an accepted file is accepted. */
  lemma NoStrictPrefix(f: Formats, bytes: string, k: nat)
    requires Lawful(f) && Verify(f, bytes).Some? && k < |bytes|
    ensures Verify(f, bytes[..k]).None?
  {
    if Verify(f, bytes[..k]).Some? {
      var a, s := VerifiedShape(f, bytes[..k]);
      var b, t := VerifiedShape(f, bytes);
      var short, long := a + [Sealing(s)], b + [Sealing(t)];
      assert Encode(f, short) + bytes[k..] == Encode(f, long);
      PrefixIsWhole(f, a, s, bytes[k..], long);
    }
  }

  lemma SealedPart(f: Formats, a: seq<LogRecord>, s: LogSeal)
    requires OpenLog(f, a) && Replay(f, a + [Sealing(s)]).Some?
    ensures Replay(f, a + [Sealing(s)]).value.seal.Some?
  {
    ReplayOne(f, a, Sealing(s));
  }

  /** No strict extension of an accepted file is accepted. */
  lemma NoStrictExtension(f: Formats, bytes: string, more: string)
    requires Lawful(f) && Verify(f, bytes).Some? && more != ""
    ensures Verify(f, bytes + more).None?
  {
    assert (bytes + more)[..|bytes|] == bytes;
    if Verify(f, bytes + more).Some? {
      NoStrictPrefix(f, bytes + more, |bytes|);
    }
  }

  /** Accepted files with the same log digest agree byte for byte in front of the seal line and in
      everything they record, and are the same file exactly when they were sealed at the same time. */
  lemma EqualDigestEqualLog(f: Formats, a: string, b: string)
    requires Lawful(f) && Verify(f, a).Some? && Verify(f, b).Some? && |a| < U64_LIMIT && |b| < U64_LIMIT
    requires Verify(f, a).value.seal.logDigest == Verify(f, b).value.seal.logDigest
    requires CollisionFree(f.hash, {DomainInput(LOG_DOMAIN, [BeforeSeal(f, a)]), DomainInput(LOG_DOMAIN, [BeforeSeal(f, b)])})
    ensures BeforeSeal(f, a) == BeforeSeal(f, b)
    ensures Verify(f, a).value == Verify(f, b).value.(seal := Verify(f, a).value.seal)
    ensures a == b <==> Verify(f, a).value.seal.sealedAt == Verify(f, b).value.seal.sealedAt
  {
    var ra, sa := VerifiedShape(f, a);
    var rb, sb := VerifiedShape(f, b);
    EncodeOne(f, ra, Sealing(sa));
    EncodeOne(f, rb, Sealing(sb));
    hide Replay, Verify, BeforeSeal;
    DomainInputUnique(LOG_DOMAIN, [Encode(f, ra)], LOG_DOMAIN, [Encode(f, rb)]);
    assert [Encode(f, ra)][0] == [Encode(f, rb)][0];
    SameBytesSameRecords(f, ra, rb);
  }

  lemma SameBytesSameRecords(f: Formats, a: seq<LogRecord>, b: seq<LogRecord>)
    requires Lawful(f) && Encode(f, a) == Encode(f, b)
    ensures a == b
  {
    assert Encode(f, a) + "" == Encode(f, b) && Encode(f, b) + "" == Encode(f, a);
    EncodePrefix(f, a, "", b);
    EncodePrefix(f, b, "", a);
  }

  /** The open log the writer was about to have: one more record, these observations and ids. */
  ghost predicate Grown(f: Formats, records: seq<LogRecord>, r: LogRecord, os: seq<Observation>, seen: map<string, string>) {
    && OpenLog(f, records) && OpenLog(f, records + [r])
    && StateOf(f, records + [r]).header == StateOf(f, records).header
    && StateOf(f, records + [r]).observations == os && StateOf(f, records + [r]).seen == seen
  }

  class LogWriter {
    const f: Formats
    const file: LogFile
    const header: LogHeader
    var seen: map<string, string>
    /** The complete records of the file. */
    ghost var records: seq<LogRecord>

    ghost predicate Valid()
      reads this, file
    {
      && Lawful(f) && file.present && file.bytes == Encode(f, records)
      && OpenLog(f, records)
      && StateOf(f, records).header == Some(header) && StateOf(f, records).seen == seen
    }

    /** Takes over a file whose complete records are known. */
    constructor (f: Formats, file: LogFile, header: LogHeader, seen: map<string, string>, ghost records: seq<LogRecord>)
      requires Lawful(f) && file.present && file.bytes == Encode(f, records) && OpenLog(f, records)
      requires StateOf(f, records).header == Some(header) && StateOf(f, records).seen == seen
      ensures Valid() && this.f == f && this.file == file && this.header == header && this.records == records
      ensures this.seen == seen
    {
      this.f, this.file, this.header, this.seen, this.records := f, file, header, seen, records;
    }

    predicate Contains(id: string)
      reads this
    {
      id in seen
    }

    /** Stores an observation once: a repeated identical record changes nothing, a different record
        under a known id, an invalid one and one of another log are refused. */
    method AppendObservation(o: Observation, crash: Option<nat>) returns (r: Result<AppendOutcome, Failure>)
      requires Valid()
      modifies this, file
      ensures (r.Err? && r.error.Refused?) <==>
        !ObservationValid(f.hash, o) || !Bound(header, o)
        || (o.observationId in old(seen) && old(seen)[o.observationId] != ObservationDigest(f.hash, f.printers, o))
      ensures r == Ok(Idempotent) || (r.Err? && r.error.Refused?) ==>
        Valid() && file.bytes == old(file.bytes) && records == old(records) && seen == old(seen)
      ensures r == Ok(Idempotent) ==> o.observationId in seen
      ensures r == Ok(Appended) ==> Valid() && records == old(records) + [ObservedRecord(f, o)]
      ensures r == Ok(Appended) ==> StateOf(f, records).observations == StateOf(f, old(records)).observations + [o]
      ensures r == Ok(Appended) || r == Err(Crashed) ==> o.observationId !in old(seen)
      ensures r == Ok(Appended) ==> seen == old(seen)[o.observationId := ObservationDigest(f.hash, f.printers, o)]
      ensures r == Err(Crashed) ==> file.present && Torn(f, file.bytes, old(records), ObservedRecord(f, o))
      ensures r == Ok(Appended) || r == Err(Crashed) ==>
        (r.Ok? <==> crash.None?) && file.bytes == old(file.bytes) + Reached(Line(f, ObservedRecord(f, o)), crash)
      ensures r == Err(Crashed) ==> Grown(f, old(records), ObservedRecord(f, o), StateOf(f, old(records)).observations + [o],
                                          old(seen)[o.observationId := ObservationDigest(f.hash, f.printers, o)])
    {
      if !ObservationValid(f.hash, o) {
        return Err(Refused("observation is invalid"));
      }
      if !Bound(header, o) {
        return Err(Refused("observation belongs to another log"));
      }
      var digest := ObservationDigest(f.hash, f.printers, o);
      if o.observationId in seen {
        if seen[o.observationId] == digest {
          return Ok(Idempotent);
        }
        return Err(Refused("observation id conflicts with a different record"));
      }
      var record := ObservedRecord(f, o);
      OpenNonEmpty(f, records);
      ReplayOne(f, records, record);
      EncodeOne(f, records, record);
      var alive := file.WriteSynced(Line(f, record), crash);
      if !alive {
        ReachedIsTorn(f, file.bytes, records, record, crash);
        return Err(Crashed);
      }
      seen := seen[o.observationId := digest];
      records := records + [record];
      r := Ok(Appended);
    }

    /** Logs something that was refused. Informational: observations and ids do not change. */
    method AppendRejection(reason: string, observedAt: nat, crash: Option<nat>) returns (r: Result<(), Failure>)
      requires Valid()
      modifies this, file
      ensures r.Ok? ==> Valid() && records == old(records) + [Rejected(LogRejection(reason, observedAt))]
      ensures r.Ok? ==> seen == old(seen) && StateOf(f, records).observations == StateOf(f, old(records)).observations
      ensures r.Err? ==> r.error == Crashed && file.present
      ensures r.Ok? <==> crash.None?
      ensures file.bytes == old(file.bytes) + Reached(Line(f, Rejected(LogRejection(reason, observedAt))), crash)
      ensures r.Err? ==> Torn(f, file.bytes, old(records), Rejected(LogRejection(reason, observedAt)))
      ensures r.Err? ==> Grown(f, old(records), Rejected(LogRejection(reason, observedAt)), StateOf(f, old(records)).observations, old(seen))
    {
      var record := Rejected(LogRejection(reason, observedAt));
      OpenNonEmpty(f, records);
      ReplayOne(f, records, record);
      EncodeOne(f, records, record);
      var alive := file.WriteSynced(Line(f, record), crash);
      if !alive {
        ReachedIsTorn(f, file.bytes, records, record, crash);
        return Err(Crashed);
      }
      records := records + [record];
      r := Ok(());
    }

    /** Re-reads the file, commits its digest in a seal record and verifies the result. */
    method Seal(sealedAt: nat, crash: Option<nat>) returns (r: Result<SealedLog, Failure>)
      requires Valid()
      modifies this, file
      ensures var p := StateOf(f, old(records));
        var s := SealFor(f, p, old(file.bytes), sealedAt);
        && file.present
        && (crash.None? ==> file.bytes == Encode(f, old(records) + [Sealing(s)]))
        && (crash.None? ==> r == Ok(SealedLog(header, p.observations, p.rejections, s)))
        && (crash.None? ==> Verify(f, file.bytes) == Some(SealedLog(header, p.observations, p.rejections, s)))
        && (crash.Some? ==> r == Err(Crashed) && Torn(f, file.bytes, old(records), Sealing(s)))
    {
      ScanEncoded(f, NOTHING, true, 0, records, "");
      assert Encode(f, records) + "" == Encode(f, records);
      var scan := ParseLog(f, file.bytes);
      var Scan(parsed, end) := scan.value;
      var seal := SealFor(f, parsed, file.bytes, sealedAt);
      EncodeOne(f, records, Sealing(seal));
      SealVerifies(f, records, sealedAt);
      var alive := file.WriteSynced(Line(f, Sealing(seal)), crash);
      if !alive {
        ReachedIsTorn(f, file.bytes, records, Sealing(seal), crash);
        return Err(Crashed);
      }
      var verified := VerifyBytes(f, file.bytes);
      r := Ok(verified.value);
    }
  }

  /** Starts a log; an existing file is never overwritten. */
  method CreateLog(f: Formats, file: LogFile, header: LogHeader, crash: Option<nat>) returns (r: Result<LogWriter, Failure>)
    requires Lawful(f)
    modifies file
    ensures !HeaderValid(header) || old(file.present) ==>
      r.Err? && r.error.Refused? && file.present == old(file.present) && file.bytes == old(file.bytes)
    ensures HeaderValid(header) && !old(file.present) ==> file.present && file.bytes == Reached(Line(f, Header(header)), crash)
    ensures HeaderValid(header) && !old(file.present) ==> (r.Ok? <==> crash.None?) && (r.Err? ==> r.error == Crashed)
    ensures r.Ok? ==> fresh(r.value) && r.value.Valid() && r.value.f == f && r.value.file == file && r.value.header == header
    ensures r.Ok? ==> r.value.records == [Header(header)] && r.value.seen == map[]
  {
    if !HeaderValid(header) {
      return Err(Refused("observation log header is invalid"));
    }
    if file.present {
      return Err(Refused("cannot create observation log: the file exists"));
    }
    file.present, file.bytes := true, "";
    var alive := file.WriteSynced(Line(f, Header(header)), crash);
    if !alive {
      return Err(Crashed);
    }
    HeaderReplays(f, header);
    assert Encode(f, [Header(header)]) == Line(f, Header(header)) + Encode(f, []);
    var w := new LogWriter(f, file, header, map[], [Header(header)]);
    r := Ok(w);
  }

  lemma HeaderReplays(f: Formats, header: LogHeader)
    requires HeaderValid(header)
    ensures Replay(f, [Header(header)]) == Some(NOTHING.(header := Some(header)))
  {
    ReplayOne(f, [], Header(header));
    assert [] + [Header(header)] == [Header(header)];
  }

  /** Reopens an unsealed log after a restart: drops a torn tail and remembers every stored id. */
  method ReopenLog(f: Formats, file: LogFile, expected: LogHeader) returns (r: Result<LogWriter, Failure>)
    requires Lawful(f) && file.present
    modifies file
    ensures file.present
    ensures r.Err? ==> r.error.Refused? && file.bytes == old(file.bytes)
    ensures r.Ok? ==> fresh(r.value) && r.value.Valid() && r.value.f == f && r.value.file == file && r.value.header == expected
    ensures r.Ok? ==> exists tail :: old(file.bytes) == Encode(f, r.value.records) + tail && NewlineFree(tail)
    ensures HeaderValid(expected) && Reopenable(f, old(file.bytes), expected) ==> r.Ok?
  {
    if !HeaderValid(expected) {
      return Err(Refused("observation log header is invalid"));
    }
    var scan := ParseLog(f, file.bytes);
    if scan.Err? {
      return Err(Refused(scan.error));
    }
    var Scan(parsed, end) := scan.value;
    if parsed.header != Some(expected) {
      return Err(Refused("observation log was opened with other bindings"));
    }
    if parsed.seal.Some? {
      return Err(Refused("observation log is already sealed; a sealed log is never reopened"));
    }
    ghost var records, tail := ScanDecodes(f, NOTHING, true, 0, file.bytes);
    assert file.bytes[..end] == Encode(f, records);
    file.bytes := file.bytes[..end];
    var w := new LogWriter(f, file, expected, parsed.seen, records);
    r := Ok(w);
  }

  ghost predicate Reopenable(f: Formats, bytes: string, header: LogHeader) {
    ScanLog(f, bytes).Some? && ScanLog(f, bytes).value.parsed.header == Some(header) && ScanLog(f, bytes).value.parsed.seal.None?
  }

  /** After any crash during an append the log can be reopened, and the reopened writer knows exactly
      the records whose newline was written. */
  lemma TornLogReopens(f: Formats, bytes: string, records: seq<LogRecord>, r: LogRecord, header: LogHeader)
    requires Lawful(f) && Torn(f, bytes, records, r)
    requires OpenLog(f, records) && OpenLog(f, records + [r]) && StateOf(f, records).header == Some(header)
    requires StateOf(f, records + [r]).header == Some(header)
    ensures Reopenable(f, bytes, header)
    ensures var kept := if |bytes| < |Encode(f, records + [r])| then records else records + [r];
      ScanLog(f, bytes) == Some(Scan(StateOf(f, kept), |Encode(f, kept)|))
  {
    var complete, tail := TornRecords(f, bytes, records, r);
    ScanEncoded(f, NOTHING, true, 0, complete, tail);
  }
}
