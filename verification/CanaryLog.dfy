/** The per-generation observation log: parser, crash-safe writer, seal and verification. A file is
    a byte string; a crash during a write leaves any prefix of the bytes being written. */
module CanaryLog {
  import opened Wrappers
  import opened Bytes
  import opened Fields
  import opened Canary

  const LOG_DOMAIN := "spark-rsi/canary-observation-log/v1"

  datatype LogHeader = LogHeader(version: nat, generationId: string, workloadDigest: string, executableDigest: string, openedAt: nat)

  datatype LogRejection = LogRejection(reason: string, observedAt: nat)

  datatype LogSeal = LogSeal(observationCount: nat, qualifyingCount: nat, logDigest: string, sealedAt: nat)

  datatype LogRecord =
    | Header(header: LogHeader)
    | Observed(observation: Observation, digest: string)
    | Rejected(rejection: LogRejection)
    | Sealing(seal: LogSeal)

  /** SHA-256, the canonical printers, and the parser of one line. */
  datatype Formats = Formats(hash: Hash, printers: Printers, print_: LogRecord -> string, parse: string -> Option<LogRecord>)

  predicate NewlineFree(s: string) {
    forall i :: 0 <= i < |s| ==> s[i] != '\n'
  }

  ghost predicate PrintsBack(f: Formats, r: LogRecord) {
    NewlineFree(f.print_(r)) && f.parse(f.print_(r)) == Some(r)
  }

  /** What is assumed of JSON: a record is printed without line breaks and parsed back. */
  ghost predicate Lawful(f: Formats) {
    forall r :: PrintsBack(f, r)
  }

  function Line(f: Formats, r: LogRecord): string {
    f.print_(r) + "\n"
  }

  function Encode(f: Formats, rs: seq<LogRecord>): string {
    if rs == [] then "" else Line(f, rs[0]) + Encode(f, rs[1..])
  }

  predicate HeaderValid(h: LogHeader) {
    && h.version == OBSERVATION_LOG_VERSION && !IsBlank(h.generationId)
    && IsHexDigest(h.workloadDigest) && IsHexDigest(h.executableDigest)
  }

  /** The observation belongs to the generation, workload and executable of the log. */
  predicate Bound(h: LogHeader, o: Observation) {
    o.generationId == h.generationId && o.workloadDigest == h.workloadDigest && o.executableDigest == h.executableDigest
  }

  datatype Parsed = Parsed(
    header: Option<LogHeader>, observations: seq<Observation>, rejections: seq<LogRejection>,
    seal: Option<(LogSeal, nat)>, seen: map<string, string>)

  const NOTHING := Parsed(None, [], [], None, map[])

  /** Takes in one record whose line starts at byte `at`; None when the log is refused. */
  function Step(f: Formats, p: Parsed, r: LogRecord, first: bool, at: nat): Option<Parsed> {
    if p.seal.Some? then None else
      match r
      case Header(h) => if first && HeaderValid(h) then Some(p.(header := Some(h))) else None
      case Observed(o, digest) =>
        if p.header.None? || !ObservationValid(f.hash, o) || digest != ObservationDigest(f.hash, f.printers, o)
           || !Bound(p.header.value, o) then None
        else if o.observationId in p.seen then
          if p.seen[o.observationId] == digest then Some(p) else None
        else Some(p.(observations := p.observations + [o], seen := p.seen[o.observationId := digest]))
      case Rejected(x) => if p.header.None? then None else Some(p.(rejections := p.rejections + [x]))
      case Sealing(s) => if p.header.None? then None else Some(p.(seal := Some((s, at))))
  }

  /** Takes in records one after the other. */
  function ReplayFrom(f: Formats, p: Parsed, first: bool, at: nat, rs: seq<LogRecord>): Option<Parsed>
    decreases |rs|
  {
    if rs == [] then Some(p) else
      match Step(f, p, rs[0], first, at)
      case None => None
      case Some(q) => ReplayFrom(f, q, false, at + |Line(f, rs[0])|, rs[1..])
  }

  function Replay(f: Formats, rs: seq<LogRecord>): Option<Parsed> {
    ReplayFrom(f, NOTHING, true, 0, rs)
  }

  function FirstNewline(s: string): (k: nat)
    ensures k <= |s| && NewlineFree(s[..k]) && (k < |s| ==> s[k] == '\n')
  {
    if s == "" || s[0] == '\n' then 0 else 1 + FirstNewline(s[1..])
  }

  datatype Scan = Scan(parsed: Parsed, completeEnd: nat)

  /** The parser as a function of the bytes that are left. */
  function ScanFrom(f: Formats, p: Parsed, first: bool, at: nat, bytes: string): Option<Scan>
    decreases |bytes|
  {
    var k := FirstNewline(bytes);
    if k == |bytes| then Some(Scan(p, at)) else
      match f.parse(bytes[..k])
      case None => None
      case Some(r) =>
        if f.print_(r) != bytes[..k] then None else
          match Step(f, p, r, first, at)
          case None => None
          case Some(q) => ScanFrom(f, q, false, at + k + 1, bytes[k + 1..])
  }

  function ScanLog(f: Formats, bytes: string): Option<Scan> {
    ScanFrom(f, NOTHING, true, 0, bytes)
  }

  lemma StepKeepsHeader(f: Formats, p: Parsed, r: LogRecord, first: bool, at: nat)
    requires (first || p.header.Some?) && Step(f, p, r, first, at).Some?
    ensures Step(f, p, r, first, at).value.header.Some?
  {
  }

  /** Parses the line that ends at `rel` and takes in its record. */
  method TakeLine(f: Formats, p: Parsed, first: bool, at: nat, rest: string, rel: nat) returns (r: Result<Parsed, string>)
    requires rel < |rest| && rel == FirstNewline(rest)
    requires first || p.header.Some?
    ensures r.Err? ==> ScanFrom(f, p, first, at, rest).None?
    ensures r.Ok? ==> r.value.header.Some?
    ensures r.Ok? ==> ScanFrom(f, p, first, at, rest) == ScanFrom(f, r.value, false, at + rel + 1, rest[rel + 1..])
  {
    hide Step;
    var line := rest[..rel];
    var record := f.parse(line);
    if record.None? {
      return Err("observation log line does not parse");
    }
    if f.print_(record.value) != line {
      return Err("observation log line is not in canonical encoding");
    }
    var next := Step(f, p, record.value, first, at);
    if next.None? {
      return Err("observation log line is refused");
    }
    StepKeepsHeader(f, p, record.value, first, at);
    r := Ok(next.value);
  }

  /** The parser loop. `rest` is what is left of the bytes after `offset`. */
  method ParseLog(f: Formats, bytes: string) returns (r: Result<Scan, string>)
    ensures r.Ok? <==> ScanLog(f, bytes).Some?
    ensures r.Ok? ==> Some(r.value) == ScanLog(f, bytes)
  {
    var parsed, offset, first, rest := NOTHING, 0, true, bytes;
    while offset < |bytes|
      invariant offset + |rest| == |bytes|
      invariant ScanFrom(f, parsed, first, offset, rest) == ScanLog(f, bytes)
      invariant first || parsed.header.Some?
      invariant first ==> offset == 0
    {
      var rel := FirstNewline(rest);
      if rel == |rest| {
        break;
      }
      parsed :- TakeLine(f, parsed, first, offset, rest, rel);
      offset, first, rest := offset + rel + 1, false, rest[rel + 1..];
    }
    if parsed.header.None? && offset > 0 {
      return Err("observation log has no header");
    }
    r := Ok(Scan(parsed, offset));
  }

  lemma {:induction false} NoNewline(s: string)
    requires NewlineFree(s)
    ensures FirstNewline(s) == |s|
  {
    if s != "" {
      NoNewline(s[1..]);
    }
  }

  lemma {:induction false} FirstNewlineIn(u: string, x: string)
    requires NewlineFree(u)
    ensures FirstNewline(u + "\n" + x) == |u|
  {
    var s := u + "\n" + x;
    if u == "" {
      assert s[0] == '\n';
    } else {
      assert s[0] == u[0] && s[1..] == u[1..] + "\n" + x;
      FirstNewlineIn(u[1..], x);
    }
  }

  /** One complete line is one step. */
  lemma ScanLine(f: Formats, p: Parsed, first: bool, at: nat, r: LogRecord, rest: string)
    requires Lawful(f)
    ensures ScanFrom(f, p, first, at, Line(f, r) + rest)
         == match Step(f, p, r, first, at)
            case None => None
            case Some(q) => ScanFrom(f, q, false, at + |Line(f, r)|, rest)
  {
    hide Step;
    var u := f.print_(r);
    var bytes := u + "\n" + rest;
    assert PrintsBack(f, r);
    FirstNewlineIn(u, rest);
    assert bytes[..|u|] == u && bytes[|u| + 1..] == rest;
  }

  /** Scanning an encoding is replaying the records. */
  lemma {:induction false} ScanEncoded(f: Formats, p: Parsed, first: bool, at: nat, rs: seq<LogRecord>, tail: string)
    requires Lawful(f) && NewlineFree(tail)
    ensures ScanFrom(f, p, first, at, Encode(f, rs) + tail)
         == match ReplayFrom(f, p, first, at, rs)
            case None => None
            case Some(q) => Some(Scan(q, at + |Encode(f, rs)|))
    decreases |rs|
  {
    hide Step, Line;
    if rs == [] {
      assert Encode(f, rs) + tail == tail;
      NoNewline(tail);
    } else {
      Assoc(Line(f, rs[0]), Encode(f, rs[1..]), tail);
      ScanLine(f, p, first, at, rs[0], Encode(f, rs[1..]) + tail);
      var next := Step(f, p, rs[0], first, at);
      if next.Some? {
        ScanEncoded(f, next.value, false, at + |Line(f, rs[0])|, rs[1..], tail);
      }
    }
  }

  /** Whatever the scan accepts is an encoding of acceptable records and an unfinished line. */
  lemma {:induction false} ScanDecodes(f: Formats, p: Parsed, first: bool, at: nat, bytes: string)
    returns (rs: seq<LogRecord>, tail: string)
    requires ScanFrom(f, p, first, at, bytes).Some?
    ensures bytes == Encode(f, rs) + tail && NewlineFree(tail)
    ensures ReplayFrom(f, p, first, at, rs) == Some(ScanFrom(f, p, first, at, bytes).value.parsed)
    ensures ScanFrom(f, p, first, at, bytes).value.completeEnd == at + |Encode(f, rs)|
    decreases |bytes|
  {
    hide Step;
    var k := FirstNewline(bytes);
    if k == |bytes| {
      rs, tail := [], bytes;
      assert bytes == bytes[..k];
    } else {
      var r := f.parse(bytes[..k]).value;
      var q := Step(f, p, r, first, at).value;
      var more;
      more, tail := ScanDecodes(f, q, false, at + k + 1, bytes[k + 1..]);
      rs := [r] + more;
      assert rs[1..] == more;
      assert bytes == bytes[..k] + "\n" + bytes[k + 1..];
    }
  }

  /** The parser accepts exactly the encodings of replayable record sequences, plus a torn tail. */
  lemma AcceptsExactly(f: Formats, bytes: string)
    requires Lawful(f)
    ensures ScanLog(f, bytes).Some? <==>
      exists rs, tail :: bytes == Encode(f, rs) + tail && NewlineFree(tail) && Replay(f, rs).Some?
  {
    if ScanLog(f, bytes).Some? {
      var rs, tail := ScanDecodes(f, NOTHING, true, 0, bytes);
      assert bytes == Encode(f, rs) + tail && Replay(f, rs).Some?;
    }
    forall rs, tail | bytes == Encode(f, rs) + tail && NewlineFree(tail) && Replay(f, rs).Some?
      ensures ScanLog(f, bytes).Some?
    {
      ScanEncoded(f, NOTHING, true, 0, rs, tail);
    }
  }

  lemma LineSplit(u: string, x: string, v: string, y: string)
    requires NewlineFree(u) && NewlineFree(v) && u + "\n" + x == v + "\n" + y
    ensures u == v && x == y
  {
    FirstNewlineIn(u, x);
    FirstNewlineIn(v, y);
    assert u + "\n" + x == u + ("\n" + x) && v + "\n" + y == v + ("\n" + y);
    SplitEqual(u, "\n" + x, v, "\n" + y);
    SplitEqual("\n", x, "\n", y);
  }

  /** An encoding that starts another encoding consists of its first records. */
  lemma {:induction false} EncodePrefix(f: Formats, a: seq<LogRecord>, x: string, b: seq<LogRecord>)
    requires Lawful(f) && Encode(f, a) + x == Encode(f, b)
    ensures a <= b && x == Encode(f, b[|a|..])
    decreases |a|
  {
    if a == [] {
      assert Encode(f, a) + x == x && b[0..] == b;
    } else {
      assert b != [];
      var u, v := f.print_(a[0]), f.print_(b[0]);
      assert PrintsBack(f, a[0]) && PrintsBack(f, b[0]);
      assert Encode(f, a) + x == u + "\n" + (Encode(f, a[1..]) + x);
      assert Encode(f, b) == v + "\n" + Encode(f, b[1..]);
      LineSplit(u, Encode(f, a[1..]) + x, v, Encode(f, b[1..]));
      EncodePrefix(f, a[1..], x, b[1..]);
      assert a == [a[0]] + a[1..] && b == [b[0]] + b[1..];
      assert b[|a|..] == b[1..][|a[1..]|..];
    }
  }

  lemma {:induction false} EncodeAppend(f: Formats, a: seq<LogRecord>, b: seq<LogRecord>)
    ensures Encode(f, a + b) == Encode(f, a) + Encode(f, b)
  {
    hide Line;
    if a == [] {
      assert a + b == b;
    } else {
      EncodeAppend(f, a[1..], b);
      assert (a + b)[1..] == a[1..] + b && (a + b)[0] == a[0];
      Assoc(Line(f, a[0]), Encode(f, a[1..]), Encode(f, b));
    }
  }

  lemma EncodeOne(f: Formats, a: seq<LogRecord>, r: LogRecord)
    ensures Encode(f, a + [r]) == Encode(f, a) + Line(f, r)
  {
    EncodeAppend(f, a, [r]);
    assert Encode(f, [r]) == Line(f, r) + Encode(f, []);
  }

  lemma {:induction false} ReplayAppend(f: Formats, p: Parsed, first: bool, at: nat, a: seq<LogRecord>, b: seq<LogRecord>)
    ensures ReplayFrom(f, p, first, at, a + b)
         == match ReplayFrom(f, p, first, at, a)
            case None => None
            case Some(q) => ReplayFrom(f, q, first && a == [], at + |Encode(f, a)|, b)
    decreases |a|
  {
    if a == [] {
      assert a + b == b;
    } else {
      assert (a + b)[1..] == a[1..] + b && (a + b)[0] == a[0];
      var next := Step(f, p, a[0], first, at);
      if next.Some? {
        ReplayAppend(f, next.value, false, at + |Line(f, a[0])|, a[1..], b);
      }
    }
  }

  /** Replaying one more record is one step from where the replay stood. */
  lemma ReplayOne(f: Formats, a: seq<LogRecord>, r: LogRecord)
    requires Replay(f, a).Some?
    ensures Replay(f, a + [r]) == Step(f, Replay(f, a).value, r, a == [], |Encode(f, a)|)
  {
    ReplayAppend(f, NOTHING, true, 0, a, [r]);
    var next := Step(f, Replay(f, a).value, r, a == [], |Encode(f, a)|);
    if next.Some? {
      assert [r][1..] == [];
    }
  }

  lemma ReplayPrefix(f: Formats, a: seq<LogRecord>, b: seq<LogRecord>)
    requires Replay(f, a + b).Some?
    ensures Replay(f, a).Some?
  {
    ReplayAppend(f, NOTHING, true, 0, a, b);
  }

  /** Nothing follows a seal. */
  lemma SealIsLast(f: Formats, a: seq<LogRecord>, b: seq<LogRecord>)
    requires Replay(f, a).Some? && Replay(f, a).value.seal.Some? && Replay(f, a + b).Some?
    ensures b == []
  {
    ReplayAppend(f, NOTHING, true, 0, a, b);
  }

  /** A sealed replay ends with the seal. */
  lemma SealedEndsWithSeal(f: Formats, rs: seq<LogRecord>)
    requires Replay(f, rs).Some? && Replay(f, rs).value.seal.Some?
    ensures rs != [] && rs[|rs| - 1].Sealing?
    ensures Replay(f, rs).value.seal == Some((rs[|rs| - 1].seal, |Encode(f, rs[..|rs| - 1])|))
    ensures Replay(f, rs[..|rs| - 1]).Some? && Replay(f, rs[..|rs| - 1]).value.seal.None?
  {
    if rs == [] {
      assert false;
    }
    var a, r := rs[..|rs| - 1], rs[|rs| - 1];
    assert rs == a + [r];
    ReplayPrefix(f, a, [r]);
    ReplayOne(f, a, r);
  }
}
