/** What accepted records and accepted observation logs look like, without the code's own predicates. */
module CanaryShape {
  import opened Wrappers
  import opened Bytes
  import opened Canary
  import opened CanaryLog
  import opened CanaryWriter

  /** Sixty-four characters of 0-9 and a-f. */
  ghost predicate LowerHex(s: string) {
    |s| == 64 && forall c :: c in s ==> c in "0123456789abcdef"
  }

  lemma HexPlainly(s: string)
    ensures IsHexDigest(s) <==> LowerHex(s)
  {
    forall c: char ensures IsHexChar(c) <==> c in "0123456789abcdef" {
      HexCharPlainly(c);
    }
  }

  lemma HexCharPlainly(c: char)
    ensures IsHexChar(c) <==> c in "0123456789abcdef"
  {
    var digits := "0123456789abcdef";
    if IsHexChar(c) {
      var k := if c <= '9' then c as int - 48 else c as int - 87;
      assert 0 <= k < 16 && digits[k] == c;
    }
  }

  /** An observation has an id made from its coordinates, and names the digest of its output wherever
      there was one. */
  ghost predicate Coherent(h: Hash, o: Observation) {
    && o.recordVersion == 2
    && !IsBlank(o.generationId) && !IsBlank(o.requestId)
    && LowerHex(o.requestDigest) && LowerHex(o.workloadDigest) && LowerHex(o.executableDigest)
    && (o.resultDigest.Some? ==> LowerHex(o.resultDigest.value))
    && (o.status in {VerifiedSuccess, WrongResult} ==> o.resultDigest.Some?)
    && o.observationId == ObservationId(h, o.generationId, o.requestId, o.requestDigest)
  }

  lemma ValidIsCoherent(h: Hash, o: Observation)
    ensures ObservationValid(h, o) <==> Coherent(h, o)
  {
    hide IsHexDigest, LowerHex, IsBlank, ObservationId;
    HexPlainly(o.requestDigest);
    HexPlainly(o.workloadDigest);
    HexPlainly(o.executableDigest);
    if o.resultDigest.Some? {
      HexPlainly(o.resultDigest.value);
    }
  }

  ghost predicate Opens(h: LogHeader) {
    h.version == 1 && !IsBlank(h.generationId) && LowerHex(h.workloadDigest) && LowerHex(h.executableDigest)
  }

  lemma ValidOpens(h: LogHeader)
    ensures HeaderValid(h) <==> Opens(h)
  {
    hide IsHexDigest, LowerHex, IsBlank;
    HexPlainly(h.workloadDigest);
    HexPlainly(h.executableDigest);
  }

  /** The record at position `i` is in its place: the header first and only there, a seal last, and in
      between coherent observations of the generation, workload and executable of the header, with
      their own digests. An id that comes again comes with the same digest. */
  ghost predicate InPlace(f: Formats, rs: seq<LogRecord>, i: int)
    requires 0 <= i < |rs|
  {
    match rs[i]
    case Header(h) => i == 0 && Opens(h)
    case Observed(o, digest) =>
      && i > 0 && rs[0].Header? && Coherent(f.hash, o) && digest == ObservationDigest(f.hash, f.printers, o)
      && o.generationId == rs[0].header.generationId && o.workloadDigest == rs[0].header.workloadDigest
      && o.executableDigest == rs[0].header.executableDigest
      && (forall j :: 0 <= j < i && rs[j].Observed? && rs[j].observation.observationId == o.observationId ==> rs[j].digest == digest)
    case Rejected(_) => i > 0
    case Sealing(_) => 0 < i == |rs| - 1
  }

  ghost predicate AllInPlace(f: Formats, rs: seq<LogRecord>) {
    forall i :: 0 <= i < |rs| ==> InPlace(f, rs, i)
  }

  ghost predicate EndsSealed(rs: seq<LogRecord>) {
    rs != [] && rs[|rs| - 1].Sealing?
  }

  lemma InPlaceSplit(f: Formats, a: seq<LogRecord>, r: LogRecord)
    ensures AllInPlace(f, a + [r]) <==> AllInPlace(f, a) && !EndsSealed(a) && InPlace(f, a + [r], |a|)
  {
    hide Opens, Coherent;
    var rs := a + [r];
    assert forall j :: 0 <= j < |a| ==> rs[j] == a[j];
    forall i | 0 <= i < |a|
      ensures InPlace(f, rs, i) ==> InPlace(f, a, i)
      ensures InPlace(f, a, i) && !EndsSealed(a) ==> InPlace(f, rs, i)
    {
    }
    if EndsSealed(a) {
      assert !InPlace(f, rs, |a| - 1);
    }
  }

  /** What the parser remembers of the records so far. */
  ghost predicate Recalls(p: Parsed, rs: seq<LogRecord>) {
    && (if rs == [] then p.header.None? else rs[0].Header? && p.header == Some(rs[0].header))
    && (p.seal.Some? <==> EndsSealed(rs))
    && (forall i :: 0 <= i < |rs| && rs[i].Observed? ==> SeenWith(p, rs[i]))
    && (forall id :: id in p.seen ==> SeenIn(rs, id))
  }

  ghost predicate SeenWith(p: Parsed, r: LogRecord)
    requires r.Observed?
  {
    r.observation.observationId in p.seen && p.seen[r.observation.observationId] == r.digest
  }

  ghost predicate SeenIn(rs: seq<LogRecord>, id: string) {
    exists i :: 0 <= i < |rs| && rs[i].Observed? && rs[i].observation.observationId == id
  }

  lemma RecallsSameId(p: Parsed, a: seq<LogRecord>, id: string, digest: string)
    requires Recalls(p, a)
    ensures (forall j :: 0 <= j < |a| && a[j].Observed? && a[j].observation.observationId == id ==> a[j].digest == digest) <==>
      (id in p.seen ==> p.seen[id] == digest)
  {
    if id in p.seen {
      assert SeenIn(a, id);
      var i :| 0 <= i < |a| && a[i].Observed? && a[i].observation.observationId == id;
      assert SeenWith(p, a[i]);
    }
    forall j | 0 <= j < |a| && a[j].Observed? && a[j].observation.observationId == id ensures SeenWith(p, a[j]) {
    }
  }

  /** One more record is accepted exactly when it is in its place. */
  lemma StepInPlace(f: Formats, p: Parsed, a: seq<LogRecord>, r: LogRecord, at: nat)
    requires Recalls(p, a)
    ensures Step(f, p, r, a == [], at).Some? <==> !EndsSealed(a) && InPlace(f, a + [r], |a|)
  {
    hide Opens, Coherent, HeaderValid, ObservationValid;
    var rs := a + [r];
    assert forall j :: 0 <= j < |a| ==> rs[j] == a[j];
    match r
    case Header(h) => ValidOpens(h);
    case Observed(o, digest) =>
      ValidIsCoherent(f.hash, o);
      RecallsSameId(p, a, o.observationId, digest);
    case Rejected(_) =>
    case Sealing(_) =>
  }

  lemma StepRecalls(f: Formats, p: Parsed, a: seq<LogRecord>, r: LogRecord, at: nat)
    requires Recalls(p, a) && Step(f, p, r, a == [], at).Some?
    ensures Recalls(Step(f, p, r, a == [], at).value, a + [r])
  {
    hide HeaderValid, ObservationValid, Bound;
    var q, rs := Step(f, p, r, a == [], at).value, a + [r];
    assert forall j :: 0 <= j < |a| ==> rs[j] == a[j];
    assert rs[|a|] == r;
    forall id | id in q.seen ensures SeenIn(rs, id) {
      if id in p.seen {
        var i :| 0 <= i < |a| && a[i].Observed? && a[i].observation.observationId == id;
        assert rs[i].Observed? && rs[i].observation.observationId == id;
      }
    }
  }

  /** The parser takes in exactly the lists whose records are all in their place. */
  lemma {:induction false} ReplayExactly(f: Formats, rs: seq<LogRecord>)
    ensures Replay(f, rs).Some? <==> AllInPlace(f, rs)
    ensures Replay(f, rs).Some? ==> Recalls(Replay(f, rs).value, rs)
    decreases |rs|
  {
    hide Step, InPlace;
    if rs != [] {
      var a, r := rs[..|rs| - 1], rs[|rs| - 1];
      assert rs == a + [r];
      ReplayExactly(f, a);
      InPlaceSplit(f, a, r);
      if Replay(f, a).Some? {
        ReplayOne(f, a, r);
        StepInPlace(f, Replay(f, a).value, a, r, |Encode(f, a)|);
        if Replay(f, rs).Some? {
          StepRecalls(f, Replay(f, a).value, a, r, |Encode(f, a)|);
        }
      } else if Replay(f, rs).Some? {
        ReplayPrefix(f, a, [r]);
        assert false;
      }
    }
  }

  lemma IdentityPlainly(id: Identity)
    ensures IdentityValid(id) <==>
      && id.version == 1 && LowerHex(id.patchDigest) && LowerHex(id.treeDigest) && LowerHex(id.executableDigest)
      && !IsBlank(id.generationId)
  {
    hide IsHexDigest, LowerHex, IsBlank;
    HexPlainly(id.patchDigest);
    HexPlainly(id.treeDigest);
    HexPlainly(id.executableDigest);
  }

  /** The positions of the measured successes. */
  ghost function Successes(os: seq<Observation>): set<nat> {
    set i: nat | i < |os| && os[i].provenance == Measured && os[i].status == VerifiedSuccess && os[i].resultDigest.Some?
  }

  lemma {:induction false} QualifyingCounts(os: seq<Observation>)
    ensures Qualifying(os) == |Successes(os)|
  {
    if os != [] {
      var n := |os| - 1;
      QualifyingCounts(os[..n]);
      if n in Successes(os) {
        assert Successes(os) == Successes(os[..n]) + {n};
      } else {
        assert Successes(os) == Successes(os[..n]);
      }
    }
  }

  /** The seal of an accepted file counts its observations and the measured successes among them. */
  lemma SealCounts(f: Formats, bytes: string)
    requires Verify(f, bytes).Some?
    ensures var log := Verify(f, bytes).value;
      log.seal.observationCount == |log.observations| && log.seal.qualifyingCount == |Successes(log.observations)|
  {
    hide ScanLog, LogDigestOf;
    QualifyingCounts(Verify(f, bytes).value.observations);
  }
}
