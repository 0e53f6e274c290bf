/** Version 1 canary observations: the canonical text of a record and the production quota over
    them. A string is its Unicode characters, and a digest is taken of the text. */
module CanaryObservationV1 {
  import opened Wrappers
  import opened Bytes
  import opened Decimal
  import opened Escaping

  datatype Provenance = Measured | Synthetic

  datatype Observation = Observation(
    observationId: string, observedAt: nat, candidateDigest: string, latencyUs: nat, status: string, provenance: Provenance)

  /** The Unicode category Cc. */
  predicate IsControl(c: char) {
    c as nat < 32 || 127 <= c as nat < 160
  }

  /** The Unicode property White_Space. */
  predicate IsSpace(c: char) {
    || 9 <= c as nat <= 13 || c as nat == 32 || c as nat == 0x85 || c as nat == 0xA0 || c as nat == 0x1680
    || 0x2000 <= c as nat <= 0x200A || c as nat == 0x2028 || c as nat == 0x2029 || c as nat == 0x202F
    || c as nat == 0x205F || c as nat == 0x3000
  }

  predicate IsBlank(s: string) {
    forall i :: 0 <= i < |s| ==> IsSpace(s[i])
  }

  /** A backslash and a quote stand behind a backslash. */
  function ShortEscape(c: char): Option<char> {
    if c == '\\' || c == '\"' then Some(c) else None
  }

  function Code(c: char): string {
    EscapeChar(ShortEscape, IsControl, c)
  }

  lemma CodeSeparates()
    ensures Separates(Code)
  {
    EscapeSeparates(ShortEscape, IsControl, Code);
  }

  ghost predicate Visible(c: char) {
    c as nat >= 32 && !(127 <= c as nat <= 159)
  }

  /** Nothing but visible characters is ever written. */
  lemma {:induction false} EscapedIsVisible(s: string)
    ensures forall i :: 0 <= i < |EscapeWith(Code, s)| ==> Visible(EscapeWith(Code, s)[i])
  {
    if s != "" {
      EscapedIsVisible(s[1..]);
      var c := Code(s[0]);
      assert forall i :: 0 <= i < |c| ==> Visible(c[i]);
    }
  }

  /** Visible text without backslash and quote is written as it is. */
  lemma {:induction false} VisibleIsKept(s: string)
    requires forall i :: 0 <= i < |s| ==> Visible(s[i]) && s[i] != '\\' && s[i] != '\"'
    ensures EscapeWith(Code, s) == s
  {
    if s != "" {
      VisibleIsKept(s[1..]);
      assert s == [s[0]] + s[1..];
    }
  }

  /** A text with one visible ASCII character other than the space is not blank, and nothing but ASCII
      white space is. */
  lemma BlankPlainly(s: string)
    ensures IsBlank(s) ==> forall i :: 0 <= i < |s| && s[i] as nat < 128 ==> s[i] as nat == 32 || 9 <= s[i] as nat <= 13
    ensures (forall i :: 0 <= i < |s| ==> s[i] as nat == 32 || 9 <= s[i] as nat <= 13) ==> IsBlank(s)
  {
  }

  /** The escaping loop. */
  method JsonString(value: string) returns (out: string)
    ensures out == EscapeWith(Code, value)
  {
    out := "";
    for i := 0 to |value|
      invariant out + EscapeWith(Code, value[i..]) == EscapeWith(Code, value)
    {
      assert value[i..][0] == value[i] && value[i..][1..] == value[i + 1..];
      Assoc(out, Code(value[i]), EscapeWith(Code, value[i + 1..]));
      out := out + Code(value[i]);
    }
    assert value[|value|..] == "";
  }

  function ProvenanceName(p: Provenance): string {
    match p
    case Measured => "measured"
    case Synthetic => "synthetic"
  }

  /** One JSON object, keys in alphabetical order, no whitespace. The text is built from the right, so
      that every part stands in front of what follows it. */
  function CanonicalText(o: Observation): string {
    "{\"candidate_digest\":\"" + (EscapeWith(Code, o.candidateDigest) + ("\"" + AfterDigest(o)))
  }

  function AfterDigest(o: Observation): string {
    ",\"latency_us\":" + (Digits(o.latencyUs) + AfterLatency(o))
  }

  function AfterLatency(o: Observation): string {
    ",\"observation_id\":\"" + (EscapeWith(Code, o.observationId) + ("\"" + AfterId(o)))
  }

  function AfterId(o: Observation): string {
    ",\"observed_at_ms\":" + (Digits(o.observedAt) + AfterTime(o))
  }

  function AfterTime(o: Observation): string {
    ",\"provenance\":\"" + (ProvenanceName(o.provenance) + ("\",\"status\":\"" + (EscapeWith(Code, o.status) + ("\"" + "}"))))
  }

  lemma SameStart(a: string, x: string, y: string)
    requires a + x == a + y
    ensures x == y
  {
    SplitEqual(a, x, a, y);
  }

  lemma AfterTimeUnique(a: Observation, b: Observation)
    requires AfterTime(a) == AfterTime(b)
    ensures a.provenance == b.provenance && a.status == b.status
  {
    var p, q := "\",\"status\":\"" + (EscapeWith(Code, a.status) + ("\"" + "}")), "\",\"status\":\"" + (EscapeWith(Code, b.status) + ("\"" + "}"));
    SameStart(",\"provenance\":\"", ProvenanceName(a.provenance) + p, ProvenanceName(b.provenance) + q);
    assert (ProvenanceName(a.provenance) + p)[0] == ProvenanceName(a.provenance)[0];
    assert (ProvenanceName(b.provenance) + q)[0] == ProvenanceName(b.provenance)[0];
    SameStart(ProvenanceName(a.provenance), p, q);
    SameStart("\",\"status\":\"", EscapeWith(Code, a.status) + ("\"" + "}"), EscapeWith(Code, b.status) + ("\"" + "}"));
    CodeSeparates();
    EscapeUnique(Code, a.status, "}", b.status, "}");
  }

  lemma AfterLatencyUnique(a: Observation, b: Observation)
    requires AfterLatency(a) == AfterLatency(b)
    ensures a.observationId == b.observationId && a.observedAt == b.observedAt && a.provenance == b.provenance && a.status == b.status
  {
    SameStart(",\"observation_id\":\"", EscapeWith(Code, a.observationId) + ("\"" + AfterId(a)), EscapeWith(Code, b.observationId) + ("\"" + AfterId(b)));
    CodeSeparates();
    EscapeUnique(Code, a.observationId, AfterId(a), b.observationId, AfterId(b));
    SameStart(",\"observed_at_ms\":", Digits(a.observedAt) + AfterTime(a), Digits(b.observedAt) + AfterTime(b));
    DigitsUnique(a.observedAt, AfterTime(a), b.observedAt, AfterTime(b));
    AfterTimeUnique(a, b);
  }

  /** The canonical text determines the record: whatever the strings contain, no field can pass for
      another. */
  lemma CanonicalTextUnique(a: Observation, b: Observation)
    requires CanonicalText(a) == CanonicalText(b)
    ensures a == b
  {
    SameStart("{\"candidate_digest\":\"", EscapeWith(Code, a.candidateDigest) + ("\"" + AfterDigest(a)), EscapeWith(Code, b.candidateDigest) + ("\"" + AfterDigest(b)));
    CodeSeparates();
    EscapeUnique(Code, a.candidateDigest, AfterDigest(a), b.candidateDigest, AfterDigest(b));
    SameStart(",\"latency_us\":", Digits(a.latencyUs) + AfterLatency(a), Digits(b.latencyUs) + AfterLatency(b));
    DigitsUnique(a.latencyUs, AfterLatency(a), b.latencyUs, AfterLatency(b));
    AfterLatencyUnique(a, b);
  }

  method CanonicalBytes(o: Observation) returns (text: string)
    ensures text == CanonicalText(o)
  {
    var candidate := JsonString(o.candidateDigest);
    var id := JsonString(o.observationId);
    var status := JsonString(o.status);
    var afterTime := ",\"provenance\":\"" + (ProvenanceName(o.provenance) + ("\",\"status\":\"" + (status + ("\"" + "}"))));
    var afterLatency := ",\"observation_id\":\"" + (id + ("\"" + (",\"observed_at_ms\":" + (Digits(o.observedAt) + afterTime))));
    text := "{\"candidate_digest\":\"" + (candidate + ("\"" + (",\"latency_us\":" + (Digits(o.latencyUs) + afterLatency))));
  }

  function DigestHex(h: Hash, o: Observation): Digest {
    h(CanonicalText(o))
  }

  /** What is asked of a single observation. */
  predicate Qualifies(candidateDigest: string, o: Observation) {
    !IsBlank(o.observationId) && !IsBlank(o.status) && o.candidateDigest == candidateDigest && o.provenance == Measured
  }

  ghost function IdSet(os: seq<Observation>): set<string> {
    set o | o in os :: o.observationId
  }

  /** No id stands for two different records. */
  ghost predicate NoConflict(h: Hash, os: seq<Observation>) {
    forall o, p :: o in os && p in os && o.observationId == p.observationId ==> DigestHex(h, o) == DigestHex(h, p)
  }

  ghost predicate AllQualify(candidateDigest: string, os: seq<Observation>) {
    forall o :: o in os ==> Qualifies(candidateDigest, o)
  }

  /** The exact condition of the quota. */
  ghost predicate Admitted(h: Hash, os: seq<Observation>, candidateDigest: string, target: nat) {
    target >= 1 && AllQualify(candidateDigest, os) && NoConflict(h, os) && |IdSet(os)| >= target
  }

  /** The first digest remembered under each id is that of every observation with that id. */
  ghost predicate Remembers(h: Hash, seen: map<string, string>, os: seq<Observation>) {
    seen.Keys == IdSet(os) && forall o :: o in os ==> o.observationId in seen && seen[o.observationId] == DigestHex(h, o)
  }

  lemma IdSetGrows(os: seq<Observation>, o: Observation)
    ensures IdSet(os + [o]) == IdSet(os) + {o.observationId}
  {
    assert o in os + [o];
  }

  lemma RemembersGrows(h: Hash, seen: map<string, string>, later: map<string, string>, os: seq<Observation>, o: Observation)
    requires Remembers(h, seen, os)
    requires if o.observationId in seen then later == seen && seen[o.observationId] == DigestHex(h, o) else later == seen[o.observationId := DigestHex(h, o)]
    ensures Remembers(h, later, os + [o])
  {
    IdSetGrows(os, o);
    forall p | p in os + [o] ensures p.observationId in later && later[p.observationId] == DigestHex(h, p) {
      if p in os {
        assert p.observationId in seen;
      }
    }
  }

  lemma RemembersNoConflict(h: Hash, seen: map<string, string>, os: seq<Observation>)
    requires Remembers(h, seen, os)
    ensures NoConflict(h, os)
  {
  }

  lemma ConflictFound(h: Hash, seen: map<string, string>, os: seq<Observation>, n: nat)
    requires n < |os| && Remembers(h, seen, os[..n]) && os[n].observationId in seen && seen[os[n].observationId] != DigestHex(h, os[n])
    ensures !NoConflict(h, os)
  {
    var p :| p in os[..n] && p.observationId == os[n].observationId;
    assert p in os && os[n] in os;
  }

  method CheckOne(candidateDigest: string, o: Observation) returns (r: Result<(), string>)
    ensures r.Ok? <==> Qualifies(candidateDigest, o)
  {
    if IsBlank(o.observationId) {
      return Err("observation id is required");
    }
    if IsBlank(o.status) {
      return Err("execution status is required");
    }
    if o.candidateDigest != candidateDigest {
      return Err("observation candidate digest does not match the candidate");
    }
    if o.provenance != Measured {
      return Err("synthetic rehearsal cannot satisfy the production canary quota");
    }
    r := Ok(());
  }

  lemma AllQualifyGrows(candidateDigest: string, os: seq<Observation>, n: nat)
    requires n < |os|
    ensures os[..n + 1] == os[..n] + [os[n]]
    ensures AllQualify(candidateDigest, os[..n + 1]) <==> AllQualify(candidateDigest, os[..n]) && Qualifies(candidateDigest, os[n])
    ensures AllQualify(candidateDigest, os) ==> Qualifies(candidateDigest, os[n])
  {
    assert os[..n + 1] == os[..n] + [os[n]];
    assert os[n] in os[..n + 1];
  }

  lemma RemembersKeys(h: Hash, seen: map<string, string>, os: seq<Observation>)
    requires Remembers(h, seen, os)
    ensures seen.Keys == IdSet(os)
  {
  }

  lemma OneMoreKey(seen: map<string, string>, id: string, digest: string)
    requires id !in seen
    ensures |seen[id := digest].Keys| == |seen.Keys| + 1
  {
    assert seen[id := digest].Keys == seen.Keys + {id};
  }

  /** Takes in observation `n`: a known id must carry the same digest and is not counted again. */
  method CountOne(h: Hash, os: seq<Observation>, n: nat, seen: map<string, string>, counted: nat)
    returns (r: Result<(map<string, string>, nat), string>)
    requires n < |os| && Remembers(h, seen, os[..n]) && counted == |seen.Keys|
    ensures r.Err? ==> !NoConflict(h, os)
    ensures r.Ok? ==> Remembers(h, r.value.0, os[..n] + [os[n]]) && r.value.1 == |r.value.0.Keys|
  {
    RemembersKeys(h, seen, os[..n]);
    hide Remembers, NoConflict, DigestHex;
    var o := os[n];
    var digest := DigestHex(h, o);
    if o.observationId in seen {
      if seen[o.observationId] != digest {
        ConflictFound(h, seen, os, n);
        return Err("observation id conflicts with a different record");
      }
      RemembersGrows(h, seen, seen, os[..n], o);
      return Ok((seen, counted));
    }
    var later := seen[o.observationId := digest];
    RemembersGrows(h, seen, later, os[..n], o);
    OneMoreKey(seen, o.observationId, digest);
    return Ok((later, counted + 1));
  }

  method AdmitProductionQuota(h: Hash, os: seq<Observation>, candidateDigest: string, target: nat) returns (r: Result<nat, string>)
    ensures r.Ok? <==> Admitted(h, os, candidateDigest, target)
    ensures r.Ok? ==> r.value == |IdSet(os)|
  {
    hide DigestHex, Qualifies, AllQualify, NoConflict;
    if target == 0 {
      return Err("production canary quota target must be at least 1");
    }
    var seen: map<string, string> := map[];
    var counted := 0;
    NothingYet(h, os, candidateDigest);
    for i := 0 to |os|
      invariant Remembers(h, seen, os[..i]) && counted == |seen.Keys|
      invariant AllQualify(candidateDigest, os[..i])
    {
      AllQualifyGrows(candidateDigest, os, i);
      var _ :- CheckOne(candidateDigest, os[i]);
      var next :- CountOne(h, os, i, seen, counted);
      seen, counted := next.0, next.1;
    }
    assert os[..|os|] == os;
    RemembersNoConflict(h, seen, os);
    if counted < target {
      return Err("production canary quota requires more measured observations");
    }
    r := Ok(counted);
  }

  lemma NothingYet(h: Hash, os: seq<Observation>, candidateDigest: string)
    ensures Remembers(h, map[], os[..0]) && AllQualify(candidateDigest, os[..0])
  {
  }

  lemma FewerNoConflict(h: Hash, a: seq<Observation>, b: seq<Observation>)
    requires NoConflict(h, a) && forall o :: o in b ==> o in a
    ensures NoConflict(h, b)
  {
    hide DigestHex;
  }

  /** Order and repetition do not matter: the decision and the count depend on which records there are. */
  lemma QuotaIgnoresOrder(h: Hash, a: seq<Observation>, b: seq<Observation>, candidateDigest: string, target: nat)
    requires forall o :: o in a <==> o in b
    ensures Admitted(h, a, candidateDigest, target) <==> Admitted(h, b, candidateDigest, target)
    ensures IdSet(a) == IdSet(b)
  {
    if NoConflict(h, a) { FewerNoConflict(h, a, b); }
    if NoConflict(h, b) { FewerNoConflict(h, b, a); }
    assert IdSet(a) == IdSet(b);
    assert AllQualify(candidateDigest, a) <==> AllQualify(candidateDigest, b);
  }

  /** When digests do not collide an admitted list has one record for each id. */
  lemma AdmittedIdsAreRecords(h: Hash, os: seq<Observation>, candidateDigest: string, target: nat, o: Observation, p: Observation)
    requires Admitted(h, os, candidateDigest, target) && o in os && p in os && o.observationId == p.observationId
    requires CollisionFree(h, {CanonicalText(o), CanonicalText(p)})
    ensures o == p
  {
    CanonicalTextUnique(o, p);
  }
}
