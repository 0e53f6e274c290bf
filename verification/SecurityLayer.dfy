/** The content checks on a candidate: protected files, secret signatures and network primitives in
    the lines of a patch that the gate scans. */
module SecurityLayer {
  import opened Paths
  import opened RootOfTrust

  const SECRET_SIGNATURES: seq<string> := [
    "AKIA", "gh" + "p_", "github" + "_pat_", "xox" + "b-", "xox" + "p-", "-----BEGIN " + "PRIVATE KEY-----",
    "-----BEGIN " + "RSA PRIVATE KEY-----", "-----BEGIN " + "OPENSSH PRIVATE KEY-----", "eyJhbGciOi"]

  const NETWORK_RISK_PATTERNS: seq<string> := [
    "std::net::TcpStream::connect", "std::net::TcpListener::bind", "reqwest::Client::new", "curl http", "wget http"]

  predicate At(text: string, p: string, i: nat) {
    i + |p| <= |text| && text[i..i + |p|] == p
  }

  predicate Contains(text: string, p: string) {
    exists i: nat | i <= |text| :: At(text, p, i)
  }

  function WithoutReturn(line: string): string {
    if line != "" && line[|line| - 1] == '\r' then line[..|line| - 1] else line
  }

  /** The lines of a text; the last one may lack its line break. */
  function Lines(text: string): seq<string> {
    var parts := Split(text, '\n');
    var n := |parts| - 1;
    seq(n, i requires 0 <= i < n => WithoutReturn(parts[i])) + if parts[n] == "" then [] else [parts[n]]
  }

  /** The lines the gate takes for added ones: a mark that is not the start of a file header. */
  predicate IsScanned(line: string) {
    "+" <= line && !("+++" <= line)
  }

  /** The scanned lines, without their mark. */
  function ScannedText(lines: seq<string>): string {
    if lines == [] then ""
    else if IsScanned(lines[0]) then lines[0][1..] + "\n" + ScannedText(lines[1..])
    else ScannedText(lines[1..])
  }

  /** Collects what is scanned of a patch. */
  method CollectScanned(patch: string) returns (scanned: string)
    ensures scanned == ScannedText(Lines(patch))
  {
    var lines := Lines(patch);
    scanned := "";
    for i := 0 to |lines|
      invariant scanned + ScannedText(lines[i..]) == ScannedText(lines)
    {
      assert lines[i..][0] == lines[i] && lines[i..][1..] == lines[i + 1..];
      if IsScanned(lines[i]) {
        Reassociate(scanned, lines[i][1..] + "\n", ScannedText(lines[i + 1..]));
        scanned := scanned + (lines[i][1..] + "\n");
      }
    }
    assert scanned + ScannedText(lines[|lines|..]) == scanned;
  }

  lemma Reassociate(a: string, b: string, c: string)
    ensures a + b + c == a + (b + c)
  {
  }

  lemma BreakInside(text: string, p: string, i: nat, n: nat)
    requires At(text, p, i) && i <= n < i + |p|
    ensures text[n] in p
  {
    assert text[i..i + |p|][n - i] == text[n];
  }

  lemma AtLeft(a: string, b: string, p: string, i: nat)
    requires i + |p| <= |a|
    ensures At(a + b, p, i) <==> At(a, p, i)
  {
    assert (a + b)[i..i + |p|] == a[i..i + |p|];
  }

  lemma AtRight(a: string, b: string, p: string, i: nat)
    ensures At(a + b, p, |a| + i) <==> At(b, p, i)
  {
    if i + |p| <= |b| {
      assert (a + b)[|a| + i..|a| + i + |p|] == b[i..i + |p|];
    }
  }

  lemma AtFits(text: string, p: string, i: nat)
    requires At(text, p, i)
    ensures i + |p| <= |text|
  {
  }

  /** What has no line break is found on one side of a line break. */
  lemma ContainsAcross(a: string, b: string, p: string)
    requires p != "" && '\n' !in p
    ensures Contains(a + "\n" + b, p) <==> Contains(a, p) || Contains(b, p)
  {
    hide At;
    var text, n := a + "\n" + b, |a|;
    assert text == a + ("\n" + b) && text[n] == '\n';
    if Contains(a, p) {
      var i: nat :| i <= n && At(a, p, i);
      AtFits(a, p, i);
      AtLeft(a, "\n" + b, p, i);
    }
    if Contains(b, p) {
      var i: nat :| i <= |b| && At(b, p, i);
      AtRight(a + "\n", b, p, i);
    }
    if Contains(text, p) {
      var i: nat :| i <= |text| && At(text, p, i);
      AtFits(text, p, i);
      if i + |p| <= n {
        AtLeft(a, "\n" + b, p, i);
      } else if i <= n {
        BreakInside(text, p, i, n);
      } else {
        AtRight(a + "\n", b, p, i - n - 1);
      }
    }
  }

  /** A scanned line holds p. */
  ghost predicate ScannedHolds(lines: seq<string>, p: string) {
    exists i :: 0 <= i < |lines| && ScannedHoldsAt(lines[i], p)
  }

  ghost predicate ScannedHoldsAt(line: string, p: string) {
    IsScanned(line) && Contains(line[1..], p)
  }

  lemma ScannedFirst(lines: seq<string>, p: string)
    requires lines != []
    ensures ScannedHolds(lines, p) <==> ScannedHoldsAt(lines[0], p) || ScannedHolds(lines[1..], p)
  {
    hide ScannedHoldsAt;
    if ScannedHolds(lines, p) {
      var i :| 0 <= i < |lines| && ScannedHoldsAt(lines[i], p);
      if i > 0 { assert lines[1..][i - 1] == lines[i]; }
    }
    if ScannedHolds(lines[1..], p) {
      var i :| 0 <= i < |lines| - 1 && ScannedHoldsAt(lines[1..][i], p);
      assert lines[i + 1] == lines[1..][i];
    }
  }

  /** Searching the collected text is searching the scanned lines one by one. */
  lemma {:induction false} FoundInOneLine(lines: seq<string>, p: string)
    requires p != "" && '\n' !in p
    ensures Contains(ScannedText(lines), p) <==> ScannedHolds(lines, p)
    decreases |lines|
  {
    if lines != [] {
      FoundInOneLine(lines[1..], p);
      ScannedFirst(lines, p);
      if IsScanned(lines[0]) {
        ContainsAcross(lines[0][1..], ScannedText(lines[1..]), p);
      }
    }
  }

  ghost predicate NoneIn(text: string, patterns: seq<string>) {
    forall i :: 0 <= i < |patterns| ==> !Contains(text, patterns[i])
  }

  /** No scanned line holds any of the patterns. */
  ghost predicate NoneScanned(patch: string, patterns: seq<string>) {
    forall i :: 0 <= i < |patterns| ==> !ScannedHolds(Lines(patch), patterns[i])
  }

  lemma NoneInScanned(patch: string, patterns: seq<string>)
    requires forall i :: 0 <= i < |patterns| ==> patterns[i] != "" && '\n' !in patterns[i]
    ensures NoneIn(ScannedText(Lines(patch)), patterns) <==> NoneScanned(patch, patterns)
  {
    forall i | 0 <= i < |patterns| ensures Contains(ScannedText(Lines(patch)), patterns[i]) <==> ScannedHolds(Lines(patch), patterns[i]) {
      FoundInOneLine(Lines(patch), patterns[i]);
    }
  }

  lemma SignaturesAreText()
    ensures forall i :: 0 <= i < |SECRET_SIGNATURES| ==> SECRET_SIGNATURES[i] != "" && '\n' !in SECRET_SIGNATURES[i]
  {
  }

  lemma NetworkPatternsAreText()
    ensures forall i :: 0 <= i < |NETWORK_RISK_PATTERNS| ==> NETWORK_RISK_PATTERNS[i] != "" && '\n' !in NETWORK_RISK_PATTERNS[i]
  {
  }

  datatype SecurityEvaluation = SecurityEvaluation(
    rootOfTrustCompliant: bool, zeroDiskSecretsClean: bool, networkIsolationCompliant: bool, passed: bool, violations: seq<string>)

  function CommaSeparated(parts: seq<string>): string {
    if parts == [] then ""
    else if |parts| == 1 then parts[0]
    else parts[0] + ", " + CommaSeparated(parts[1..])
  }

  /** Names every pattern that the text holds. */
  method ScanPatterns(text: string, patterns: seq<string>, what: string) returns (clean: bool, violations: seq<string>)
    ensures clean <==> NoneIn(text, patterns)
    ensures clean <==> violations == []
  {
    hide Contains;
    clean, violations := true, [];
    for i := 0 to |patterns|
      invariant clean <==> forall k :: 0 <= k < i ==> !Contains(text, patterns[k])
      invariant clean <==> violations == []
    {
      if Contains(text, patterns[i]) {
        violations := violations + [what + patterns[i]];
        clean := false;
      }
    }
  }

  /** The three checks. A candidate passes exactly when there is nothing to say against it. */
  method EvaluateCandidate(files: seq<string>, text: string, tier: nat) returns (s: SecurityEvaluation)
    ensures s.rootOfTrustCompliant <==> forall i :: 0 <= i < |files| ==> Permitted(files[i], tier)
    ensures s.zeroDiskSecretsClean <==> NoneIn(text, SECRET_SIGNATURES)
    ensures s.networkIsolationCompliant <==> NoneIn(text, NETWORK_RISK_PATTERNS)
    ensures s.passed <==> s.rootOfTrustCompliant && s.zeroDiskSecretsClean && s.networkIsolationCompliant
    ensures s.passed <==> s.violations == []
  {
    var declared := ValidateDeclaredFiles(files, tier);
    var root := declared == [];
    var violations := if root then [] else ["Root-of-trust violation: " + CommaSeparated(declared)];
    var secrets, leaked := ScanPatterns(text, SECRET_SIGNATURES, "Hardcoded secret signature detected: ");
    var network, connects := ScanPatterns(text, NETWORK_RISK_PATTERNS, "Unauthorized network primitive detected: ");
    s := SecurityEvaluation(root, secrets, network, root && secrets && network, violations + leaked + connects);
  }
}
