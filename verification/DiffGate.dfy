/** The real-diff gate: what git reports as changed, checked entry by entry. */
module DiffGate {
  import opened Wrappers
  import opened Paths
  import opened RootOfTrust
  import opened SecurityLayer

  const RATIFIER_TIER := 1

  predicate IsGit(c: string) {
    |c| == 4 && c[0] == '.' && (c[1] == 'g' || c[1] == 'G') && (c[2] == 'i' || c[2] == 'I') && (c[3] == 't' || c[3] == 'T')
  }

  /** The ASCII letters in lower case. */
  function Lower(c: string): (r: string)
    ensures |r| == |c|
  {
    seq(|c|, i requires 0 <= i < |c| => if 'A' <= c[i] <= 'Z' then (c[i] as int + 32) as char else c[i])
  }

  /** Git's directory is recognised in any mixture of cases, and nothing else is taken for it. */
  lemma GitInAnyCase(c: string)
    ensures IsGit(c) <==> Lower(c) == ".git"
  {
    var r := Lower(c);
    if |c| == 4 {
      assert r == [r[0], r[1], r[2], r[3]];
    }
  }

  function Keep(parts: seq<string>, comps: seq<string>): Option<seq<string>>
    decreases |comps|
  {
    if comps == [] then Some(parts)
    else if comps[0] == "" || comps[0] == "." then Keep(parts, comps[1..])
    else if comps[0] == ".." || IsGit(comps[0]) then None
    else Keep(parts + [comps[0]], comps[1..])
  }

  /** The components of a repository path; None when it is refused. */
  function RepoNormal(raw: string): Option<seq<string>> {
    if raw == "" || HasForbidden(raw) || raw[0] == '/' then None
    else
      var kept := Keep([], Split(raw, '/'));
      if kept == Some([]) then None else kept
  }

  method NormalizeRepoPath(raw: string) returns (r: Result<string, string>)
    ensures r.Ok? <==> RepoNormal(raw).Some?
    ensures r.Ok? ==> r.value == Text(RepoNormal(raw).value)
  {
    if raw == "" {
      return Err("empty path");
    }
    if 0 as char in raw {
      return Err("path contains NUL");
    }
    if '\\' in raw {
      return Err("path contains backslash");
    }
    if raw[0] == '/' {
      return Err("absolute path refused");
    }
    var comps := Split(raw, '/');
    var parts: seq<string> := [];
    for i := 0 to |comps|
      invariant Keep(parts, comps[i..]) == Keep([], comps)
    {
      var comp := comps[i];
      assert comps[i..][0] == comp && comps[i..][1..] == comps[i + 1..];
      if comp == "" || comp == "." {
        continue;
      }
      if comp == ".." {
        return Err("parent-directory component refused");
      }
      if IsGit(comp) {
        return Err("git metadata path refused");
      }
      parts := parts + [comp];
    }
    assert comps[|comps|..] == [];
    if parts == [] {
      return Err("path names the repository root");
    }
    r := Ok(Join(parts, '/'));
  }

  /** Where the gate's normaliser goes on, the strict one does the same. */
  lemma {:induction false} KeepIsWalk(parts: seq<string>, comps: seq<string>)
    requires Keep(parts, comps).Some?
    ensures Walk(parts, comps) == Keep(parts, comps)
    ensures forall i :: 0 <= i < |comps| ==> comps[i] != ".." && !IsGit(comps[i])
    decreases |comps|
  {
    if comps != [] {
      if comps[0] == "" || comps[0] == "." {
        KeepIsWalk(parts, comps[1..]);
      } else {
        KeepIsWalk(parts + [comps[0]], comps[1..]);
      }
    }
  }

  lemma {:induction false} KeptAreNotGit(parts: seq<string>, comps: seq<string>)
    requires Keep(parts, comps).Some? && forall i :: 0 <= i < |parts| ==> !IsGit(parts[i])
    ensures var ks := Keep(parts, comps).value; forall i :: 0 <= i < |ks| ==> !IsGit(ks[i])
    decreases |comps|
  {
    if comps != [] {
      if comps[0] == "" || comps[0] == "." {
        KeptAreNotGit(parts, comps[1..]);
      } else {
        KeptAreNotGit(parts + [comps[0]], comps[1..]);
      }
    }
  }

  lemma {:induction false} KeepAll(parts: seq<string>, comps: seq<string>)
    requires AllClean(comps) && forall i :: 0 <= i < |comps| ==> !IsGit(comps[i])
    ensures Keep(parts, comps) == Some(parts + comps)
    decreases |comps|
  {
    if comps == [] {
      assert parts + comps == parts;
    } else {
      assert Clean(comps[0]);
      KeepAll(parts + [comps[0]], comps[1..]);
      assert parts + [comps[0]] + comps[1..] == parts + comps;
    }
  }

  /** The two normalisers agree: what the gate accepts, the root of trust maps to the same path, and
      that path is a fixed point of both. */
  lemma NormalisersAgree(raw: string)
    requires RepoNormal(raw).Some?
    ensures var cs := RepoNormal(raw).value;
      Normal(raw) == Some(cs) && Normal(Text(cs)) == Some(cs) && RepoNormal(Text(cs)) == Some(cs)
  {
    var comps := Split(raw, '/');
    KeepIsWalk([], comps);
    KeptAreNotGit([], comps);
    var cs := RepoNormal(raw).value;
    assert Normal(raw) == Some(cs);
    NormalIsClean(raw);
    NormalOfClean(cs);
    PartsOfNormal(raw);
    KeepAll([], cs);
    assert [] + cs == cs;
    TextHasNothingForbidden(cs);
    assert Clean(cs[0]);
    assert Text(cs)[0] == cs[0][0];
  }

  lemma {:induction false} KeepExactly(parts: seq<string>, comps: seq<string>)
    ensures Keep(parts, comps).Some? <==> forall i :: 0 <= i < |comps| ==> comps[i] != ".." && !IsGit(comps[i])
    ensures Keep(parts, comps).Some? ==>
      (Keep(parts, comps).value == [] <==> parts == [] && forall i :: 0 <= i < |comps| ==> comps[i] == "" || comps[i] == ".")
    decreases |comps|
  {
    if comps != [] {
      var rest := comps[1..];
      assert forall i :: 1 <= i < |comps| ==> comps[i] == rest[i - 1];
      if comps[0] == "" || comps[0] == "." {
        KeepExactly(parts, rest);
      } else if comps[0] != ".." && !IsGit(comps[0]) {
        KeepExactly(parts + [comps[0]], rest);
      }
    }
  }

  /** Exactly which paths the gate accepts. */
  lemma RepoPathsExactly(raw: string)
    ensures RepoNormal(raw).Some? <==>
      && raw != "" && !HasForbidden(raw) && raw[0] != '/'
      && (forall i :: 0 <= i < |Split(raw, '/')| ==> Split(raw, '/')[i] != ".." && !IsGit(Split(raw, '/')[i]))
      && (exists i :: 0 <= i < |Split(raw, '/')| && Split(raw, '/')[i] != "" && Split(raw, '/')[i] != ".")
  {
    hide Split;
    var comps := Split(raw, '/');
    KeepExactly([], comps);
    if Keep([], comps).Some? && Keep([], comps).value != [] {
      var i :| 0 <= i < |comps| && comps[i] != "" && comps[i] != ".";
      assert Split(raw, '/')[i] == comps[i];
    }
  }

  /** Some declared root is the path or a directory above it. */
  predicate Within(cs: seq<string>, roots: seq<string>) {
    exists i :: 0 <= i < |roots| && RepoNormal(roots[i]).Some? && RepoNormal(roots[i]).value <= cs
  }

  /** A path is inside when it consists of an accepted root and any further components. */
  lemma WithinExactly(cs: seq<string>, roots: seq<string>)
    ensures Within(cs, roots) <==> exists i, below :: 0 <= i < |roots| && StandsBelow(cs, RepoNormal(roots[i]), below)
  {
    hide RepoNormal;
    if Within(cs, roots) {
      var i :| 0 <= i < |roots| && RepoNormal(roots[i]).Some? && RepoNormal(roots[i]).value <= cs;
      assert StandsBelow(cs, RepoNormal(roots[i]), cs[|RepoNormal(roots[i]).value|..]);
    }
    forall i, below | 0 <= i < |roots| && StandsBelow(cs, RepoNormal(roots[i]), below) ensures Within(cs, roots) {
      assert RepoNormal(roots[i]).value <= cs;
    }
  }

  ghost predicate StandsBelow(cs: seq<string>, root: Option<seq<string>>, below: seq<string>) {
    root.Some? && cs == root.value + below
  }

  method WithinRoots(path: string, roots: seq<string>) returns (b: bool)
    ensures b == Within(Split(path, '/'), roots)
  {
    hide RepoNormal;
    var p := Split(path, '/');
    for i := 0 to |roots|
      invariant forall k :: 0 <= k < i ==> !(RepoNormal(roots[k]).Some? && RepoNormal(roots[k]).value <= p)
    {
      var root := NormalizeRepoPath(roots[i]);
      if root.Ok? {
        RepoParts(roots[i]);
        if Split(root.value, '/') <= p {
          return true;
        }
      }
    }
    return false;
  }

  lemma RepoParts(raw: string)
    requires RepoNormal(raw).Some?
    ensures Split(Text(RepoNormal(raw).value), '/') == RepoNormal(raw).value
  {
    NormalisersAgree(raw);
    PartsOfNormal(raw);
  }

  /** What a declared target has to be. */
  ghost predicate TargetAccepted(target: string, roots: seq<string>) {
    RepoNormal(target).Some? && Within(RepoNormal(target).value, roots) && !Protected(RepoNormal(target))
  }

  method CheckDeclaredTarget(target: string, roots: seq<string>) returns (r: Result<string, string>)
    ensures r.Ok? <==> TargetAccepted(target, roots)
    ensures r.Ok? ==> RepoNormal(r.value) == RepoNormal(target) && r.value == Text(RepoNormal(target).value)
  {
    hide RepoNormal, Within, Protected;
    var normalized := NormalizeRepoPath(target);
    if normalized.Err? {
      return normalized;
    }
    RepoParts(target);
    NormalisersAgree(target);
    var inside := WithinRoots(normalized.value, roots);
    if !inside {
      return Err("target is outside the declared roots");
    }
    var permitted := AssertPatchPermitted(normalized.value, RATIFIER_TIER);
    if permitted.Err? {
      return Err(permitted.error);
    }
    return normalized;
  }

  datatype ChangedEntry = ChangedEntry(oldMode: string, newMode: string, status: char, path: string)

  predicate IsRegularMode(mode: string) {
    mode == "100644" || mode == "100755"
  }

  /** An entry nobody objects to: a canonical path inside the roots, regular on both sides, not deleted. */
  ghost predicate EntryFine(e: ChangedEntry, roots: seq<string>) {
    && RepoNormal(e.path).Some? && Text(RepoNormal(e.path).value) == e.path && Within(RepoNormal(e.path).value, roots)
    && e.oldMode in ["000000", "100644", "100755"] && e.newMode in ["100644", "100755"] && e.status != 'D'
  }

  /** The checks on one entry: its violations, and its normalised path unless that is refused. */
  method CheckEntry(e: ChangedEntry, roots: seq<string>) returns (violations: seq<string>, path: Option<string>)
    ensures violations == [] <==> EntryFine(e, roots)
    ensures violations == [] ==> path == Some(e.path)
  {
    hide RepoNormal, Within, Text;
    violations := [];
    var normalized := NormalizeRepoPath(e.path);
    if normalized.Err? {
      return ["real diff path refused: " + normalized.error], None;
    }
    RepoParts(e.path);
    if normalized.value != e.path {
      violations := violations + ["real diff path is not canonical"];
    }
    var inside := WithinRoots(normalized.value, roots);
    if !inside {
      violations := violations + ["real diff touches a path outside the declared roots"];
    }
    var oldOk := e.oldMode == "000000" || IsRegularMode(e.oldMode);
    var newOk := e.newMode == "000000" || IsRegularMode(e.newMode);
    if !oldOk || !newOk {
      violations := violations + ["real diff entry is not a regular file"];
    }
    if e.newMode == "000000" || e.status == 'D' {
      violations := violations + ["real diff deletes a file; deletions are refused"];
    }
    path := Some(normalized.value);
  }

  /** No scanned line of the patch holds a secret signature or a network primitive. What that says of
      the added contents is shown in `UnifiedDiff`. */
  ghost predicate ContentClean(patch: string) {
    NoneScanned(patch, SECRET_SIGNATURES) && NoneScanned(patch, NETWORK_RISK_PATTERNS)
  }

  /** The diff that passes: exactly one entry, the declared target, canonical, inside the roots, not
      protected, a regular file and not deleted, with clean scanned lines. */
  ghost predicate DiffAccepted(entries: seq<ChangedEntry>, patch: string, declared: string, roots: seq<string>) {
    && |entries| == 1 && EntryFine(entries[0], roots) && entries[0].path == declared
    && !Protected(RepoNormal(declared))
    && ContentClean(patch)
  }

  /** All violations of a diff. */
  method CheckRealDiff(entries: seq<ChangedEntry>, patch: string, declared: string, roots: seq<string>)
    returns (violations: seq<string>)
    ensures violations == [] <==> DiffAccepted(entries, patch, declared, roots)
  {
    hide Lines, ScannedText, ScannedHolds, NoneIn;
    violations := [];
    if entries == [] {
      violations := ["real diff is empty; nothing to propose"];
    }
    var found, realPaths := CheckEntries(entries, roots);
    violations := violations + found;
    if |realPaths| != 1 || realPaths[0] != declared {
      violations := violations + ["real diff paths differ from the declared target"];
    }
    var declaredViolations := ValidateDeclaredFiles(realPaths, RATIFIER_TIER);
    violations := violations + declaredViolations;
    var scanned := CollectScanned(patch);
    var sec := EvaluateCandidate(realPaths, scanned, RATIFIER_TIER);
    if !sec.passed {
      violations := violations + sec.violations;
    }
    SignaturesAreText();
    NoneInScanned(patch, SECRET_SIGNATURES);
    NetworkPatternsAreText();
    NoneInScanned(patch, NETWORK_RISK_PATTERNS);
    hide NoneScanned;
    if |realPaths| == 1 && realPaths[0] == declared {
      assert realPaths == [declared];
    }
    if EntriesFine(entries, roots) && |entries| == 1 {
      NormalisersAgree(entries[0].path);
    }
  }

  ghost predicate EntriesFine(entries: seq<ChangedEntry>, roots: seq<string>) {
    forall i :: 0 <= i < |entries| ==> EntryFine(entries[i], roots)
  }

  method CheckEntries(entries: seq<ChangedEntry>, roots: seq<string>) returns (violations: seq<string>, realPaths: seq<string>)
    ensures violations == [] <==> EntriesFine(entries, roots)
    ensures violations == [] ==> |realPaths| == |entries| && forall i :: 0 <= i < |entries| ==> realPaths[i] == entries[i].path
  {
    hide EntryFine;
    violations, realPaths := [], [];
    for i := 0 to |entries|
      invariant violations == [] <==> forall k :: 0 <= k < i ==> EntryFine(entries[k], roots)
      invariant violations == [] ==> |realPaths| == i && forall k :: 0 <= k < i ==> realPaths[k] == entries[k].path
    {
      var found, path := CheckEntry(entries[i], roots);
      violations := violations + found;
      if path.Some? {
        realPaths := realPaths + [path.value];
      }
    }
  }
}
