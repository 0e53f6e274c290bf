/** Path normalisation and the protected files of the root of trust. */
module RootOfTrust {
  import opened Wrappers
  import opened Paths

  const PROTECTED_PATHS: seq<string> := [
    "Cargo.toml", "Cargo.lock", ".cargo", "src/isolation", "src/evaluator", "src/ledger", "src/governance",
    "src/supervisor", "src/daemon.rs", "tests", ".github", "CONSTITUTION.md", "LICENSE", "agent.json",
    ".rsi/ledger.db", ".rsi/active", ".rsi/holdouts"]

  predicate HasForbidden(path: string) {
    '\\' in path || 0 as char in path
  }

  /** A component of a normal form. */
  ghost predicate Clean(c: string) {
    c != "" && c != "." && c != ".." && Free(c, '/') && !HasForbidden(c)
  }

  ghost predicate AllClean(cs: seq<string>) {
    forall i :: 0 <= i < |cs| ==> Clean(cs[i])
  }

  /** The stack after these components; None when one climbs above the root. */
  function Walk(stack: seq<string>, comps: seq<string>): Option<seq<string>>
    decreases |comps|
  {
    if comps == [] then Some(stack)
    else if comps[0] == "" || comps[0] == "." then Walk(stack, comps[1..])
    else if comps[0] == ".." then
      if stack == [] then None else Walk(stack[..|stack| - 1], comps[1..])
    else Walk(stack + [comps[0]], comps[1..])
  }

  /** The components of the normal form. */
  function Normal(path: string): Option<seq<string>> {
    if HasForbidden(path) then None else Walk([], Split(path, '/'))
  }

  function Text(cs: seq<string>): string {
    Join(cs, '/')
  }

  /** The loop over the components. */
  method NormalizeStrict(path: string) returns (r: Result<string, string>)
    ensures r.Ok? <==> Normal(path).Some?
    ensures r.Ok? ==> r.value == Text(Normal(path).value)
  {
    if HasForbidden(path) {
      return Err("path contains a backslash or NUL");
    }
    var comps := Split(path, '/');
    var stack: seq<string> := [];
    for i := 0 to |comps|
      invariant Walk(stack, comps[i..]) == Walk([], comps)
    {
      var comp := comps[i];
      assert comps[i..][0] == comp && comps[i..][1..] == comps[i + 1..];
      if comp == "" || comp == "." {
      } else if comp == ".." {
        if stack == [] {
          return Err("path climbs above the repository root");
        }
        stack := stack[..|stack| - 1];
      } else {
        stack := stack + [comp];
      }
    }
    assert comps[|comps|..] == [];
    r := Ok(Join(stack, '/'));
  }

  lemma {:induction false} WalkIsClean(stack: seq<string>, comps: seq<string>)
    requires AllClean(stack) && AllFree(comps, '/') && (forall i :: 0 <= i < |comps| ==> !HasForbidden(comps[i]))
    requires Walk(stack, comps).Some?
    ensures AllClean(Walk(stack, comps).value)
    decreases |comps|
  {
    if comps != [] {
      var c := comps[0];
      if c == "" || c == "." {
        WalkIsClean(stack, comps[1..]);
      } else if c == ".." {
        WalkIsClean(stack[..|stack| - 1], comps[1..]);
      } else {
        WalkIsClean(stack + [c], comps[1..]);
      }
    }
  }

  /** A normal form has no empty, `.` or `..` component. */
  lemma NormalIsClean(path: string)
    requires Normal(path).Some?
    ensures AllClean(Normal(path).value)
  {
    SplitParts(path, '/');
    forall i | 0 <= i < |Split(path, '/')| ensures !HasForbidden(Split(path, '/')[i]) {
      assert Split(path, '/')[i] in Split(path, '/');
    }
    WalkIsClean([], Split(path, '/'));
  }

  lemma {:induction false} WalkKeepsClean(stack: seq<string>, comps: seq<string>)
    requires AllClean(comps)
    ensures Walk(stack, comps) == Some(stack + comps)
    decreases |comps|
  {
    if comps == [] {
      assert stack + comps == stack;
    } else {
      assert Clean(comps[0]);
      WalkKeepsClean(stack + [comps[0]], comps[1..]);
      assert stack + [comps[0]] + comps[1..] == stack + comps;
    }
  }

  lemma TextHasNothingForbidden(cs: seq<string>)
    requires AllClean(cs)
    ensures !HasForbidden(Text(cs))
  {
    var s := Text(cs);
    forall i | 0 <= i < |s| ensures s[i] != '\\' && s[i] != 0 as char {
      JoinChars(cs, '/', i);
      if s[i] != '/' {
        var p :| p in cs && s[i] in p;
        var k :| 0 <= k < |cs| && cs[k] == p;
        assert Clean(cs[k]);
      }
    }
  }

  /** Clean components are their own normal form. */
  lemma NormalOfClean(cs: seq<string>)
    requires AllClean(cs)
    ensures Normal(Text(cs)) == Some(cs)
  {
    TextHasNothingForbidden(cs);
    if cs == [] {
      assert Split("", '/') == [""];
      assert Walk([], [""]) == Walk([], [""][1..]);
    } else {
      assert AllFree(cs, '/');
      SplitJoined(cs, '/');
      WalkKeepsClean([], cs);
      assert [] + cs == cs;
    }
  }

  /** Normalising a normal form changes nothing. */
  lemma NormalizeIdempotent(path: string)
    requires Normal(path).Some?
    ensures Normal(Text(Normal(path).value)) == Normal(path)
  {
    NormalIsClean(path);
    NormalOfClean(Normal(path).value);
  }

  lemma {:induction false} WalkAppend(stack: seq<string>, a: seq<string>, b: seq<string>)
    ensures Walk(stack, a + b) == match Walk(stack, a) case None => None case Some(s) => Walk(s, b)
    decreases |a|
  {
    if a == [] {
      assert a + b == b;
    } else {
      assert (a + b)[0] == a[0] && (a + b)[1..] == a[1..] + b;
      if a[0] == "" || a[0] == "." {
        WalkAppend(stack, a[1..], b);
      } else if a[0] == ".." {
        if stack != [] { WalkAppend(stack[..|stack| - 1], a[1..], b); }
      } else {
        WalkAppend(stack + [a[0]], a[1..], b);
      }
    }
  }

  /** Stepping into a directory and out again is the same path: `a/c/../b` is `a/b`. */
  lemma DetourVanishes(a: seq<string>, c: string, b: seq<string>)
    requires Clean(c)
    ensures Walk([], a + [c, ".."] + b) == Walk([], a + b)
  {
    assert a + [c, ".."] + b == a + ([c, ".."] + b);
    WalkAppend([], a, [c, ".."] + b);
    WalkAppend([], a, b);
    if Walk([], a).Some? {
      var s := Walk([], a).value;
      var d := [c, ".."] + b;
      assert d[1..][0] == ".." && d[1..][1..] == b;
      assert (s + [c])[..|s + [c]| - 1] == s;
    }
  }

  /** The components of a protected entry. */
  function Entry(i: nat): seq<string>
    requires i < |PROTECTED_PATHS|
  {
    Split(PROTECTED_PATHS[i], '/')
  }

  /** Some protected entry is the path or a directory above it. */
  predicate UnderProtected(cs: seq<string>) {
    exists i :: 0 <= i < |PROTECTED_PATHS| && Entry(i) <= cs
  }

  /** The verdict as a function of the normal form: what has none, the root itself, and everything at
      or below a protected entry. */
  predicate Protected(normal: Option<seq<string>>) {
    normal.None? || normal.value == [] || UnderProtected(normal.value)
  }

  /** Protected is exactly what has no normal form, the root, and what consists of a protected entry
      and any further components, none included. */
  lemma ProtectedExactly(path: string)
    ensures Protected(Normal(path)) <==>
      || Normal(path).None? || Normal(path).value == []
      || exists i, below: seq<string> :: 0 <= i < |PROTECTED_PATHS| && Normal(path).value == Split(PROTECTED_PATHS[i], '/') + below
  {
    hide Normal, Split;
    if Normal(path).Some? && Normal(path).value != [] && Protected(Normal(path)) {
      var cs := Normal(path).value;
      var i :| 0 <= i < |PROTECTED_PATHS| && Entry(i) <= cs;
      assert cs == Split(PROTECTED_PATHS[i], '/') + cs[|Entry(i)|..];
    }
    forall i, below: seq<string> | 0 <= i < |PROTECTED_PATHS| && Normal(path).Some? && Normal(path).value == Split(PROTECTED_PATHS[i], '/') + below
      ensures Protected(Normal(path))
    {
      assert Entry(i) <= Normal(path).value;
    }
  }

  /** A path that is its own normal form. */
  ghost predicate IsNormal(path: string) {
    Normal(path) == Some(Split(path, '/'))
  }

  /** A name of at least three characters without separators. */
  predicate PlainName(c: string) {
    |c| > 2 && forall i :: 0 <= i < |c| ==> c[i] != '/' && c[i] != '\\' && c[i] != 0 as char
  }

  lemma NameIsNormal(c: string)
    requires PlainName(c)
    ensures IsNormal(c)
  {
    SplitFree(c, '/');
    WalkKeepsClean([], [c]);
    assert [] + [c] == [c];
  }

  lemma PairIsNormal(c: string, d: string, path: string)
    requires PlainName(c) && PlainName(d) && path == c + ['/'] + d
    ensures IsNormal(path)
  {
    SplitAt(c, d, '/');
    SplitFree(d, '/');
    assert [c] + [d] == [c, d];
    WalkKeepsClean([], [c, d]);
    assert [] + [c, d] == [c, d];
  }

  lemma FilesAreNormal()
    ensures IsNormal("Cargo.toml")
    ensures IsNormal("Cargo.lock")
    ensures IsNormal(".cargo")
    ensures IsNormal("tests")
  {
    hide IsNormal;
    NameIsNormal("Cargo.toml");
    NameIsNormal("Cargo.lock");
    NameIsNormal(".cargo");
    NameIsNormal("tests");
  }

  lemma MoreFilesAreNormal()
    ensures IsNormal(".github")
    ensures IsNormal("CONSTITUTION.md")
    ensures IsNormal("LICENSE")
    ensures IsNormal("agent.json")
  {
    hide IsNormal;
    NameIsNormal(".github");
    NameIsNormal("CONSTITUTION.md");
    NameIsNormal("LICENSE");
    NameIsNormal("agent.json");
  }

  lemma SourcesAreNormal()
    ensures IsNormal("src/isolation")
    ensures IsNormal("src/evaluator")
    ensures IsNormal("src/ledger")
  {
    hide IsNormal;
    PairIsNormal("src", "isolation", "src/isolation");
    PairIsNormal("src", "evaluator", "src/evaluator");
    PairIsNormal("src", "ledger", "src/ledger");
  }

  lemma MoreSourcesAreNormal()
    ensures IsNormal("src/governance")
    ensures IsNormal("src/supervisor")
    ensures IsNormal("src/daemon.rs")
  {
    hide IsNormal;
    PairIsNormal("src", "governance", "src/governance");
    PairIsNormal("src", "supervisor", "src/supervisor");
    PairIsNormal("src", "daemon.rs", "src/daemon.rs");
  }

  lemma StateIsNormal()
    ensures IsNormal(".rsi/ledger.db")
    ensures IsNormal(".rsi/active")
    ensures IsNormal(".rsi/holdouts")
  {
    hide IsNormal;
    PairIsNormal(".rsi", "ledger.db", ".rsi/ledger.db");
    PairIsNormal(".rsi", "active", ".rsi/active");
    PairIsNormal(".rsi", "holdouts", ".rsi/holdouts");
  }

  lemma EntriesAreNormal()
    ensures forall i :: 0 <= i < |PROTECTED_PATHS| ==> IsNormal(PROTECTED_PATHS[i])
  {
    hide IsNormal;
    FilesAreNormal();
    MoreFilesAreNormal();
    SourcesAreNormal();
    MoreSourcesAreNormal();
    StateIsNormal();
  }

  /** Every listed path is protected, however it is written, and so is everything below it. */
  lemma EntriesAreProtected(i: nat, path: string)
    requires i < |PROTECTED_PATHS|
    ensures Normal(PROTECTED_PATHS[i]).Some? && Protected(Normal(PROTECTED_PATHS[i]))
    ensures Normal(path).Some? && Normal(PROTECTED_PATHS[i]).value <= Normal(path).value ==> Protected(Normal(path))
  {
    hide Normal, Split;
    EntriesAreNormal();
    assert Entry(i) <= Normal(PROTECTED_PATHS[i]).value;
  }

  /** Splitting the text of a normal form gives its components back. */
  lemma PartsOfNormal(path: string)
    requires Normal(path).Some?
    ensures var cs := Normal(path).value;
      if cs == [] then Text(cs) == "" else Text(cs) != "" && Split(Text(cs), '/') == cs
  {
    NormalIsClean(path);
    var cs := Normal(path).value;
    TextEmpty(cs);
    if cs != [] {
      assert AllFree(cs, '/');
      SplitJoined(cs, '/');
    }
  }

  method IsProtectedPath(path: string) returns (b: bool)
    ensures b == Protected(Normal(path))
    ensures path in PROTECTED_PATHS ==> b
  {
    hide Normal, Text, Split;
    assert path in PROTECTED_PATHS ==> Protected(Normal(path)) by {
      if path in PROTECTED_PATHS {
        var i :| 0 <= i < |PROTECTED_PATHS| && PROTECTED_PATHS[i] == path;
        EntriesAreProtected(i, path);
      }
    }
    var normalized := NormalizeStrict(path);
    if normalized.Err? {
      return true;
    }
    PartsOfNormal(path);
    if normalized.value == "" {
      return true;
    }
    var parts := Split(normalized.value, '/');
    for i := 0 to |PROTECTED_PATHS|
      invariant forall k :: 0 <= k < i ==> !(Entry(k) <= parts)
    {
      if Split(PROTECTED_PATHS[i], '/') <= parts {
        assert Entry(i) <= parts;
        return true;
      }
    }
    return false;
  }

  lemma TextEmpty(cs: seq<string>)
    requires AllClean(cs)
    ensures Text(cs) == "" <==> cs == []
  {
    if cs != [] {
      assert Clean(cs[0]);
    }
  }

  /** Everything below a protected path is protected. */
  lemma ProtectionExtendsBelow(p: string, q: string)
    requires Normal(p).Some? && Normal(q).Some? && Normal(p).value <= Normal(q).value
    requires Protected(Normal(p)) && Normal(p).value != []
    ensures Protected(Normal(q))
  {
    var i :| 0 <= i < |PROTECTED_PATHS| && Entry(i) <= Normal(p).value;
    assert Entry(i) <= Normal(q).value;
  }

  predicate Permitted(path: string, tier: nat) {
    Normal(path).Some? && (tier >= 2 || !Protected(Normal(path)))
  }

  method AssertPatchPermitted(target: string, tier: nat) returns (r: Result<(), string>)
    ensures r.Ok? <==> Permitted(target, tier)
  {
    var normalized := NormalizeStrict(target);
    if normalized.Err? {
      return Err("SECURITY VIOLATION: " + normalized.error);
    }
    NormalizeIdempotent(target);
    var guarded := IsProtectedPath(normalized.value);
    if guarded && tier < 2 {
      return Err("SECURITY VIOLATION: target path is a protected root-of-trust file");
    }
    r := Ok(());
  }

  /** How many of these files are not permitted. */
  function Refusals(files: seq<string>, tier: nat): nat {
    if files == [] then 0 else Refusals(files[..|files| - 1], tier) + if Permitted(files[|files| - 1], tier) then 0 else 1
  }

  lemma {:induction false} NoRefusals(files: seq<string>, tier: nat)
    ensures Refusals(files, tier) == 0 <==> forall i :: 0 <= i < |files| ==> Permitted(files[i], tier)
  {
    if files != [] {
      NoRefusals(files[..|files| - 1], tier);
    }
  }

  /** Every file that is not permitted gives one violation. */
  method ValidateDeclaredFiles(files: seq<string>, tier: nat) returns (violations: seq<string>)
    ensures |violations| == Refusals(files, tier)
    ensures violations == [] <==> forall i :: 0 <= i < |files| ==> Permitted(files[i], tier)
  {
    violations := [];
    for i := 0 to |files|
      invariant |violations| == Refusals(files[..i], tier)
    {
      var permitted := AssertPatchPermitted(files[i], tier);
      assert files[..i + 1][..i] == files[..i];
      if permitted.Err? {
        violations := violations + [permitted.error];
      }
    }
    assert files[..|files|] == files;
    NoRefusals(files, tier);
  }
}
