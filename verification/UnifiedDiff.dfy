/** Unified diffs as they are printed, and what of their added contents the content checks see. */
module UnifiedDiff {
  import opened Paths
  import opened SecurityLayer
  import opened DiffGate
  import RootOfTrust

  /** A heading is any line that belongs to no file: file and hunk headers and notes. */
  datatype PatchLine =
    | Heading(line: string)
    | Context(content: string)
    | Removed(content: string)
    | Added(content: string)

  function LineText(l: PatchLine): string {
    match l
    case Heading(line) => line
    case Context(content) => " " + content
    case Removed(content) => "-" + content
    case Added(content) => "+" + content
  }

  /** One line. A heading that starts like an addition names the new file. */
  ghost predicate PrintsAsLine(l: PatchLine) {
    '\n' !in LineText(l) && (l.Heading? && "+" <= l.line ==> "+++ " <= l.line)
  }

  ghost predicate Printable(patch: seq<PatchLine>) {
    forall i :: 0 <= i < |patch| ==> PrintsAsLine(patch[i])
  }

  function Rendered(patch: seq<PatchLine>): string {
    if patch == [] then "" else LineText(patch[0]) + "\n" + Rendered(patch[1..])
  }

  /** What may be searched for: text inside one line that does not end in its carriage return. */
  ghost predicate IsPattern(p: string) {
    p != "" && '\n' !in p && p[|p| - 1] != '\r'
  }

  /** Some added content holds p. */
  ghost predicate Adds(patch: seq<PatchLine>, p: string) {
    exists i :: 0 <= i < |patch| && AddsAt(patch[i], p)
  }

  ghost predicate AddsAt(l: PatchLine, p: string) {
    l.Added? && Contains(l.content, p)
  }

  /** An added content that does not print like a file header. */
  predicate Seen(l: PatchLine) {
    l.Added? && !("++" <= l.content)
  }

  /** Some added content that does not start with `++` holds p. */
  ghost predicate SeenAdds(patch: seq<PatchLine>, p: string) {
    exists i :: 0 <= i < |patch| && Seen(patch[i]) && AddsAt(patch[i], p)
  }

  /** The gate finds p in what it scans. */
  ghost predicate Found(patch: seq<PatchLine>, p: string) {
    Contains(ScannedText(Lines(Rendered(patch))), p)
  }

  lemma LinesStep(a: string, b: string)
    requires '\n' !in a
    ensures Lines(a + "\n" + b) == [WithoutReturn(a)] + Lines(b)
  {
    assert Free(a, '\n');
    SplitAt(a, b, '\n');
    hide Split, WithoutReturn;
  }

  /** Cutting a printed patch into lines gives its lines. */
  lemma {:induction false} LinesOfRendered(patch: seq<PatchLine>)
    requires Printable(patch)
    ensures |Lines(Rendered(patch))| == |patch|
    ensures forall i :: 0 <= i < |patch| ==> Lines(Rendered(patch))[i] == WithoutReturn(LineText(patch[i]))
  {
    if patch != [] {
      assert PrintsAsLine(patch[0]);
      LinesStep(LineText(patch[0]), Rendered(patch[1..]));
      hide Lines;
      LinesOfRendered(patch[1..]);
    }
  }

  lemma EndsEarlier(c: string, p: string, i: nat)
    requires c != "" && p != "" && p[|p| - 1] != c[|c| - 1]
    ensures At(c, p, i) ==> i + |p| < |c|
  {
    if i + |p| == |c| {
      assert c[i..i + |p|][|p| - 1] == c[|c| - 1];
    }
  }

  /** A carriage return at the end hides no pattern. */
  lemma WithoutReturnHolds(c: string, p: string)
    requires IsPattern(p)
    ensures Contains(WithoutReturn(c), p) <==> Contains(c, p)
  {
    var d := WithoutReturn(c);
    if d != c {
      assert c == d + "\r";
      forall i: nat ensures At(c, p, i) <==> At(d, p, i) {
        EndsEarlier(c, p, i);
        if i + |p| <= |d| { AtLeft(d, "\r", p, i); }
      }
      SamePlaces(c, d, p);
    }
  }

  lemma SamePlaces(c: string, d: string, p: string)
    requires forall i: nat :: At(c, p, i) <==> At(d, p, i)
    ensures Contains(c, p) <==> Contains(d, p)
  {
    if Contains(c, p) {
      var i: nat :| i <= |c| && At(c, p, i);
      assert At(d, p, i);
    }
    if Contains(d, p) {
      var i: nat :| i <= |d| && At(d, p, i);
      assert At(c, p, i);
    }
  }

  /** Of one printed line the gate sees the added content, unless it starts with `++`. */
  lemma LineSeen(l: PatchLine, p: string)
    requires PrintsAsLine(l) && IsPattern(p)
    ensures var t := WithoutReturn(LineText(l));
      ScannedHoldsAt(t, p) <==> Seen(l) && AddsAt(l, p)
  {
    var t := WithoutReturn(LineText(l));
    if l.Added? {
      MarkKept(l.content);
      WithoutReturnHolds(l.content, p);
    } else {
      NotScanned(l);
    }
  }

  lemma MarkKept(c: string)
    ensures WithoutReturn("+" + c) == "+" + WithoutReturn(c)
    ensures IsScanned("+" + WithoutReturn(c)) <==> !("++" <= c)
  {
    var d := WithoutReturn(c);
    assert "+++" <= "+" + d <==> "++" <= d by {
      if "++" <= d { assert ("+" + d)[..3] == "+" + d[..2]; }
      if "+++" <= "+" + d { assert d == ("+" + d)[1..]; }
    }
    assert "++" <= d <==> "++" <= c;
  }

  lemma NotScanned(l: PatchLine)
    requires PrintsAsLine(l) && !l.Added?
    ensures !IsScanned(WithoutReturn(LineText(l)))
  {
    var s := LineText(l);
    if "+" <= s {
      assert s[0] == '+';
      assert s[..4] == "+++ ";
    }
  }

  /** For every patch the gate finds exactly the patterns in added contents that do not start with
      `++`. */
  lemma FoundExactly(patch: seq<PatchLine>, p: string)
    requires Printable(patch) && IsPattern(p)
    ensures Found(patch, p) <==> SeenAdds(patch, p)
  {
    var lines := Lines(Rendered(patch));
    LinesOfRendered(patch);
    FoundInOneLine(lines, p);
    hide Lines, Rendered, ScannedText, Contains, AddsAt, Seen, ScannedHoldsAt, WithoutReturn, LineText;
    forall i | 0 <= i < |patch| ensures ScannedHoldsAt(lines[i], p) <==> Seen(patch[i]) && AddsAt(patch[i], p) {
      assert PrintsAsLine(patch[i]);
      LineSeen(patch[i], p);
    }
  }

  /** No pattern escapes: what is added is found. */
  ghost predicate NothingEscapes(patch: seq<PatchLine>) {
    forall p :: IsPattern(p) && Adds(patch, p) ==> Found(patch, p)
  }

  function WithoutReturns(c: string): string {
    if c != "" && c[|c| - 1] == '\r' then WithoutReturns(c[..|c| - 1]) else c
  }

  /** Every added content that starts with `++` stands inside one that does not. */
  ghost predicate MarkedAreRepeated(patch: seq<PatchLine>) {
    forall i :: 0 <= i < |patch| && patch[i].Added? && "++" <= patch[i].content ==> SeenAdds(patch, WithoutReturns(patch[i].content))
  }

  lemma {:induction false} WithoutReturnsHolds(c: string, p: string)
    requires IsPattern(p)
    ensures Contains(WithoutReturns(c), p) <==> Contains(c, p)
  {
    if c != "" && c[|c| - 1] == '\r' {
      WithoutReturnHolds(c, p);
      WithoutReturnsHolds(c[..|c| - 1], p);
    }
  }

  lemma {:induction false} MarkedIsPattern(c: string)
    requires "++" <= c && '\n' !in c
    ensures IsPattern(WithoutReturns(c)) && Contains(c, WithoutReturns(c)) && "++" <= WithoutReturns(c)
  {
    if c[|c| - 1] == '\r' {
      var d := c[..|c| - 1];
      assert c[..2] == "++" && d[..2] == c[..2];
      MarkedIsPattern(d);
      WithoutReturnHolds(c, WithoutReturns(d));
    } else {
      assert At(c, c, 0);
    }
  }

  lemma ContainsTransitive(a: string, b: string, p: string)
    requires Contains(a, b) && Contains(b, p)
    ensures Contains(a, p)
  {
    var i: nat :| i <= |a| && At(a, b, i);
    var j: nat :| j <= |b| && At(b, p, j);
    forall k | 0 <= k < |p| ensures a[i + j..i + j + |p|][k] == p[k] {
      assert a[i..i + |b|][j + k] == b[j..j + |p|][k];
    }
    assert At(a, p, i + j);
  }

  lemma RepeatedIsFound(patch: seq<PatchLine>, i: nat, p: string)
    requires Printable(patch) && MarkedAreRepeated(patch) && IsPattern(p) && i < |patch| && AddsAt(patch[i], p)
    ensures SeenAdds(patch, p)
  {
    if !Seen(patch[i]) {
      var c := WithoutReturns(patch[i].content);
      WithoutReturnsHolds(patch[i].content, p);
      var j :| 0 <= j < |patch| && Seen(patch[j]) && AddsAt(patch[j], c);
      ContainsTransitive(patch[j].content, c, p);
      assert AddsAt(patch[j], p);
    }
  }

  /** Nothing that is added escapes the scan exactly when every added content that starts with `++` is
      repeated inside one that does not. */
  lemma NothingEscapesExactly(patch: seq<PatchLine>)
    requires Printable(patch)
    ensures NothingEscapes(patch) <==> MarkedAreRepeated(patch)
  {
    if NothingEscapes(patch) {
      forall i | 0 <= i < |patch| && patch[i].Added? && "++" <= patch[i].content
        ensures SeenAdds(patch, WithoutReturns(patch[i].content))
      {
        AddedHasNoBreak(patch, i);
        MarkedIsPattern(patch[i].content);
        assert AddsAt(patch[i], WithoutReturns(patch[i].content));
        FoundExactly(patch, WithoutReturns(patch[i].content));
      }
    }
    if MarkedAreRepeated(patch) {
      forall p | IsPattern(p) && Adds(patch, p) ensures Found(patch, p) {
        var i :| 0 <= i < |patch| && AddsAt(patch[i], p);
        RepeatedIsFound(patch, i, p);
        FoundExactly(patch, p);
      }
    }
  }

  lemma AddedHasNoBreak(patch: seq<PatchLine>, i: nat)
    requires Printable(patch) && i < |patch| && patch[i].Added?
    ensures '\n' !in patch[i].content
  {
    assert PrintsAsLine(patch[i]);
    assert forall c :: c in patch[i].content ==> c in "+" + patch[i].content;
  }

  /** No added content holds one of these patterns. */
  ghost predicate AddsNone(patch: seq<PatchLine>, patterns: seq<string>) {
    forall k :: 0 <= k < |patterns| ==> !Adds(patch, patterns[k])
  }

  ghost predicate SeenAddsNone(patch: seq<PatchLine>, patterns: seq<string>) {
    forall k :: 0 <= k < |patterns| ==> !SeenAdds(patch, patterns[k])
  }

  lemma NoneScannedExactly(patch: seq<PatchLine>, patterns: seq<string>)
    requires Printable(patch) && forall k :: 0 <= k < |patterns| ==> IsPattern(patterns[k])
    ensures NoneScanned(Rendered(patch), patterns) <==> SeenAddsNone(patch, patterns)
  {
    hide Lines, Rendered, ScannedText, Contains, SeenAdds;
    forall k | 0 <= k < |patterns|
      ensures ScannedHolds(Lines(Rendered(patch)), patterns[k]) <==> SeenAdds(patch, patterns[k])
    {
      FoundExactly(patch, patterns[k]);
      FoundInOneLine(Lines(Rendered(patch)), patterns[k]);
    }
  }

  lemma SignaturesArePatterns()
    ensures forall k :: 0 <= k < |SECRET_SIGNATURES| ==> IsPattern(SECRET_SIGNATURES[k])
  {
    SignaturesAreText();
  }

  lemma NetworkPatternsArePatterns()
    ensures forall k :: 0 <= k < |NETWORK_RISK_PATTERNS| ==> IsPattern(NETWORK_RISK_PATTERNS[k])
  {
    NetworkPatternsAreText();
  }

  /** What the gate's content verdict says of the added contents. When none of them starts with `++`
      it speaks of all of them. */
  lemma ContentCleanExactly(patch: seq<PatchLine>)
    requires Printable(patch)
    ensures ContentClean(Rendered(patch)) <==>
      SeenAddsNone(patch, SECRET_SIGNATURES) && SeenAddsNone(patch, NETWORK_RISK_PATTERNS)
    ensures MarkedAreRepeated(patch) ==> (ContentClean(Rendered(patch)) <==>
      AddsNone(patch, SECRET_SIGNATURES) && AddsNone(patch, NETWORK_RISK_PATTERNS))
  {
    SignaturesArePatterns();
    NetworkPatternsArePatterns();
    hide IsPattern, Lines, Rendered, Contains, Adds, SeenAdds, NoneScanned;
    NoneScannedExactly(patch, SECRET_SIGNATURES);
    NoneScannedExactly(patch, NETWORK_RISK_PATTERNS);
    if MarkedAreRepeated(patch) {
      SameWhenRepeated(patch, SECRET_SIGNATURES);
      SameWhenRepeated(patch, NETWORK_RISK_PATTERNS);
    }
  }

  lemma SameWhenRepeated(patch: seq<PatchLine>, patterns: seq<string>)
    requires Printable(patch) && MarkedAreRepeated(patch) && forall k :: 0 <= k < |patterns| ==> IsPattern(patterns[k])
    ensures SeenAddsNone(patch, patterns) <==> AddsNone(patch, patterns)
  {
    forall k | 0 <= k < |patterns| ensures Adds(patch, patterns[k]) <==> SeenAdds(patch, patterns[k]) {
      if Adds(patch, patterns[k]) {
        var i :| 0 <= i < |patch| && AddsAt(patch[i], patterns[k]);
        RepeatedIsFound(patch, i, patterns[k]);
      }
    }
  }

  /** The simplest sufficient condition: no added content starts with `++`. */
  lemma UnmarkedIsRepeated(patch: seq<PatchLine>)
    requires forall i :: 0 <= i < |patch| && patch[i].Added? ==> !("++" <= patch[i].content)
    ensures MarkedAreRepeated(patch)
  {
  }

  /** A new file whose only line starts with `++`. */
  const MARKED_PATCH: seq<PatchLine> :=
    [Heading("--- /dev/null"), Heading("+++ b/a"), Heading("@@ -0,0 +1 @@"), Added("++AKIA")]

  lemma MarkedPatchPrints()
    ensures Printable(MARKED_PATCH)
    ensures forall i :: 0 <= i < |MARKED_PATCH| ==> !Seen(MARKED_PATCH[i])
  {
    var p := MARKED_PATCH;
    assert p[0].line[0] != '+' && p[2].line[0] != '+' && "+"[0] == '+';
    assert "+++ b/a"[..4] == "+++ " && "++AKIA"[..2] == "++";
    assert PrintsAsLine(p[0]) && PrintsAsLine(p[1]) && PrintsAsLine(p[2]) && PrintsAsLine(p[3]);
  }

  lemma MarkedPatchAdds()
    ensures Adds(MARKED_PATCH, "AKIA")
  {
    assert At("++AKIA", "AKIA", 2);
    assert AddsAt(MARKED_PATCH[3], "AKIA");
  }

  /** The content that escapes: the gate accepts this patch for every entry it would accept, although
      its only added line holds a secret signature. */
  lemma MarkedContentEscapes(entry: ChangedEntry, roots: seq<string>)
    requires EntryFine(entry, roots) && !RootOfTrust.Protected(RepoNormal(entry.path))
    ensures Printable(MARKED_PATCH) && Adds(MARKED_PATCH, "AKIA") && "AKIA" in SECRET_SIGNATURES
    ensures DiffAccepted([entry], Rendered(MARKED_PATCH), entry.path, roots)
  {
    hide EntryFine, RootOfTrust.Protected, RepoNormal, ContentClean, Rendered, Printable, Adds, Seen, MarkedAreRepeated, AddsNone;
    MarkedPatchPrints();
    MarkedPatchAdds();
    ContentCleanExactly(MARKED_PATCH);
    assert SECRET_SIGNATURES[0] == "AKIA";
  }
}
