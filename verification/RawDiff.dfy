/** Reading git's raw diff listing: NUL-separated headers and paths. */
module RawDiff {
  import opened Wrappers
  import opened Paths
  import opened DiffGate

  const NUL: char := 0 as char

  function NonEmpty(fields: seq<string>): seq<string> {
    if fields == [] then []
    else if fields[0] == "" then NonEmpty(fields[1..])
    else [fields[0]] + NonEmpty(fields[1..])
  }

  /** One header: a colon and five columns, the last one starting with the status. */
  function ParseHeader(meta: string): Option<(string, string, char)> {
    if meta == "" || meta[0] != ':' then None
    else
      var cols := Split(meta[1..], ' ');
      if |cols| != 5 || cols[4] == "" then None else Some((cols[0], cols[1], cols[4][0]))
  }

  function ParseFields(fields: seq<string>): Option<seq<ChangedEntry>>
    decreases |fields|
  {
    if fields == [] then Some([])
    else if ParseHeader(fields[0]).None? || |fields| == 1 then None
    else
      var (oldMode, newMode, status) := ParseHeader(fields[0]).value;
      match ParseFields(fields[2..])
      case None => None
      case Some(rest) => Some([ChangedEntry(oldMode, newMode, status, fields[1])] + rest)
  }

  method ParseRawDiff(raw: string) returns (r: Result<seq<ChangedEntry>, string>)
    ensures r.Ok? <==> ParseFields(NonEmpty(Split(raw, NUL))).Some?
    ensures r.Ok? ==> Some(r.value) == ParseFields(NonEmpty(Split(raw, NUL)))
  {
    var fields := NonEmpty(Split(raw, NUL));
    var entries: seq<ChangedEntry> := [];
    ghost var whole := ParseFields(fields);
    assert whole.Some? ==> [] + whole.value == whole.value;
    while fields != []
      invariant whole == match ParseFields(fields) case None => None case Some(rest) => Some(entries + rest)
      decreases |fields|
    {
      var header := ParseHeader(fields[0]);
      if header.None? {
        return Err("unexpected diff header");
      }
      if |fields| == 1 {
        return Err("diff entry without a path");
      }
      var (oldMode, newMode, status) := header.value;
      var e := ChangedEntry(oldMode, newMode, status, fields[1]);
      ghost var rest := ParseFields(fields[2..]);
      if rest.Some? {
        assert entries + ([e] + rest.value) == entries + [e] + rest.value;
      }
      entries, fields := entries + [e], fields[2..];
    }
    assert entries + [] == entries;
    r := Ok(entries);
  }

  /** A reported entry: single-word modes and object names, a path without NUL. */
  ghost predicate Reportable(e: ChangedEntry, before: string, after: string) {
    && AllFree([e.oldMode, e.newMode, before, after], ' ') && AllFree([e.oldMode, e.newMode, before, after], NUL)
    && e.status != ' ' && e.status != NUL && e.path != "" && Free(e.path, NUL)
  }

  function HeaderOf(e: ChangedEntry, before: string, after: string): string {
    ":" + Join([e.oldMode, e.newMode, before, after, [e.status]], ' ')
  }

  /** What git prints for these entries. */
  function Render(es: seq<ChangedEntry>, names: seq<(string, string)>): string
    requires |names| == |es|
  {
    if es == [] then "" else
      HeaderOf(es[0], names[0].0, names[0].1) + [NUL] + (es[0].path + [NUL] + Render(es[1..], names[1..]))
  }

  lemma HeaderIsRead(e: ChangedEntry, before: string, after: string)
    requires Reportable(e, before, after)
    ensures ParseHeader(HeaderOf(e, before, after)) == Some((e.oldMode, e.newMode, e.status))
    ensures Free(HeaderOf(e, before, after), NUL)
  {
    var cols := [e.oldMode, e.newMode, before, after, [e.status]];
    assert cols[..4] == [e.oldMode, e.newMode, before, after];
    assert AllFree(cols, ' ') && AllFree(cols, NUL) by {
      forall i | 0 <= i < 5 ensures Free(cols[i], ' ') && Free(cols[i], NUL) {
        if i < 4 { assert cols[..4][i] == cols[i]; }
      }
    }
    SplitJoined(cols, ' ');
    var h := HeaderOf(e, before, after);
    assert h[1..] == Join(cols, ' ');
    forall i | 0 <= i < |h| ensures h[i] != NUL {
      if i > 0 {
        JoinChars(cols, ' ', i - 1);
        if h[i] != ' ' {
          var p :| p in cols && h[i] in p;
          var k :| 0 <= k < |cols| && cols[k] == p;
          assert Free(cols[k], NUL);
        }
      }
    }
  }

  /** Reading what git prints gives the entries back, in order. */
  lemma {:induction false} ParseRendered(es: seq<ChangedEntry>, names: seq<(string, string)>)
    requires |names| == |es| && forall i :: 0 <= i < |es| ==> Reportable(es[i], names[i].0, names[i].1)
    ensures ParseFields(NonEmpty(Split(Render(es, names), NUL))) == Some(es)
    decreases |es|
  {
    if es == [] {
      assert NonEmpty([""]) == NonEmpty([""][1..]);
    } else {
      var e, h, rest := es[0], HeaderOf(es[0], names[0].0, names[0].1), Render(es[1..], names[1..]);
      HeaderIsRead(e, names[0].0, names[0].1);
      SplitAt(h, e.path + [NUL] + rest, NUL);
      SplitAt(e.path, rest, NUL);
      ParseRendered(es[1..], names[1..]);
      var more := NonEmpty(Split(rest, NUL));
      TwoFields(h, e.path, Split(rest, NUL));
      var fields := [h, e.path] + more;
      assert fields[0] == h && fields[1] == e.path && fields[2..] == more;
      assert es == [e] + es[1..];
    }
  }

  lemma TwoFields(a: string, b: string, rest: seq<string>)
    requires a != "" && b != ""
    ensures NonEmpty([a] + ([b] + rest)) == [a, b] + NonEmpty(rest)
  {
    assert ([a] + ([b] + rest))[1..] == [b] + rest && ([b] + rest)[1..] == rest;
  }
}
