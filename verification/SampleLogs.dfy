/** The append-only sample log: one line a record, a torn last line is dropped by the next append and
    skipped by the reader. */
module SampleLogs {
  import opened Wrappers
  import opened Paths

  const SCHEMA_VERSION := 2
  const NEWLINE := '\n'

  /** How a record is printed on a line and read back. */
  datatype LineFormat<!R> = LineFormat(print_: R -> string, parse: string -> Option<R>, version: R -> nat)

  ghost predicate PrintsBack<R>(f: LineFormat<R>, r: R) {
    Free(f.print_(r), NEWLINE) && f.parse(f.print_(r)) == Some(r)
  }

  /** The lines that end with a newline. */
  function Complete(bytes: string): seq<string> {
    Split(bytes, NEWLINE)[..|Split(bytes, NEWLINE)| - 1]
  }

  lemma {:induction false} SplitConcat(a: string, b: string, sep: char)
    ensures Split(a + [sep] + b, sep) == Split(a, sep) + Split(b, sep)
  {
    var s := a + [sep] + b;
    if a == "" {
      assert s[0] == sep && s[1..] == b;
    } else {
      assert s[0] == a[0] && s[1..] == a[1..] + [sep] + b;
      SplitConcat(a[1..], b, sep);
    }
  }

  /** Nothing, or something that ends with a newline. */
  ghost predicate WholeLines(bytes: string) {
    bytes == "" || bytes[|bytes| - 1] == NEWLINE
  }

  /** What is written after whole lines adds its own complete lines. */
  lemma CompleteConcat(a: string, b: string)
    requires WholeLines(a)
    ensures Complete(a + b) == Complete(a) + Complete(b)
  {
    if a == "" {
      assert a + b == b && Complete("") == [];
    } else {
      var c := a[..|a| - 1];
      assert a == c + [NEWLINE] + "" && a + b == c + [NEWLINE] + b;
      SplitConcat(c, "", NEWLINE);
      SplitConcat(c, b, NEWLINE);
    }
  }

  lemma CompleteLine(line: string)
    requires Free(line, NEWLINE)
    ensures Complete(line + [NEWLINE]) == [line] && Complete(line) == []
  {
    assert line + [NEWLINE] == line + [NEWLINE] + "";
    SplitAt(line, "", NEWLINE);
    SplitFree(line, NEWLINE);
  }

  function LinesOf<R>(f: LineFormat<R>, rs: seq<R>): (ls: seq<string>)
    ensures |ls| == |rs| && forall i :: 0 <= i < |rs| ==> ls[i] == f.print_(rs[i])
  {
    if rs == [] then [] else LinesOf(f, rs[..|rs| - 1]) + [f.print_(rs[|rs| - 1])]
  }

  lemma LinesGrow<R>(f: LineFormat<R>, rs: seq<R>, r: R)
    ensures LinesOf(f, rs + [r]) == LinesOf(f, rs) + [f.print_(r)]
  {
    assert (rs + [r])[..|rs|] == rs;
  }

  /** A whole line adds its record. */
  lemma AppendKeeps<R>(f: LineFormat<R>, bytes: string, rs: seq<R>, r: R)
    requires WholeLines(bytes) && Complete(bytes) == LinesOf(f, rs) && Free(f.print_(r), NEWLINE)
    ensures Complete(bytes + (f.print_(r) + [NEWLINE])) == LinesOf(f, rs + [r])
  {
    hide Complete, LinesOf;
    CompleteLine(f.print_(r));
    LinesGrow(f, rs, r);
    CompleteConcat(bytes, f.print_(r) + [NEWLINE]);
  }

  /** A part of a line adds nothing. */
  lemma TornKeeps(bytes: string, text: string, k: nat)
    requires WholeLines(bytes) && Free(text, NEWLINE) && k <= |text|
    ensures Complete(bytes + (text + [NEWLINE])[..k]) == Complete(bytes)
  {
    hide Complete;
    var partial := text[..k];
    assert (text + [NEWLINE])[..k] == partial;
    CompleteLine(partial);
    CompleteConcat(bytes, partial);
  }

  class SampleLog<R(!new)> {
    const f: LineFormat<R>
    var bytes: string
    /** The records whose newline reached the disk. */
    ghost var records: seq<R>

    ghost predicate Valid()
      reads this
    {
      && (forall r :: PrintsBack(f, r))
      && Complete(bytes) == LinesOf(f, records)
      && forall i :: 0 <= i < |records| ==> f.version(records[i]) == SCHEMA_VERSION
    }

    constructor (f: LineFormat<R>)
      requires forall r :: PrintsBack(f, r)
      ensures Valid() && records == [] && this.f == f
    {
      this.f, bytes, records := f, "", [];
    }

    /** Truncates what follows the last newline. */
    method DropTornTail()
      requires Valid()
      modifies `bytes
      ensures Valid() && WholeLines(bytes)
    {
      var keep := |bytes|;
      while keep > 0 && bytes[keep - 1] != NEWLINE
        invariant 0 <= keep <= |bytes|
        invariant Free(bytes[keep..], NEWLINE)
      {
        keep := keep - 1;
      }
      var kept := bytes[..keep];
      assert bytes == kept + bytes[keep..];
      CompleteConcat(kept, bytes[keep..]);
      SplitFree(bytes[keep..], NEWLINE);
      bytes := kept;
    }

    /** Appends a record. After a crash at any byte the log holds the records it held before, and the new
        one only if its newline was written. */
    method Append(r: R, crash: Option<nat>) returns (outcome: Result<(), string>)
      requires Valid()
      modifies this
      ensures Valid()
      ensures f.version(r) != SCHEMA_VERSION ==> outcome.Err? && bytes == old(bytes) && records == old(records)
      ensures f.version(r) == SCHEMA_VERSION ==> (outcome.Ok? <==> crash.None?)
      ensures outcome.Ok? ==> records == old(records) + [r]
      ensures f.version(r) == SCHEMA_VERSION && crash.Some? ==>
        records == if crash.value <= |f.print_(r)| then old(records) else old(records) + [r]
    {
      if f.version(r) != SCHEMA_VERSION {
        return Err("refusing to write another schema version");
      }
      hide Complete, LinesOf, WholeLines;
      assert PrintsBack(f, r);
      var line := f.print_(r) + [NEWLINE];
      DropTornTail();
      if crash.Some? && crash.value < |line| {
        TornKeeps(bytes, f.print_(r), crash.value);
        bytes := bytes + line[..crash.value];
        return Err("the write was cut short");
      }
      AppendKeeps(f, bytes, records, r);
      bytes := bytes + line;
      records := records + [r];
      if crash.Some? {
        return Err("the write was cut short");
      }
      return Ok(());
    }

    /** Reads the complete lines strictly: exactly the records that were written. */
    method ReadComplete() returns (rs: Result<seq<R>, string>)
      requires Valid()
      ensures rs == Ok(records)
    {
      var lines := Complete(bytes);
      var found: seq<R> := [];
      for i := 0 to |lines|
        invariant found == records[..i]
      {
        assert PrintsBack(f, records[i]);
        var record := f.parse(lines[i]);
        if record.None? {
          return Err("a line does not parse");
        }
        if f.version(record.value) != SCHEMA_VERSION {
          return Err("unsupported schema version");
        }
        found := found + [record.value];
      }
      assert records[..|records|] == records;
      return Ok(found);
    }
  }
}
