/** Splitting text at a separator and joining it again. */
module Paths {

  /** The parts between separators; the empty text is one empty part. */
  function Split(s: string, sep: char): (r: seq<string>)
    ensures |r| >= 1
  {
    if s == "" then [""]
    else if s[0] == sep then [""] + Split(s[1..], sep)
    else
      var rest := Split(s[1..], sep);
      [[s[0]] + rest[0]] + rest[1..]
  }

  function Join(parts: seq<string>, sep: char): string {
    if parts == [] then ""
    else if |parts| == 1 then parts[0]
    else parts[0] + [sep] + Join(parts[1..], sep)
  }

  ghost predicate Free(s: string, sep: char) {
    forall i :: 0 <= i < |s| ==> s[i] != sep
  }

  ghost predicate AllFree(parts: seq<string>, sep: char) {
    forall i :: 0 <= i < |parts| ==> Free(parts[i], sep)
  }

  lemma {:induction false} SplitParts(s: string, sep: char)
    ensures AllFree(Split(s, sep), sep)
    ensures forall p, i :: p in Split(s, sep) && 0 <= i < |p| ==> p[i] in s
  {
    if s != "" {
      SplitParts(s[1..], sep);
      var r, rest := Split(s, sep), Split(s[1..], sep);
      forall p, i | p in r && 0 <= i < |p| ensures p[i] in s {
        var k :| 0 <= k < |r| && r[k] == p;
        if s[0] == sep {
          if k > 0 { assert rest[k - 1] == p; assert p[i] in s[1..]; }
        } else if k == 0 {
          if i > 0 { assert rest[0][i - 1] == p[i]; assert rest[0] in rest; assert p[i] in s[1..]; }
        } else {
          assert rest[k] == p;
          assert p[i] in s[1..];
        }
      }
    }
  }

  lemma {:induction false} SplitFree(s: string, sep: char)
    requires Free(s, sep)
    ensures Split(s, sep) == [s]
  {
    if s != "" {
      SplitFree(s[1..], sep);
      assert s[0] != sep && [s[0]] + s[1..] == s;
    }
  }

  lemma {:induction false} SplitAt(a: string, b: string, sep: char)
    requires Free(a, sep)
    ensures Split(a + [sep] + b, sep) == [a] + Split(b, sep)
  {
    var s := a + [sep] + b;
    if a == "" {
      assert s[0] == sep && s[1..] == b;
    } else {
      assert s[0] == a[0] && s[1..] == a[1..] + [sep] + b;
      SplitAt(a[1..], b, sep);
      assert [a[0]] + a[1..] == a;
    }
  }

  /** Joined parts come apart again. */
  lemma {:induction false} SplitJoined(parts: seq<string>, sep: char)
    requires parts != [] && AllFree(parts, sep)
    ensures Split(Join(parts, sep), sep) == parts
  {
    if |parts| == 1 {
      SplitFree(parts[0], sep);
    } else {
      assert AllFree(parts[1..], sep);
      SplitJoined(parts[1..], sep);
      SplitAt(parts[0], Join(parts[1..], sep), sep);
      assert parts == [parts[0]] + parts[1..];
    }
  }

  /** And a split text joins to itself. */
  lemma {:induction false} JoinSplit(s: string, sep: char)
    ensures Join(Split(s, sep), sep) == s
  {
    if s != "" {
      JoinSplit(s[1..], sep);
      var r, rest := Split(s, sep), Split(s[1..], sep);
      if s[0] == sep {
        assert r[1..] == rest;
      } else if |rest| > 1 {
        assert r[1..] == rest[1..];
        assert [s[0]] + rest[0] + [sep] + Join(rest[1..], sep) == [s[0]] + (rest[0] + [sep] + Join(rest[1..], sep));
      }
    }
  }

  lemma {:induction false} JoinChars(parts: seq<string>, sep: char, i: nat)
    requires i < |Join(parts, sep)|
    ensures Join(parts, sep)[i] == sep || exists p :: p in parts && Join(parts, sep)[i] in p
  {
    if |parts| == 1 {
      assert Join(parts, sep)[i] in parts[0] && parts[0] in parts;
    } else if |parts| > 1 {
      var c := Join(parts, sep)[i];
      if i < |parts[0]| {
        assert c in parts[0] && parts[0] in parts;
      } else if i > |parts[0]| {
        assert Join(parts[1..], sep)[i - |parts[0]| - 1] == c;
        JoinChars(parts[1..], sep, i - |parts[0]| - 1);
        if c != sep {
          var p :| p in parts[1..] && c in p;
          assert p in parts;
        }
      }
    }
  }
}
