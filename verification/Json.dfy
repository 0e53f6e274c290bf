/** Canonical JSON: keys in byte order at every level, no whitespace, the escapes of RFC 8259
    section 7, integers only. */
module Json {
  import opened Wrappers
  import opened Bytes
  import opened Decimal
  import opened Escaping
  import opened Ordering

  datatype Value =
    | Null
    | Bool(b: bool)
    | Number(n: int)
    | Str(s: string)
    | Array(items: seq<Value>)
    | Object(entries: map<string, Value>)

  /** The letter of a two-character escape. */
  function ShortEscape(c: char): Option<char> {
    if c == '\"' then Some('\"')
    else if c == '\\' then Some('\\')
    else if c == 8 as char then Some('b')
    else if c == 12 as char then Some('f')
    else if c == '\n' then Some('n')
    else if c == '\r' then Some('r')
    else if c == '\t' then Some('t')
    else None
  }

  predicate IsControl(c: char) {
    c < ' '
  }

  /** One character inside a string literal. */
  function Code(c: char): (s: string)
    ensures s != "" && s[0] != '\"' && forall i :: 0 <= i < |s| ==> s[i] >= ' '
  {
    EscapeChar(ShortEscape, IsControl, c)
  }

  function Escape(s: string): string {
    EscapeWith(Code, s)
  }

  /** Text without control characters, backslash and quote is written as it is. */
  lemma {:induction false} VisibleIsKept(s: string)
    requires forall i :: 0 <= i < |s| ==> s[i] as int >= 32 && s[i] != '\\' && s[i] != '\"'
    ensures Escape(s) == s
  {
    if s != "" {
      VisibleIsKept(s[1..]);
      assert s == [s[0]] + s[1..];
    }
  }

  function Quoted(s: string): string {
    "\"" + Escape(s) + "\""
  }

  lemma CodeSeparates()
    ensures Separates(Code)
  {
    EscapeSeparates(ShortEscape, IsControl, Code);
  }

  lemma QuotedUnique(s: string, x: string, t: string, y: string)
    requires Quoted(s) + x == Quoted(t) + y
    ensures s == t && x == y
  {
    assert Quoted(s) + x == "\"" + (Escape(s) + ("\"" + x)) && Quoted(t) + y == "\"" + (Escape(t) + ("\"" + y));
    SplitEqual("\"", Escape(s) + ("\"" + x), "\"", Escape(t) + ("\"" + y));
    CodeSeparates();
    EscapeUnique(Code, s, x, t, y);
  }

  ghost predicate IsLeast(k: string, keys: set<string>) {
    k in keys && forall j :: j in keys ==> StringLeq(k, j)
  }

  lemma {:induction false} LeastExists(keys: set<string>)
    requires keys != {}
    ensures exists k :: IsLeast(k, keys)
    decreases |keys|
  {
    var a :| a in keys;
    var rest := keys - {a};
    if rest == {} {
      StringLeqTotal(a, a);
      assert keys == {a};
      assert IsLeast(a, keys);
    } else {
      LeastExists(rest);
      var b :| IsLeast(b, rest);
      StringLeqTotal(a, b);
      StringLeqTotal(a, a);
      if StringLeq(a, b) {
        forall j | j in keys ensures StringLeq(a, j) {
          if j != a { StringLeqTransitive(a, b, j); }
        }
        assert IsLeast(a, keys);
      } else {
        assert IsLeast(b, keys);
      }
    }
  }

  /** The keys in byte order. */
  ghost function SortedKeys(keys: set<string>): (r: seq<string>)
    ensures forall k :: k in r <==> k in keys
    decreases |keys|
  {
    if keys == {} then [] else
      LeastExists(keys);
      var k :| IsLeast(k, keys);
      [k] + SortedKeys(keys - {k})
  }

  ghost function Print(v: Value): string
    decreases v, 2
  {
    match v
    case Null => "null"
    case Bool(b) => if b then "true" else "false"
    case Number(n) => if n < 0 then "-" + Digits(-n) else Digits(n)
    case Str(s) => Quoted(s)
    case Array(_) => "[" + PrintItems(v, 0) + "]"
    case Object(entries) => "{" + PrintEntries(v, SortedKeys(entries.Keys), 0) + "}"
  }

  function Comma(i: nat): string {
    if i > 0 then "," else ""
  }

  /** The items from the i-th on, with the separators before them. */
  ghost function PrintItems(v: Value, i: nat): string
    requires v.Array? && i <= |v.items|
    decreases v, 1, |v.items| - i
  {
    if i == |v.items| then "" else Comma(i) + Print(v.items[i]) + PrintItems(v, i + 1)
  }

  ghost function PrintEntries(v: Value, keys: seq<string>, i: nat): string
    requires v.Object? && i <= |keys| && forall k :: k in keys ==> k in v.entries
    decreases v, 1, |keys| - i
  {
    if i == |keys| then "" else
      Comma(i) + Quoted(keys[i]) + ":" + Print(v.entries[keys[i]]) + PrintEntries(v, keys, i + 1)
  }

  /** The sorted keys are the only sorted list of them without repetition. */
  lemma {:induction false} SortedKeysUnique(keys: set<string>, r: seq<string>)
    requires Sorted(r, StringLeq) && (forall k :: k in r <==> k in keys)
    requires Distinct(r)
    ensures r == SortedKeys(keys)
    decreases |r|
  {
    if r == [] {
      assert keys == {} by {
        forall k ensures k !in keys { assert k !in r; }
      }
    } else {
      assert r[0] in keys;
      LeastExists(keys);
      var k := SortedKeys(keys)[0];
      assert IsLeast(k, keys);
      var i :| 0 <= i < |r| && r[i] == k;
      StringLeqTotal(r[0], k);
      assert r[0] == k;
      var rest := r[1..];
      forall j ensures j in rest <==> j in keys - {k} {
        if j in rest { var n :| 0 <= n < |rest| && rest[n] == j; assert r[n + 1] == j && r[0] != r[n + 1]; }
        if j in keys - {k} { var n :| 0 <= n < |r| && r[n] == j; assert rest[n - 1] == j; }
      }
      assert Sorted(rest, StringLeq);
      SortedKeysUnique(keys - {k}, rest);
      assert r == [k] + rest;
    }
  }

  /** The first character tells the kinds of values apart, and none is a closing bracket. */
  lemma Starts(v: Value)
    ensures Print(v) != ""
    ensures match v
      case Null => Print(v)[0] == 'n'
      case Bool(b) => Print(v)[0] == if b then 't' else 'f'
      case Number(n) => Print(v)[0] == '-' || IsDigit(Print(v)[0])
      case Str(_) => Print(v)[0] == '\"'
      case Array(_) => Print(v)[0] == '['
      case Object(_) => Print(v)[0] == '{'
  {
  }

  lemma NumberUnique(m: int, x: string, n: int, y: string)
    requires Delimited(x) && Delimited(y) && Print(Number(m)) + x == Print(Number(n)) + y
    ensures m == n && x == y
  {
    var s, t := Print(Number(m)) + x, Print(Number(n)) + y;
    assert s[0] == Print(Number(m))[0] && t[0] == Print(Number(n))[0];
    if m < 0 {
      Assoc("-", Digits(-m), x);
      Assoc("-", Digits(-n), y);
      SplitEqual("-", Digits(-m) + x, "-", Digits(-n) + y);
      DigitsUnique(-m, x, -n, y);
    } else {
      DigitsUnique(m, x, n, y);
    }
  }

  /** A printed value ends where it ends: whatever follows, equal texts are equal values. */
  lemma {:induction false} PrintUnique(a: Value, x: string, b: Value, y: string)
    requires Delimited(x) && Delimited(y) && Print(a) + x == Print(b) + y
    ensures a == b && x == y
    decreases a, 2
  {
    Starts(a);
    Starts(b);
    assert (Print(a) + x)[0] == Print(a)[0] && (Print(b) + y)[0] == Print(b)[0];
    match a {
      case Null => SplitEqual("null", x, "null", y);
      case Bool(p) => SplitEqual(Print(a), x, Print(b), y);
      case Number(m) => NumberUnique(m, x, b.n, y);
      case Str(s) => QuotedUnique(s, x, b.s, y);
      case Array(_) =>
        BracketUnique("[", PrintItems(a, 0), "]", x, PrintItems(b, 0), y);
        ItemsUnique(a, x, b, y, 0);
        assert a.items == a.items[0..] && b.items == b.items[0..];
      case Object(_) =>
        var ks, ls := SortedKeys(a.entries.Keys), SortedKeys(b.entries.Keys);
        BracketUnique("{", PrintEntries(a, ks, 0), "}", x, PrintEntries(b, ls, 0), y);
        EntriesUnique(a, ks, x, b, ls, y, 0);
        assert ks == ls;
        SameEntries(a, b, ks);
    }
  }

  /** Strips the same opening bracket from both sides. */
  lemma BracketUnique(open: string, a: string, close: string, x: string, b: string, y: string)
    requires open + a + close + x == open + b + close + y
    ensures a + (close + x) == b + (close + y)
  {
    assert open + a + close + x == open + (a + (close + x)) && open + b + close + y == open + (b + (close + y));
    SplitEqual(open, a + (close + x), open, b + (close + y));
  }

  lemma SameEntries(a: Value, b: Value, keys: seq<string>)
    requires a.Object? && b.Object? && (forall k :: k in keys <==> k in a.entries) && (forall k :: k in keys <==> k in b.entries)
    requires forall i :: 0 <= i < |keys| ==> a.entries[keys[i]] == b.entries[keys[i]]
    ensures a == b
  {
    forall k | k in a.entries ensures k in b.entries && a.entries[k] == b.entries[k] {
      assert k in keys;
      var i :| 0 <= i < |keys| && keys[i] == k;
    }
    assert a.entries.Keys == b.entries.Keys;
    assert a.entries == b.entries;
  }

  /** Items go on with a comma or a value, never with a closing bracket. */
  lemma ItemsStart(v: Value, i: nat, x: string)
    requires v.Array? && i < |v.items|
    ensures PrintItems(v, i) + x == Comma(i) + (Print(v.items[i]) + (PrintItems(v, i + 1) + x))
    ensures PrintItems(v, i) != "" && PrintItems(v, i)[0] != ']' && (i > 0 ==> !IsDigit(PrintItems(v, i)[0]))
  {
    Starts(v.items[i]);
    Assoc(Comma(i) + Print(v.items[i]), PrintItems(v, i + 1), x);
    Assoc(Comma(i), Print(v.items[i]), PrintItems(v, i + 1) + x);
  }

  lemma ItemsGoOn(v: Value, i: nat, x: string, y: string)
    requires v.Array? && i < |v.items|
    ensures PrintItems(v, i) + x != "" + ("]" + y)
  {
    ItemsStart(v, i, x);
    assert (PrintItems(v, i) + x)[0] == PrintItems(v, i)[0] && ("" + ("]" + y))[0] == ']';
  }

  lemma ItemsDelimited(v: Value, i: nat, x: string)
    requires v.Array? && 0 < i <= |v.items|
    ensures Delimited(PrintItems(v, i) + ("]" + x))
  {
    if i < |v.items| {
      ItemsStart(v, i, x);
    }
  }

  lemma {:induction false} ItemsUnique(a: Value, x: string, b: Value, y: string, i: nat)
    requires a.Array? && b.Array? && i <= |a.items| && i <= |b.items|
    requires PrintItems(a, i) + ("]" + x) == PrintItems(b, i) + ("]" + y)
    requires Delimited(x) && Delimited(y)
    ensures a.items[i..] == b.items[i..] && x == y
    decreases a, 1, |a.items| - i
  {
    var p, q := "]" + x, "]" + y;
    if i == |a.items| && i == |b.items| {
      SplitEqual("", p, "", q);
      SplitEqual("]", x, "]", y);
    } else if i == |b.items| {
      ItemsGoOn(a, i, p, y);
    } else if i == |a.items| {
      ItemsGoOn(b, i, q, x);
    } else {
      var ra, rb := PrintItems(a, i + 1) + p, PrintItems(b, i + 1) + q;
      ItemsStart(a, i, p);
      ItemsStart(b, i, q);
      SplitEqual(Comma(i), Print(a.items[i]) + ra, Comma(i), Print(b.items[i]) + rb);
      ItemsDelimited(a, i + 1, x);
      ItemsDelimited(b, i + 1, y);
      PrintUnique(a.items[i], ra, b.items[i], rb);
      ItemsUnique(a, x, b, y, i + 1);
      assert a.items[i..] == [a.items[i]] + a.items[i + 1..] && b.items[i..] == [b.items[i]] + b.items[i + 1..];
    }
  }

  lemma EntriesStart(v: Value, keys: seq<string>, i: nat, x: string)
    requires v.Object? && i < |keys| && forall k :: k in keys ==> k in v.entries
    ensures PrintEntries(v, keys, i) + x
         == Comma(i) + (Quoted(keys[i]) + (":" + (Print(v.entries[keys[i]]) + (PrintEntries(v, keys, i + 1) + x))))
    ensures PrintEntries(v, keys, i) != "" && PrintEntries(v, keys, i)[0] != '}' && !IsDigit(PrintEntries(v, keys, i)[0])
  {
    var key, value, rest := Quoted(keys[i]), Print(v.entries[keys[i]]), PrintEntries(v, keys, i + 1);
    Assoc(Comma(i) + key + ":" + value, rest, x);
    Assoc(Comma(i) + key + ":", value, rest + x);
    Assoc(Comma(i) + key, ":", value + (rest + x));
    Assoc(Comma(i), key, ":" + (value + (rest + x)));
  }

  lemma EntriesGoOn(v: Value, keys: seq<string>, i: nat, x: string, y: string)
    requires v.Object? && i < |keys| && forall k :: k in keys ==> k in v.entries
    ensures PrintEntries(v, keys, i) + x != "" + ("}" + y)
  {
    EntriesStart(v, keys, i, x);
    assert (PrintEntries(v, keys, i) + x)[0] == PrintEntries(v, keys, i)[0] && ("" + ("}" + y))[0] == '}';
  }

  lemma EntriesDelimited(v: Value, keys: seq<string>, i: nat, x: string)
    requires v.Object? && i <= |keys| && forall k :: k in keys ==> k in v.entries
    ensures Delimited(PrintEntries(v, keys, i) + ("}" + x))
  {
    if i < |keys| {
      EntriesStart(v, keys, i, x);
    }
  }

  lemma {:induction false} EntriesUnique(a: Value, ks: seq<string>, x: string, b: Value, ls: seq<string>, y: string, i: nat)
    requires a.Object? && b.Object? && i <= |ks| && i <= |ls|
    requires (forall k :: k in ks ==> k in a.entries) && (forall k :: k in ls ==> k in b.entries)
    requires PrintEntries(a, ks, i) + ("}" + x) == PrintEntries(b, ls, i) + ("}" + y)
    requires Delimited(x) && Delimited(y)
    ensures ks[i..] == ls[i..] && x == y
    ensures |ks| == |ls| && forall j :: i <= j < |ks| ==> a.entries[ks[j]] == b.entries[ls[j]]
    decreases a, 1, |ks| - i
  {
    var p, q := "}" + x, "}" + y;
    if i == |ks| && i == |ls| {
      SplitEqual("", p, "", q);
      SplitEqual("}", x, "}", y);
    } else if i == |ls| {
      EntriesGoOn(a, ks, i, p, y);
    } else if i == |ks| {
      EntriesGoOn(b, ls, i, q, x);
    } else {
      var ra, rb := PrintEntries(a, ks, i + 1) + p, PrintEntries(b, ls, i + 1) + q;
      EntryUnique(a, ks, p, b, ls, q, i);
      EntriesDelimited(a, ks, i + 1, x);
      EntriesDelimited(b, ls, i + 1, y);
      PrintUnique(a.entries[ks[i]], ra, b.entries[ls[i]], rb);
      EntriesUnique(a, ks, x, b, ls, y, i + 1);
      assert ks[i..] == [ks[i]] + ks[i + 1..] && ls[i..] == [ls[i]] + ls[i + 1..];
    }
  }

  /** The key of the next entry can be read off. */
  lemma EntryUnique(a: Value, ks: seq<string>, p: string, b: Value, ls: seq<string>, q: string, i: nat)
    requires a.Object? && b.Object? && i < |ks| && i < |ls|
    requires (forall k :: k in ks ==> k in a.entries) && (forall k :: k in ls ==> k in b.entries)
    requires PrintEntries(a, ks, i) + p == PrintEntries(b, ls, i) + q
    ensures ks[i] == ls[i]
    ensures Print(a.entries[ks[i]]) + (PrintEntries(a, ks, i + 1) + p) == Print(b.entries[ls[i]]) + (PrintEntries(b, ls, i + 1) + q)
  {
    var va, vb := Print(a.entries[ks[i]]) + (PrintEntries(a, ks, i + 1) + p), Print(b.entries[ls[i]]) + (PrintEntries(b, ls, i + 1) + q);
    EntriesStart(a, ks, i, p);
    EntriesStart(b, ls, i, q);
    SplitEqual(Comma(i), Quoted(ks[i]) + (":" + va), Comma(i), Quoted(ls[i]) + (":" + vb));
    QuotedUnique(ks[i], ":" + va, ls[i], ":" + vb);
    SplitEqual(":", va, ":", vb);
  }

  /** Different values have different canonical texts. */
  lemma PrintInjective(a: Value, b: Value)
    requires Print(a) == Print(b)
    ensures a == b
  {
    assert Print(a) + "" == Print(b) + "";
    PrintUnique(a, "", b, "");
  }

  ghost predicate Printable(s: string) {
    forall i :: 0 <= i < |s| ==> s[i] >= ' '
  }

  lemma PrintableConcat(a: string, b: string)
    requires Printable(a) && Printable(b)
    ensures Printable(a + b)
  {
  }

  lemma {:induction false} QuotedIsPrintable(s: string)
    ensures Printable(Escape(s)) && Printable(Quoted(s))
  {
    if s != "" {
      QuotedIsPrintable(s[1..]);
    }
  }

  /** Canonical text has no control characters, so it stays on one line. */
  lemma {:induction false} PrintIsPrintable(v: Value)
    ensures Printable(Print(v))
    decreases v, 2
  {
    match v
    case Null =>
    case Bool(_) =>
    case Number(_) =>
    case Str(s) => QuotedIsPrintable(s);
    case Array(_) => ItemsPrintable(v, 0);
    case Object(entries) => EntriesPrintable(v, SortedKeys(entries.Keys), 0);
  }

  lemma {:induction false} ItemsPrintable(v: Value, i: nat)
    requires v.Array? && i <= |v.items|
    ensures Printable(PrintItems(v, i))
    decreases v, 1, |v.items| - i
  {
    if i < |v.items| {
      PrintIsPrintable(v.items[i]);
      ItemsPrintable(v, i + 1);
    }
  }

  lemma {:induction false} EntriesPrintable(v: Value, keys: seq<string>, i: nat)
    requires v.Object? && i <= |keys| && forall k :: k in keys ==> k in v.entries
    ensures Printable(PrintEntries(v, keys, i))
    decreases v, 1, |keys| - i
  {
    if i < |keys| {
      var key, value, rest := Quoted(keys[i]), Print(v.entries[keys[i]]), PrintEntries(v, keys, i + 1);
      QuotedIsPrintable(keys[i]);
      PrintIsPrintable(v.entries[keys[i]]);
      EntriesPrintable(v, keys, i + 1);
      PrintableConcat(Comma(i), key);
      PrintableConcat(Comma(i) + key, ":");
      PrintableConcat(Comma(i) + key + ":", value);
      PrintableConcat(Comma(i) + key + ":" + value, rest);
    }
  }

  /** Appends the canonical text of a value. The keys of an object are met in any order and sorted. */
  method WriteCanonical(v: Value, out: string) returns (o: string)
    ensures o == out + Print(v)
    decreases v, 2
  {
    match v {
      case Null => o := out + "null";
      case Bool(b) => o := out + if b then "true" else "false";
      case Number(n) => o := out + if n < 0 then "-" + Digits(-n) else Digits(n);
      case Str(s) => o := out + Quoted(s);
      case Array(_) => o := WriteItems(v, out);
      case Object(_) => o := WriteEntries(v, out);
    }
  }

  lemma ItemsFrame(out: string, v: Value)
    requires v.Array?
    ensures out + "[" + (PrintItems(v, 0) + "]") == out + Print(v)
    ensures PrintItems(v, |v.items|) == ""
  {
    Assoc("[", PrintItems(v, 0), "]");
    Assoc(out, "[", PrintItems(v, 0) + "]");
  }

  lemma ItemWritten(o: string, v: Value, i: nat)
    requires v.Array? && i < |v.items|
    ensures o + (PrintItems(v, i) + "]") == o + Comma(i) + Print(v.items[i]) + (PrintItems(v, i + 1) + "]")
  {
    ItemsStart(v, i, "]");
    ThreeMore(o, Comma(i), Print(v.items[i]), PrintItems(v, i + 1) + "]");
  }

  method WriteItem(v: Value, i: nat, out: string) returns (o: string)
    requires v.Array? && i < |v.items|
    ensures o == out + Comma(i) + Print(v.items[i])
    decreases v, 0
  {
    hide Print;
    o := out;
    if i > 0 {
      o := o + ",";
    }
    o := WriteCanonical(v.items[i], o);
  }

  method WriteItems(v: Value, out: string) returns (o: string)
    requires v.Array?
    ensures o == out + Print(v)
    decreases v, 1
  {
    ItemsFrame(out, v);
    hide Print, PrintItems;
    o := out + "[";
    for i := 0 to |v.items|
      invariant o + (PrintItems(v, i) + "]") == out + Print(v)
    {
      ItemWritten(o, v, i);
      o := WriteItem(v, i, o);
    }
    o := o + "]";
  }

  lemma ThreeMore(o: string, a: string, b: string, rest: string)
    ensures o + (a + (b + rest)) == o + a + b + rest
  {
  }

  lemma EntryWritten(o: string, v: Value, keys: seq<string>, i: nat)
    requires v.Object? && i < |keys| && forall k :: k in keys ==> k in v.entries
    ensures o + (PrintEntries(v, keys, i) + "}")
         == o + Comma(i) + Quoted(keys[i]) + ":" + Print(v.entries[keys[i]]) + (PrintEntries(v, keys, i + 1) + "}")
  {
    var a, b, c, d := Comma(i), Quoted(keys[i]), Print(v.entries[keys[i]]), PrintEntries(v, keys, i + 1) + "}";
    EntriesStart(v, keys, i, "}");
    ThreeMore(o, a, b, ":" + (c + d));
    ThreeMore(o + a + b, ":", c, d);
  }

  method WriteEntry(v: Value, k: string, i: nat, out: string) returns (o: string)
    requires v.Object? && k in v.entries
    ensures o == out + Comma(i) + Quoted(k) + ":" + Print(v.entries[k])
    decreases v, 0
  {
    o := out;
    if i > 0 {
      o := o + ",";
    }
    o := o + Quoted(k) + ":";
    o := WriteCanonical(v.entries[k], o);
  }

  lemma EntriesFrame(out: string, v: Value, keys: seq<string>)
    requires v.Object? && keys == SortedKeys(v.entries.Keys)
    ensures out + "{" + (PrintEntries(v, keys, 0) + "}") == out + Print(v)
    ensures PrintEntries(v, keys, |keys|) == ""
  {
    hide SortedKeys, Quoted;
    Assoc("{", PrintEntries(v, keys, 0), "}");
    Assoc(out, "{", PrintEntries(v, keys, 0) + "}");
  }

  method WriteEntries(v: Value, out: string) returns (o: string)
    requires v.Object?
    ensures o == out + Print(v)
    decreases v, 1
  {
    var keys := SortedStrings(v.entries.Keys);
    SortedKeysUnique(v.entries.Keys, keys);
    EntriesFrame(out, v, keys);
    hide Quoted, Print, PrintEntries, SortedKeys;
    o := out + "{";
    for i := 0 to |keys|
      invariant o + (PrintEntries(v, keys, i) + "}") == out + Print(v)
    {
      EntryWritten(o, v, keys, i);
      o := WriteEntry(v, keys[i], i, o);
    }
    o := o + "}";
  }
}
