/** Text in quotes: escapes that can be read back whatever the character codes are, as long as no
    code is the start of another and none starts with a quote. */
module Escaping {
  import opened Wrappers
  import opened Bytes
  import Hex

  /** The codes of `c` and `d` can be told apart in front of any text. */
  ghost predicate SeparatesAt(code: char -> string, c: char, x: string, d: char, y: string) {
    code(c) + x == code(d) + y ==> c == d && x == y
  }

  ghost predicate Separates(code: char -> string) {
    && (forall c :: code(c) != "" && code(c)[0] != '\"')
    && (forall c, x, d, y :: SeparatesAt(code, c, x, d, y))
  }

  function EscapeWith(code: char -> string, s: string): string {
    if s == "" then "" else code(s[0]) + EscapeWith(code, s[1..])
  }

  /** A character inside quotes: a short escape, four hex digits or the character itself. */
  function EscapeChar(short: char -> Option<char>, control: char -> bool, c: char): (s: string)
    requires control(c) ==> c as nat < 256
    ensures s != ""
  {
    if short(c).Some? then ['\\', short(c).value]
    else if control(c) then ['\\', 'u'] + FourHex(c)
    else [c]
  }

  /** Backslash and quote have short escapes, and short escapes differ from each other and from `u`. */
  ghost predicate Escapes(short: char -> Option<char>, control: char -> bool) {
    && short('\\').Some? && short('\"').Some?
    && (forall c, d :: short(c).Some? && short(c) == short(d) ==> c == d)
    && (forall c :: short(c) != Some('u'))
    && (forall c :: control(c) ==> c as nat < 256)
  }

  lemma CharUnique(short: char -> Option<char>, control: char -> bool, c: char, x: string, d: char, y: string)
    requires Escapes(short, control)
    requires EscapeChar(short, control, c) + x == EscapeChar(short, control, d) + y
    ensures c == d && x == y
  {
    var a, b := EscapeChar(short, control, c), EscapeChar(short, control, d);
    var s, t := a + x, b + y;
    assert s[0] == a[0] && t[0] == b[0];
    if |a| > 1 {
      assert s[1] == a[1] && t[1] == b[1];
      if |a| == 6 {
        assert FourHex(c) == s[2..6] && FourHex(d) == t[2..6];
        FourHexInjective(c, d);
      }
    }
    SplitEqual(a, x, b, y);
  }

  lemma EscapeSeparates(short: char -> Option<char>, control: char -> bool, code: char -> string)
    requires Escapes(short, control) && forall c :: code(c) == EscapeChar(short, control, c)
    ensures Separates(code)
  {
    forall c, x, d, y ensures SeparatesAt(code, c, x, d, y) {
      if code(c) + x == code(d) + y {
        CharUnique(short, control, c, x, d, y);
      }
    }
  }

  lemma EndsFirst(code: char -> string, x: string, t: string, y: string)
    requires Separates(code) && t != ""
    ensures "" + ("\"" + x) != EscapeWith(code, t) + ("\"" + y)
  {
    assert (EscapeWith(code, t) + ("\"" + y))[0] == code(t[0])[0];
    assert ("" + ("\"" + x))[0] == '\"';
  }

  /** A quoted text ends at the first quote that is not escaped. */
  lemma {:induction false} EscapeUnique(code: char -> string, s: string, x: string, t: string, y: string)
    requires Separates(code)
    requires EscapeWith(code, s) + ("\"" + x) == EscapeWith(code, t) + ("\"" + y)
    ensures s == t && x == y
    decreases |s|
  {
    var p, q := "\"" + x, "\"" + y;
    if s == "" && t == "" {
      SplitEqual("", p, "", q);
      SplitEqual("\"", x, "\"", y);
    } else if s == "" {
      EndsFirst(code, x, t, y);
    } else if t == "" {
      EndsFirst(code, y, s, x);
    } else {
      Assoc(code(s[0]), EscapeWith(code, s[1..]), p);
      Assoc(code(t[0]), EscapeWith(code, t[1..]), q);
      assert SeparatesAt(code, s[0], EscapeWith(code, s[1..]) + p, t[0], EscapeWith(code, t[1..]) + q);
      EscapeUnique(code, s[1..], x, t[1..], y);
      assert s == [s[0]] + s[1..] && t == [t[0]] + t[1..];
    }
  }

  /** The four hex digits of a character below 256. */
  function FourHex(c: char): (s: string)
    requires c as nat < 256
    ensures |s| == 4 && forall i :: 0 <= i < 4 ==> IsHexChar(s[i])
  {
    ['0', '0', Hex.Digit(c as nat / 16), Hex.Digit(c as nat % 16)]
  }

  lemma FourHexInjective(c: char, d: char)
    requires c as nat < 256 && d as nat < 256 && FourHex(c) == FourHex(d)
    ensures c == d
  {
    var s, t := FourHex(c), FourHex(d);
    assert s[2] == t[2] && s[3] == t[3];
    Hex.DigitReads(c as nat / 16);
    Hex.DigitReads(d as nat / 16);
    Hex.DigitReads(c as nat % 16);
    Hex.DigitReads(d as nat % 16);
  }
}
