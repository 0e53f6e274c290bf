/** Hexadecimal text of byte strings. */
module Hex {
  import opened Wrappers
  import opened Bytes

  function Digit(n: nat): (c: char)
    requires n < 16
    ensures IsHexChar(c)
  {
    if n < 10 then '0' + n as char else 'a' + (n - 10) as char
  }

  /** The value of a digit of either case. */
  function DigitValue(c: char): Option<nat> {
    if '0' <= c <= '9' then Some((c - '0') as nat)
    else if 'a' <= c <= 'f' then Some((c - 'a') as nat + 10)
    else if 'A' <= c <= 'F' then Some((c - 'A') as nat + 10)
    else None
  }

  function Encode(s: string): (t: string)
    requires IsBytes(s)
    ensures |t| == 2 * |s|
  {
    if s == "" then "" else [Digit(s[0] as nat / 16), Digit(s[0] as nat % 16)] + Encode(s[1..])
  }

  function Decode(t: string): Option<string> {
    if t == "" then Some("")
    else if |t| == 1 then None
    else
      var high, low, rest := DigitValue(t[0]), DigitValue(t[1]), Decode(t[2..]);
      if high.None? || low.None? || rest.None? || high.value > 15 || low.value > 15 then None
      else Some([(16 * high.value + low.value) as char] + rest.value)
  }

  lemma DigitReads(n: nat)
    requires n < 16
    ensures DigitValue(Digit(n)) == Some(n)
  {
  }

  lemma PairDecodes(n: nat, rest: string)
    requires n < 256 && Decode(rest).Some?
    ensures Decode([Digit(n / 16), Digit(n % 16)] + rest) == Some([n as char] + Decode(rest).value)
  {
    DigitReads(n / 16);
    DigitReads(n % 16);
    hide Digit, DigitValue;
    var t := [Digit(n / 16), Digit(n % 16)] + rest;
    assert t[0] == Digit(n / 16) && t[1] == Digit(n % 16) && t[2..] == rest;
    assert 16 * (n / 16) + n % 16 == n;
  }

  lemma {:induction false} DecodesEncoded(s: string)
    requires IsBytes(s)
    ensures Decode(Encode(s)) == Some(s)
  {
    if s != "" {
      DecodesEncoded(s[1..]);
      hide Decode;
      PairDecodes(s[0] as nat, Encode(s[1..]));
      assert s == [s[0]] + s[1..];
    }
  }

  lemma {:induction false} DecodesHex(t: string)
    requires |t| % 2 == 0 && forall i :: 0 <= i < |t| ==> IsHexChar(t[i])
    ensures Decode(t).Some?
  {
    if t != "" {
      DecodesHex(t[2..]);
    }
  }

  /** Decoding keeps lowercase digests apart. */
  lemma {:induction false} DecodeInjective(a: string, b: string)
    requires (forall i :: 0 <= i < |a| ==> IsHexChar(a[i])) && (forall i :: 0 <= i < |b| ==> IsHexChar(b[i]))
    requires Decode(a).Some? && Decode(a) == Decode(b)
    ensures a == b
  {
    if a == "" || b == "" {
    } else {
      var x, y := Decode(a).value, Decode(b).value;
      assert x[0] == y[0] && x[1..] == Decode(a[2..]).value && y[1..] == Decode(b[2..]).value;
      DecodeInjective(a[2..], b[2..]);
      assert DigitValue(a[0]) == DigitValue(b[0]) && DigitValue(a[1]) == DigitValue(b[1]);
      assert a == [a[0], a[1]] + a[2..] && b == [b[0], b[1]] + b[2..];
    }
  }
}
