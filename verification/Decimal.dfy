/** Decimal numbers in text. */
module Decimal {
  import opened Bytes

  predicate IsDigit(c: char) {
    '0' <= c <= '9'
  }

  predicate AllDecimal(s: string) {
    forall i :: 0 <= i < |s| ==> IsDigit(s[i])
  }

  function Digits(n: nat): (s: string)
    ensures |s| >= 1 && AllDecimal(s)
  {
    if n < 10 then ['0' + n as char] else Digits(n / 10) + ['0' + (n % 10) as char]
  }

  function FromDigits(s: string): nat
    requires AllDecimal(s)
  {
    if s == "" then 0 else
      assert IsDigit(s[|s| - 1]);
      10 * FromDigits(s[..|s| - 1]) + (s[|s| - 1] as int - '0' as int)
  }

  lemma {:induction false} DigitsRead(n: nat)
    ensures FromDigits(Digits(n)) == n
  {
    var s := Digits(n);
    if n < 10 {
      assert s[..|s| - 1] == "";
    } else {
      DigitsRead(n / 10);
      assert s[..|s| - 1] == Digits(n / 10);
    }
  }

  /** What follows does not go on with a digit. */
  predicate Delimited(x: string) {
    x == "" || !IsDigit(x[0])
  }

  /** How many digits the text starts with. */
  function DigitRun(s: string): nat {
    if s != "" && IsDigit(s[0]) then 1 + DigitRun(s[1..]) else 0
  }

  lemma {:induction false} RunOf(d: string, x: string)
    requires Delimited(x) && AllDecimal(d)
    ensures DigitRun(d + x) == |d|
  {
    if d == "" {
      assert d + x == x;
    } else {
      assert (d + x)[0] == d[0] && (d + x)[1..] == d[1..] + x;
      RunOf(d[1..], x);
    }
  }

  /** A number ends where the digits end. */
  lemma DigitsUnique(m: nat, x: string, n: nat, y: string)
    requires Delimited(x) && Delimited(y) && Digits(m) + x == Digits(n) + y
    ensures m == n && x == y
  {
    RunOf(Digits(m), x);
    RunOf(Digits(n), y);
    SplitEqual(Digits(m), x, Digits(n), y);
    DigitsRead(m);
    DigitsRead(n);
  }
}
