/** Byte order on strings and sorting by a total order. */
module Ordering {

  /** Lexicographic order, the order of Rust strings and byte slices. */
  predicate StringLeq(a: string, b: string) {
    a == [] || (b != [] && (a[0] < b[0] || (a[0] == b[0] && StringLeq(a[1..], b[1..]))))
  }

  lemma {:induction false} StringLeqTotal(a: string, b: string)
    ensures StringLeq(a, b) || StringLeq(b, a)
    ensures StringLeq(a, b) && StringLeq(b, a) ==> a == b
  {
    if a != [] && b != [] {
      StringLeqTotal(a[1..], b[1..]);
      if a[0] == b[0] && a[1..] == b[1..] {
        assert a == [a[0]] + a[1..] == [b[0]] + b[1..] == b;
      }
    }
  }

  /** `a` has the smaller character where the two first differ. */
  ghost predicate FirstDiffers(a: string, b: string, k: int) {
    0 <= k < |a| && k < |b| && a[k] < b[k] && forall i :: 0 <= i < k ==> a[i] == b[i]
  }

  /** One is a beginning of the other, or smaller where they first differ. */
  lemma {:induction false} StringLeqPlainly(a: string, b: string)
    ensures StringLeq(a, b) <==> a <= b || exists k :: FirstDiffers(a, b, k)
    decreases |a|
  {
    if a != [] && b != [] && a[0] == b[0] {
      var c, d := a[1..], b[1..];
      StringLeqPlainly(c, d);
      assert a <= b <==> c <= d by {
        assert a == [a[0]] + c && b == [b[0]] + d;
      }
      if exists k :: FirstDiffers(c, d, k) {
        var k :| FirstDiffers(c, d, k);
        assert forall i :: 0 < i < k + 1 ==> a[i] == c[i - 1] && b[i] == d[i - 1];
        assert FirstDiffers(a, b, k + 1);
      }
      if exists k :: FirstDiffers(a, b, k) {
        var k :| FirstDiffers(a, b, k);
        assert FirstDiffers(c, d, k - 1);
      }
    } else if a != [] && b != [] && a[0] < b[0] {
      assert FirstDiffers(a, b, 0);
    }
  }

  lemma {:induction false} StringLeqTransitive(a: string, b: string, c: string)
    requires StringLeq(a, b) && StringLeq(b, c)
    ensures StringLeq(a, c)
  {
    if a != [] && a[0] == b[0] == c[0] {
      StringLeqTransitive(a[1..], b[1..], c[1..]);
    }
  }

  ghost predicate TotalOrder<T(!new)>(leq: (T, T) -> bool) {
    && (forall x, y :: leq(x, y) || leq(y, x))
    && (forall x, y, z :: leq(x, y) && leq(y, z) ==> leq(x, z))
  }

  ghost predicate Sorted<T>(s: seq<T>, leq: (T, T) -> bool) {
    forall i, j :: 0 <= i < j < |s| ==> leq(s[i], s[j])
  }

  lemma StringOrder()
    ensures TotalOrder(StringLeq)
  {
    forall a, b ensures StringLeq(a, b) || StringLeq(b, a) { StringLeqTotal(a, b); }
    forall a, b, c | StringLeq(a, b) && StringLeq(b, c) ensures StringLeq(a, c) { StringLeqTransitive(a, b, c); }
  }

  predicate RealLeq(x: real, y: real) {
    x <= y
  }

  lemma RealOrder()
    ensures TotalOrder(RealLeq)
  {
  }

  /** The sorted rearrangement of s. Elements that are equal under leq keep their order. */
  method SortBy<T(!new)>(s: seq<T>, leq: (T, T) -> bool) returns (r: seq<T>)
    requires TotalOrder(leq)
    ensures Sorted(r, leq) && multiset(r) == multiset(s)
  {
    r := [];
    for n := 0 to |s|
      invariant Sorted(r, leq) && multiset(r) == multiset(s[..n])
    {
      r := Insert(r, s[n], leq);
      assert s[..n + 1] == s[..n] + [s[n]];
    }
    assert s[..|s|] == s;
  }

  method Insert<T(!new)>(s: seq<T>, x: T, leq: (T, T) -> bool) returns (r: seq<T>)
    requires TotalOrder(leq) && Sorted(s, leq)
    ensures Sorted(r, leq) && multiset(r) == multiset(s) + multiset{x}
  {
    var k := |s|;
    while k > 0 && !leq(s[k - 1], x)
      invariant 0 <= k <= |s|
      invariant forall i :: k <= i < |s| ==> leq(x, s[i])
    {
      k := k - 1;
    }
    r := s[..k] + [x] + s[k..];
    assert s == s[..k] + s[k..];
    PlacedSorted(s, x, leq, k);
  }

  lemma PlacedSorted<T(!new)>(s: seq<T>, x: T, leq: (T, T) -> bool, k: nat)
    requires TotalOrder(leq) && Sorted(s, leq) && k <= |s|
    requires (k > 0 ==> leq(s[k - 1], x)) && forall i :: k <= i < |s| ==> leq(x, s[i])
    ensures Sorted(s[..k] + [x] + s[k..], leq)
  {
    forall i | 0 <= i < k ensures leq(s[i], x) {
      if i < k - 1 { assert leq(s[i], s[k - 1]) && leq(s[k - 1], x); }
    }
  }

  ghost function Elements(s: seq<string>): set<string> {
    set x | x in s
  }

  ghost predicate Distinct<T>(s: seq<T>) {
    forall i, j :: 0 <= i < j < |s| ==> s[i] != s[j]
  }

  /** The strings of a set in byte order. */
  method SortedStrings(ids: set<string>) returns (r: seq<string>)
    ensures Sorted(r, StringLeq) && Distinct(r) && Elements(r) == ids && |r| == |ids|
  {
    var rest, list := ids, [];
    while rest != {}
      invariant rest <= ids && Distinct(list) && Elements(list) == ids - rest && |list| + |rest| == |ids|
      decreases |rest|
    {
      var x :| x in rest;
      assert x !in Elements(list);
      ElementsAppend(list, x);
      rest, list := rest - {x}, list + [x];
    }
    StringOrder();
    r := SortBy(list, StringLeq);
    SameContents(list, r);
    assert Elements(r) == Elements(list);
  }

  lemma ElementsAppend(s: seq<string>, x: string)
    ensures Elements(s + [x]) == Elements(s) + {x}
  {
  }

  lemma SameContents<T>(a: seq<T>, b: seq<T>)
    requires multiset(a) == multiset(b) && Distinct(a)
    ensures Distinct(b) && |a| == |b| && forall x :: x in a <==> x in b
  {
    forall x ensures x in a <==> x in b {
      assert x in multiset(a) <==> x in multiset(b);
    }
    assert |multiset(a)| == |multiset(b)|;
    forall i, j | 0 <= i < j < |b|
      ensures b[i] != b[j]
    {
      if b[i] == b[j] {
        TwiceCounted(b, i, j);
        OnceCounted(a, b[i]);
      }
    }
  }

  lemma TwiceCounted<T>(s: seq<T>, i: nat, j: nat)
    requires i < j < |s| && s[i] == s[j]
    ensures multiset(s)[s[i]] >= 2
  {
    assert s == s[..j] + [s[j]] + s[j + 1..];
    assert s[i] in s[..j];
  }

  lemma {:induction false} OnceCounted<T>(s: seq<T>, x: T)
    requires Distinct(s)
    ensures multiset(s)[x] <= 1
  {
    if s != [] {
      var n := |s| - 1;
      assert s == s[..n] + [s[n]];
      OnceCounted(s[..n], x);
      if s[n] == x { assert x !in s[..n]; }
    }
  }
}
