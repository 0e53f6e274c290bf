/** Length-prefixed fields and the domain-separated digests taken over them. */
module Fields {
  import opened Bytes

  /** One field: its length as a little-endian u64, then its bytes. */
  function PutField(s: string): string {
    U64(|s|) + s
  }

  function PutFields(fields: seq<string>): string {
    if fields == [] then "" else PutField(fields[0]) + PutFields(fields[1..])
  }

  /** No slice reaches 2^64 bytes. */
  ghost predicate Sized(fields: seq<string>) {
    forall i :: 0 <= i < |fields| ==> |fields[i]| < U64_LIMIT
  }

  lemma {:induction false} PutFieldsAppend(a: seq<string>, b: seq<string>)
    ensures PutFields(a + b) == PutFields(a) + PutFields(b)
  {
    if a == [] {
      assert a + b == b;
    } else {
      PutFieldsAppend(a[1..], b);
      assert (a + b)[1..] == a[1..] + b;
    }
  }

  lemma FirstFieldUnique(a: string, x: string, b: string, y: string)
    requires |a| < U64_LIMIT && |b| < U64_LIMIT
    requires PutField(a) + x == PutField(b) + y
    ensures a == b && x == y
  {
    assert PutField(a) + x == U64(|a|) + (a + x) && PutField(b) + y == U64(|b|) + (b + y);
    SplitEqual(U64(|a|), a + x, U64(|b|), b + y);
    U64Injective(|a|, |b|);
    SplitEqual(a, x, b, y);
  }

  lemma NonEmptyStream(fields: seq<string>)
    requires fields != []
    ensures |PutFields(fields)| >= 8
  {
    assert |PutField(fields[0])| >= 8;
  }

  /** A field stream determines its fields. */
  lemma {:induction false} FieldsUnique(a: seq<string>, b: seq<string>)
    requires Sized(a) && Sized(b) && PutFields(a) == PutFields(b)
    ensures a == b
    decreases |a|
  {
    if a == [] {
      if b != [] { NonEmptyStream(b); }
    } else if b == [] {
      NonEmptyStream(a);
    } else {
      FirstFieldUnique(a[0], PutFields(a[1..]), b[0], PutFields(b[1..]));
      FieldsUnique(a[1..], b[1..]);
      assert a == [a[0]] + a[1..] && b == [b[0]] + b[1..];
    }
  }

  function DomainInput(domain: string, fields: seq<string>): string {
    PutField(domain) + PutFields(fields)
  }

  function DomainDigest(h: Hash, domain: string, fields: seq<string>): Digest {
    h(DomainInput(domain, fields))
  }

  lemma DomainInputUnique(d1: string, f1: seq<string>, d2: string, f2: seq<string>)
    requires Sized([d1]) && Sized(f1) && Sized([d2]) && Sized(f2) && DomainInput(d1, f1) == DomainInput(d2, f2)
    ensures d1 == d2 && f1 == f2
  {
    assert [d1][0] == d1 && [d2][0] == d2;
    FirstFieldUnique(d1, PutFields(f1), d2, PutFields(f2));
    FieldsUnique(f1, f2);
  }
}
