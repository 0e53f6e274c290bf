/** Finite sums of reals over sets, independent of any enumeration order. */
module Sums {

  ghost function Sum<T>(S: set<T>, f: T -> real): real
    decreases |S|
  {
    if S == {} then 0.0 else
      var x :| x in S;
      f(x) + Sum(S - {x}, f)
  }

  /** Any element may be taken out first. */
  lemma {:induction false} SumPick<T>(S: set<T>, f: T -> real, x: T)
    requires x in S
    ensures Sum(S, f) == f(x) + Sum(S - {x}, f)
    decreases |S|
  {
    var y :| y in S && Sum(S, f) == f(y) + Sum(S - {y}, f);
    if y != x {
      SumPick(S - {y}, f, x);
      SumPick(S - {x}, f, y);
      assert S - {y} - {x} == S - {x} - {y};
    }
  }

  lemma {:induction false} SumEq<T>(S: set<T>, f: T -> real, g: T -> real)
    requires forall x :: x in S ==> f(x) == g(x)
    ensures Sum(S, f) == Sum(S, g)
    decreases |S|
  {
    if S != {} {
      var x :| x in S;
      SumPick(S, f, x);
      SumPick(S, g, x);
      SumEq(S - {x}, f, g);
    }
  }

  lemma {:induction false} SumLeq<T>(S: set<T>, f: T -> real, g: T -> real)
    requires forall x :: x in S ==> f(x) <= g(x)
    ensures Sum(S, f) <= Sum(S, g)
    decreases |S|
  {
    if S != {} {
      var x :| x in S;
      SumPick(S, f, x);
      SumPick(S, g, x);
      SumLeq(S - {x}, f, g);
    }
  }

  /** A product by name, so that proofs need not look inside it. */
  ghost function Scale(q: real, x: real): real {
    q * x
  }

  lemma ScaleAdditive(q: real)
    ensures Additive(x => Scale(q, x))
  {
  }

  lemma {:induction false} SumConst<T>(S: set<T>, f: T -> real, c: real)
    requires forall x :: x in S ==> f(x) == c
    ensures Sum(S, f) == Scale(|S| as real, c)
    decreases |S|
  {
    if S != {} {
      var x :| x in S;
      SumPick(S, f, x);
      SumConst(S - {x}, f, c);
      assert |S| == |S - {x}| + 1;
    }
  }

  lemma {:induction false} SumAdd<T>(S: set<T>, f: T -> real, g: T -> real, h: T -> real)
    requires forall x :: x in S ==> h(x) == f(x) + g(x)
    ensures Sum(S, h) == Sum(S, f) + Sum(S, g)
    decreases |S|
  {
    if S != {} {
      var x :| x in S;
      SumPick(S, f, x);
      SumPick(S, g, x);
      SumPick(S, h, x);
      SumAdd(S - {x}, f, g, h);
    }
  }

  ghost predicate AddsAt(k: real -> real, a: real, b: real) {
    k(a + b) == k(a) + k(b)
  }

  ghost predicate Additive(k: real -> real) {
    k(0.0) == 0.0 && forall a, b :: AddsAt(k, a, b)
  }

  /** A sum passes through any additive function, for one a multiplication by a constant. */
  lemma {:induction false} SumLinear<T>(S: set<T>, f: T -> real, k: real -> real, h: T -> real)
    requires Additive(k)
    requires forall x :: x in S ==> h(x) == k(f(x))
    ensures Sum(S, h) == k(Sum(S, f))
    decreases |S|
  {
    if S != {} {
      var x :| x in S;
      SumPick(S, f, x);
      SumPick(S, h, x);
      SumLinear(S - {x}, f, k, h);
      assert AddsAt(k, f(x), Sum(S - {x}, f));
    }
  }

  /** Elements that contribute nothing may be dropped. */
  lemma {:induction false} SumSubset<T>(R: set<T>, S: set<T>, f: T -> real)
    requires R <= S
    requires forall x :: x in S - R ==> f(x) == 0.0
    ensures Sum(S, f) == Sum(R, f)
    decreases |S|
  {
    if S - R == {} {
      assert S == R;
    } else {
      var x :| x in S - R;
      SumPick(S, f, x);
      SumSubset(R, S - {x}, f);
    }
  }

  ghost function RowSum<A, B>(T: set<B>, h: (A, B) -> real, x: A): real {
    Sum(T, y => h(x, y))
  }

  ghost function ColumnSum<A, B>(S: set<A>, h: (A, B) -> real, y: B): real {
    Sum(S, x => h(x, y))
  }

  lemma RowSumEq<A, B>(T: set<B>, h: (A, B) -> real, x: A, f: B -> real)
    requires forall y :: y in T ==> f(y) == h(x, y)
    ensures RowSum(T, h, x) == Sum(T, f)
  {
    SumEq(T, f, y => h(x, y));
  }

  lemma ColumnSumEq<A, B>(S: set<A>, h: (A, B) -> real, y: B, f: A -> real)
    requires forall x :: x in S ==> f(x) == h(x, y)
    ensures ColumnSum(S, h, y) == Sum(S, f)
  {
    SumEq(S, f, x => h(x, y));
  }

  /** Rows first or columns first: the double sum is the same. */
  lemma {:induction false} SumSwap<A, B>(S: set<A>, T: set<B>, h: (A, B) -> real, rows: A -> real, columns: B -> real)
    requires forall x :: x in S ==> rows(x) == RowSum(T, h, x)
    requires forall y :: y in T ==> columns(y) == ColumnSum(S, h, y)
    ensures Sum(S, rows) == Sum(T, columns)
    decreases |S|
  {
    if S == {} {
      SumConst(T, columns, 0.0);
    } else {
      var a :| a in S;
      var R := S - {a};
      SumPick(S, rows, a);
      var rest := y => ColumnSum(R, h, y);
      SumSwap(R, T, h, rows, rest);
      forall y | y in T
        ensures columns(y) == h(a, y) + rest(y)
      {
        SumPick(S, x => h(x, y), a);
      }
      SumAdd(T, y => h(a, y), rest, columns);
    }
  }

  function Indicator(b: bool): real {
    if b then 1.0 else 0.0
  }

  /** The size of a filtered set is a sum of indicators. */
  lemma {:induction false} CardAsSum<T>(S: set<T>, p: T -> bool)
    ensures |set x | x in S && p(x)| as real == Sum(S, x => Indicator(p(x)))
    decreases |S|
  {
    var f := x => Indicator(p(x));
    if S != {} {
      var a :| a in S;
      SumPick(S, f, a);
      CardAsSum(S - {a}, p);
      var rest := set x | x in S - {a} && p(x);
      assert (set x | x in S && p(x)) == if p(a) then rest + {a} else rest;
    }
  }

  ghost function Row<A, B>(T: set<B>, r: (A, B) -> bool, x: A): set<B> {
    set y | y in T && r(x, y)
  }

  ghost function Column<A, B>(S: set<A>, r: (A, B) -> bool, y: B): set<A> {
    set x | x in S && r(x, y)
  }

  /** Counting the pairs of a relation by rows equals counting them by columns. */
  lemma DoubleCount<A, B>(S: set<A>, T: set<B>, r: (A, B) -> bool, rows: A -> real, columns: B -> real)
    requires forall x :: x in S ==> rows(x) == |Row(T, r, x)| as real
    requires forall y :: y in T ==> columns(y) == |Column(S, r, y)| as real
    ensures Sum(S, rows) == Sum(T, columns)
  {
    var h := (x, y) => Indicator(r(x, y));
    forall x | x in S
      ensures rows(x) == RowSum(T, h, x)
    {
      var p := y => r(x, y);
      CardAsSum(T, p);
      assert Row(T, r, x) == (set y | y in T && p(y));
      RowSumEq(T, h, x, y => Indicator(p(y)));
    }
    forall y | y in T
      ensures columns(y) == ColumnSum(S, h, y)
    {
      var p := x => r(x, y);
      CardAsSum(S, p);
      assert Column(S, r, y) == (set x | x in S && p(x));
      ColumnSumEq(S, h, y, x => Indicator(p(x)));
    }
    SumSwap(S, T, h, rows, columns);
  }

  ghost function Fibre<A, B>(S: set<A>, key: A -> B, y: B): set<A> {
    set x | x in S && key(x) == y
  }

  /** A set splits into the fibres of any function into T. */
  lemma CardByFibres<A, B>(S: set<A>, T: set<B>, key: A -> B, size: B -> real)
    requires forall x :: x in S ==> key(x) in T
    requires forall y :: y in T ==> |Fibre(S, key, y)| as real == size(y)
    ensures |S| as real == Sum(T, size)
  {
    var r := (x, y) => key(x) == y;
    var one := (x: A) => 1.0;
    forall y | y in T
      ensures Column(S, r, y) == Fibre(S, key, y)
    {
    }
    forall x | x in S
      ensures |Row(T, r, x)| == 1
    {
      assert Row(T, r, x) == {key(x)};
    }
    DoubleCount(S, T, r, one, size);
    SumConst(S, one, 1.0);
  }
}
