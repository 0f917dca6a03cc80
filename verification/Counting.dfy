/** Sizes of finite sets: images under one-to-one functions, and products. */
module Counting {

  ghost predicate OneToOne<T(!new), U>(s: set<T>, f: T -> U) {
    forall x, y :: x in s && y in s && f(x) == f(y) ==> x == y
  }

  ghost function Image<T, U>(s: set<T>, f: T -> U): set<U> {
    set x | x in s :: f(x)
  }

  lemma {:induction false} ImageSize<T(!new), U>(s: set<T>, f: T -> U)
    requires OneToOne(s, f)
    ensures |Image(s, f)| == |s|
    decreases |s|
  {
    if s != {} {
      var x :| x in s;
      var rest := s - {x};
      ImageSize(rest, f);
      assert Image(s, f) == Image(rest, f) + {f(x)};
      assert f(x) !in Image(rest, f);
    }
  }

  ghost function Pairs<A, B>(a: set<A>, b: set<B>): set<(A, B)> {
    set x, y | x in a && y in b :: (x, y)
  }

  lemma {:induction false} PairsSize<A, B(!new)>(a: set<A>, b: set<B>)
    ensures |Pairs(a, b)| == |a| * |b|
    decreases |a|
  {
    if a == {} {
      assert Pairs(a, b) == {};
    } else {
      var x :| x in a;
      PairsSize(a - {x}, b);
      OneRow(a, b, x);
      TimesNext(|a - {x}|, |b|, |a|, |Pairs(a - {x}, b)|, |Pairs(a, b)|);
    }
  }

  lemma OneRow<A, B(!new)>(a: set<A>, b: set<B>, x: A)
    requires x in a
    ensures |Pairs(a, b)| == |Pairs(a - {x}, b)| + |b|
  {
    var row := Image(b, y => (x, y));
    ImageSize(b, y => (x, y));
    assert Pairs(a, b) == Pairs(a - {x}, b) + row;
    assert Pairs(a - {x}, b) !! row;
  }

  /** The product, as repeated addition. */
  function Times(a: nat, b: nat): nat {
    if a == 0 then 0 else b + Times(a - 1, b)
  }

  lemma {:induction false} TimesIsProduct(a: nat, b: nat)
    ensures Times(a, b) == a * b
    decreases a
  {
    if a > 0 {
      TimesIsProduct(a - 1, b);
      TimesNext(a - 1, b, a, Times(a - 1, b), Times(a, b));
    }
  }

  lemma TimesNext(n: nat, k: nat, m: nat, before: nat, after: nat)
    requires m == n + 1 && before == n * k && after == before + k
    ensures after == m * k
  {
  }
}
