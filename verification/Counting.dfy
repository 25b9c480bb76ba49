// Counting the elements of a sequence that satisfy a condition.
module Counting {
  import Serial

  function CountWhere<T>(xs: seq<T>, p: T -> bool): nat {
    if xs == [] then 0 else (if p(xs[0]) then 1 else 0) + CountWhere(xs[1..], p)
  }

  lemma {:induction false} CountConcat<T>(a: seq<T>, b: seq<T>, p: T -> bool)
    ensures CountWhere(a + b, p) == CountWhere(a, p) + CountWhere(b, p)
  {
    if a == [] {
      assert a + b == b;
    } else {
      assert (a + b)[1..] == a[1..] + b;
      CountConcat(a[1..], b, p);
    }
  }

  lemma CountOne<T>(x: T, p: T -> bool)
    ensures CountWhere([x], p) == if p(x) then 1 else 0
  {
  }

  lemma CountSnoc<T>(a: seq<T>, x: T, p: T -> bool)
    ensures CountWhere(a + [x], p) == CountWhere(a, p) + if p(x) then 1 else 0
  {
    CountConcat(a, [x], p);
    CountOne(x, p);
  }

  lemma CountTwo<T>(x: T, y: T, p: T -> bool)
    ensures CountWhere([x, y], p) == (if p(x) then 1 else 0) + (if p(y) then 1 else 0)
  {
    assert [x, y] == [x] + [y];
    CountSnoc([x], y, p);
    CountOne(x, p);
  }

  lemma {:induction false} CountEither<T>(a: seq<T>, p: T -> bool, q: T -> bool, r: T -> bool)
    requires forall x | x in a :: (p(x) <==> q(x) || r(x)) && !(q(x) && r(x))
    ensures CountWhere(a, p) == CountWhere(a, q) + CountWhere(a, r)
  {
    if a != [] { CountEither(a[1..], p, q, r); }
  }

  /** Counting does not depend on the order. */
  lemma {:induction false} CountPermutation<T>(a: seq<T>, b: seq<T>, p: T -> bool)
    requires multiset(a) == multiset(b)
    ensures CountWhere(a, p) == CountWhere(b, p)
    decreases |a|
  {
    if a == [] {
      assert |multiset(b)| == 0;
    } else {
      var pre, post := Serial.Locate(a, b);
      CountPermutation(a[1..], pre + post, p);
      CountConcat(pre + [a[0]], post, p);
      CountSnoc(pre, a[0], p);
      CountConcat(pre, post, p);
    }
  }

  lemma {:induction false} CountAll<T>(a: seq<T>, p: T -> bool)
    requires forall x | x in a :: p(x)
    ensures CountWhere(a, p) == |a|
  {
    if a != [] { CountAll(a[1..], p); }
  }

  lemma {:induction false} CountNone<T>(a: seq<T>, p: T -> bool)
    requires forall x | x in a :: !p(x)
    ensures CountWhere(a, p) == 0
  {
    if a != [] { CountNone(a[1..], p); }
  }
}
