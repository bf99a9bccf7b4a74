/** Totals over sequences: additive over concatenation and blind to order. */
module Sums {

  function Sum<T>(s: seq<T>, f: T -> nat): nat {
    if s == [] then 0 else f(s[0]) + Sum(s[1..], f)
  }

  lemma {:induction false} SumConcat<T>(a: seq<T>, b: seq<T>, f: T -> nat)
    ensures Sum(a + b, f) == Sum(a, f) + Sum(b, f)
  {
    if a == [] {
      assert a + b == b;
    } else {
      assert (a + b)[1..] == a[1..] + b;
      SumConcat(a[1..], b, f);
    }
  }

  function Without<T>(s: seq<T>, i: int): seq<T>
    requires 0 <= i < |s|
  { s[..i] + s[i + 1..] }

  lemma WithoutMultiset<T>(s: seq<T>, i: int)
    requires 0 <= i < |s|
    ensures multiset(Without(s, i)) == multiset(s) - multiset{s[i]}
  {
    var head, tail := s[..i], s[i + 1..];
    assert s == head + ([s[i]] + tail);
    assert multiset(s) == multiset(head) + multiset([s[i]] + tail);
    assert multiset([s[i]] + tail) == multiset{s[i]} + multiset(tail);
  }

  lemma WithoutSum<T>(s: seq<T>, i: int, f: T -> nat)
    requires 0 <= i < |s|
    ensures Sum(s, f) == f(s[i]) + Sum(Without(s, i), f)
  {
    var head, tail := s[..i], s[i + 1..];
    assert s == head + ([s[i]] + tail);
    SumConcat(head, [s[i]] + tail, f);
    assert ([s[i]] + tail)[1..] == tail;
    SumConcat(head, tail, f);
  }

  lemma {:induction false} SumPermutation<T>(a: seq<T>, b: seq<T>, f: T -> nat)
    requires multiset(a) == multiset(b)
    ensures Sum(a, f) == Sum(b, f)
  {
    if a == [] {
      assert |multiset(b)| == 0;
    } else {
      assert a[0] in multiset(b);
      var i :| 0 <= i < |b| && b[i] == a[0];
      WithoutMultiset(b, i);
      WithoutSum(b, i, f);
      WithoutMultiset(a, 0);
      assert Without(a, 0) == a[1..];
      SumPermutation(a[1..], Without(b, i), f);
    }
  }

  lemma {:induction false} SumZero<T>(s: seq<T>, f: T -> nat)
    requires forall x :: x in s ==> f(x) == 0
    ensures Sum(s, f) == 0
  {
    if s != [] { SumZero(s[1..], f); }
  }

  lemma {:induction false} SumSame<T>(s: seq<T>, f: T -> nat, g: T -> nat)
    requires forall x :: x in s ==> f(x) == g(x)
    ensures Sum(s, f) == Sum(s, g)
  {
    if s != [] { SumSame(s[1..], f, g); }
  }
}
