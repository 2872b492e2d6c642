/** Finite sums and cardinalities over sets, used to state what the
    scoring loops accumulate independently of the order they visit things. */
module Sums {

  /** An element of a non-empty set, chosen once so that every unfolding
      of `Sum` picks the same element. */
  ghost function Pick<T>(s: set<T>): (x: T)
    requires s != {}
    ensures x in s
  {
    var x :| x in s; x
  }

  /** The sum of `f` over the finite set `s`. */
  ghost function Sum<T>(s: set<T>, f: T -> real): real
    decreases s
  {
    if s == {} then 0.0 else var x := Pick(s); f(x) + Sum(s - {x}, f)
  }

  /** The image of `s` under `m`. */
  function Image<A, B>(s: set<A>, m: A -> B): set<B>
  {
    set x | x in s :: m(x)
  }

  /** `m` never sends two elements of `s` to the same value. */
  ghost predicate InjectiveOn<A, B>(s: set<A>, m: A -> B)
  {
    forall x, y :: x in s && y in s && m(x) == m(y) ==> x == y
  }

  /** Any element, not only the picked one, can be split off a sum. */
  lemma {:induction false} SumRemove<T>(s: set<T>, f: T -> real, y: T)
    requires y in s
    ensures Sum(s, f) == f(y) + Sum(s - {y}, f)
    decreases s
  {
    var x := Pick(s);
    if x != y {
      SumRemove(s - {x}, f, y);
      SumRemove(s - {y}, f, x);
      assert s - {x} - {y} == s - {y} - {x};
    }
  }

  /** Adding a fresh element adds its weight. */
  lemma SumAdd<T>(s: set<T>, f: T -> real, y: T)
    requires y !in s
    ensures Sum(s + {y}, f) == f(y) + Sum(s, f)
  {
    SumRemove(s + {y}, f, y);
    assert s + {y} - {y} == s;
  }

  /** Sums of pointwise-equal weights agree. */
  lemma {:induction false} SumCongruence<T>(s: set<T>, f: T -> real, h: T -> real)
    requires forall x :: x in s ==> f(x) == h(x)
    ensures Sum(s, f) == Sum(s, h)
    decreases s
  {
    if s != {} {
      var x := Pick(s);
      SumCongruence(s - {x}, f, h);
    }
  }

  /** A sum of ones counts the set. */
  lemma {:induction false} SumOfOnes<T>(s: set<T>, f: T -> real)
    requires forall x :: x in s ==> f(x) == 1.0
    ensures Sum(s, f) == |s| as real
    decreases s
  {
    if s != {} {
      var x := Pick(s);
      SumOfOnes(s - {x}, f);
    }
  }

  /** Weights in [0, 1] sum to at most the size of the set, and positive
      weights over a non-empty set sum to something positive. */
  lemma {:induction false} SumBounds<T>(s: set<T>, f: T -> real)
    requires forall x :: x in s ==> 0.0 <= f(x) <= 1.0
    ensures 0.0 <= Sum(s, f) <= |s| as real
    ensures s != {} && (forall x :: x in s ==> 0.0 < f(x)) ==> 0.0 < Sum(s, f)
    decreases s
  {
    if s != {} {
      var x := Pick(s);
      SumBounds(s - {x}, f);
    }
  }

  /** Summing over an injective image is summing the pulled-back weight
      `h` over the preimage. */
  lemma {:induction false} SumImage<A, B>(s: set<A>, m: A -> B, f: B -> real, h: A -> real)
    requires InjectiveOn(s, m)
    requires forall x :: x in s ==> f(m(x)) == h(x)
    ensures Sum(Image(s, m), f) == Sum(s, h)
    decreases s
  {
    if s != {} {
      var x := Pick(s);
      var rest := Image(s - {x}, m);
      assert Image(s, m) == rest + {m(x)};
      assert m(x) !in rest;
      SumImage(s - {x}, m, f, h);
      SumAdd(rest, f, m(x));
    }
  }

  /** An injective image has as many elements as its preimage. */
  lemma {:induction false} InjectiveImageCard<A, B>(s: set<A>, m: A -> B)
    requires InjectiveOn(s, m)
    ensures |Image(s, m)| == |s|
    decreases s
  {
    if s != {} {
      var x :| x in s;
      var rest := Image(s - {x}, m);
      assert Image(s, m) == rest + {m(x)};
      assert m(x) !in rest;
      InjectiveImageCard(s - {x}, m);
    }
  }

  /** An image is never larger than its preimage. */
  lemma {:induction false} ImageCardBound<A, B>(s: set<A>, m: A -> B)
    ensures |Image(s, m)| <= |s|
    decreases s
  {
    if s != {} {
      var x :| x in s;
      assert Image(s, m) == Image(s - {x}, m) + {m(x)};
      ImageCardBound(s - {x}, m);
    }
  }

  /** A subset is never larger than its superset. */
  lemma SubsetCard<T>(a: set<T>, b: set<T>)
    requires a <= b
    ensures |a| <= |b|
  {
    assert b == a + (b - a);
  }
}
