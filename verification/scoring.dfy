/** The insert-or-update score accumulator the three recommenders share:
    each contribution adds its weight to the score of its key, starting
    from zero the first time a key is seen. */
module Scoring {
  import opened Sums

  /** The contributions that land on key `k`. */
  function Filter<T, K(==)>(s: set<T>, key: T -> K, k: K): set<T>
  {
    set t | t in s && key(t) == k
  }

  /** What the accumulator holds once it has seen every contribution:
      one entry per key touched, carrying the total weight landing there. */
  ghost predicate Accumulated<T, K>(acc: map<K, real>, s: set<T>, key: T -> K, weight: T -> real)
  {
    && acc.Keys == Image(s, key)
    && forall k :: k in acc ==> acc[k] == Sum(Filter(s, key, k), weight)
  }

  /** Seeing one more contribution updates exactly the entry of its key. */
  lemma AccumulateStep<T, K>(acc: map<K, real>, done: set<T>, key: T -> K, weight: T -> real, t: T)
    requires Accumulated(acc, done, key, weight)
    requires t !in done
    ensures Accumulated(acc[key(t) := (if key(t) in acc then acc[key(t)] else 0.0) + weight(t)],
                        done + {t}, key, weight)
  {
    var k := key(t);
    var acc' := acc[k := (if k in acc then acc[k] else 0.0) + weight(t)];
    var done' := done + {t};
    assert Image(done', key) == Image(done, key) + {k};
    assert Filter(done', key, k) == Filter(done, key, k) + {t};
    SumAdd(Filter(done, key, k), weight, t);
    if k !in acc {
      assert Filter(done, key, k) == {};
    }
    forall k' | k' in acc' && k' != k
      ensures acc'[k'] == Sum(Filter(done', key, k'), weight)
    {
      assert Filter(done', key, k') == Filter(done, key, k');
    }
  }

  /** Visits every contribution once, adding its weight to its key. */
  method Accumulate<T(==), K(==)>(contribs: set<T>, key: T -> K, weight: T -> real) returns (acc: map<K, real>)
    ensures acc.Keys == Image(contribs, key)
    ensures forall k :: k in acc ==> acc[k] == Sum(Filter(contribs, key, k), weight)
  {
    acc := map[];
    var todo := contribs;
    ghost var done: set<T> := {};
    while todo != {}
      invariant todo + done == contribs && todo !! done
      invariant Accumulated(acc, done, key, weight)
      decreases todo
    {
      var t :| t in todo;
      AccumulateStep(acc, done, key, weight, t);
      var k := key(t);
      acc := acc[k := (if k in acc then acc[k] else 0.0) + weight(t)];
      todo := todo - {t};
      done := done + {t};
    }
  }
}
