/** Top-n selection over a score map, specified the way `heapq.nlargest`
    behaves when keyed on the score: the n best entries, best first, with
    the order among equal scores left open. */
module Ranking {

  function Min(a: int, b: int): int { if a <= b then a else b }

  function Max(a: int, b: int): int { if a <= b then b else a }

  /** The keys a ranked list mentions. */
  function KeysOf<K>(r: seq<(K, real)>): set<K>
  {
    set j | 0 <= j < |r| :: r[j].0
  }

  /** Every entry is a key of `scores` paired with its own score. */
  ghost predicate DrawnFrom<K>(r: seq<(K, real)>, scores: map<K, real>)
  {
    forall j :: 0 <= j < |r| ==> r[j].0 in scores && scores[r[j].0] == r[j].1
  }

  ghost predicate DistinctKeys<K>(r: seq<(K, real)>)
  {
    forall j, k :: 0 <= j < k < |r| ==> r[j].0 != r[k].0
  }

  /** Scores never increase along the list. */
  ghost predicate Descending<K>(r: seq<(K, real)>)
  {
    forall j, k :: 0 <= j < k < |r| ==> r[j].1 >= r[k].1
  }

  /** No key left out of the list scores above any key in it. */
  ghost predicate NothingBetterLeft<K>(r: seq<(K, real)>, scores: map<K, real>)
  {
    forall x, j :: x in scores && x !in KeysOf(r) && 0 <= j < |r| ==> scores[x] <= r[j].1
  }

  /** `r` is a valid answer of `nlargest(n, scores)`: as many entries as
      `n` allows and `scores` has, taken from `scores`, best first. */
  ghost predicate IsTopN<K>(r: seq<(K, real)>, scores: map<K, real>, n: int)
  {
    && |r| == Min(Max(n, 0), |scores|)
    && DrawnFrom(r, scores)
    && DistinctKeys(r)
    && Descending(r)
    && NothingBetterLeft(r, scores)
  }

  /** Appending an entry adds its key. */
  lemma KeysOfAppend<K>(r: seq<(K, real)>, e: (K, real))
    ensures KeysOf(r + [e]) == KeysOf(r) + {e.0}
  {
    var r' := r + [e];
    assert r'[|r|] == e;
    forall x | x in KeysOf(r) ensures x in KeysOf(r') {
      var j :| 0 <= j < |r| && r[j].0 == x;
      assert r'[j] == r[j];
    }
  }

  /** A list with distinct keys has one key per entry. */
  lemma {:induction false} KeysOfCard<K>(r: seq<(K, real)>)
    requires DistinctKeys(r)
    ensures |KeysOf(r)| == |r|
    decreases |r|
  {
    if r != [] {
      var front := r[..|r| - 1];
      assert r == front + [r[|r| - 1]];
      KeysOfAppend(front, r[|r| - 1]);
      assert r[|r| - 1].0 !in KeysOf(front);
      KeysOfCard(front);
    }
  }

  /** A key of maximal score in a non-empty map. */
  method ArgMax<K>(m: map<K, real>) returns (k: K)
    requires m != map[]
    ensures k in m
    ensures forall x :: x in m ==> m[x] <= m[k]
  {
    assert m.Keys != {};
    k :| k in m.Keys;
    var todo := m.Keys - {k};
    while todo != {}
      invariant todo <= m.Keys
      invariant k in m
      invariant forall x :: x in m && x !in todo ==> m[x] <= m[k]
      decreases todo
    {
      var y :| y in todo;
      if m[y] > m[k] {
        k := y;
      }
      todo := todo - {y};
    }
  }

  /** What the selection loop keeps: `r` is a best-first prefix of the
      answer and `rest` is exactly what `scores` has not yet given up. */
  ghost predicate Selecting<K>(r: seq<(K, real)>, rest: map<K, real>, scores: map<K, real>)
  {
    && rest.Keys == scores.Keys - KeysOf(r)
    && (forall x :: x in rest ==> rest[x] == scores[x])
    && |rest| == |scores| - |r|
    && DrawnFrom(r, scores) && DistinctKeys(r) && Descending(r)
    && (forall x, j :: x in rest && 0 <= j < |r| ==> rest[x] <= r[j].1)
  }

  /** Appending a key the list does not mention keeps keys distinct. */
  lemma AppendFreshKey<K>(r: seq<(K, real)>, e: (K, real))
    requires DistinctKeys(r) && e.0 !in KeysOf(r)
    ensures DistinctKeys(r + [e])
  {
    var r' := r + [e];
    forall j, i | 0 <= j < i < |r'| ensures r'[j].0 != r'[i].0 {
      if i == |r| {
        assert r'[j] == r[j];
        assert r[j].0 in KeysOf(r);
      } else {
        assert r'[j] == r[j] && r'[i] == r[i];
      }
    }
  }

  /** Appending an entry no better than any listed one keeps the list
      descending. */
  lemma AppendNoBetter<K>(r: seq<(K, real)>, e: (K, real))
    requires Descending(r)
    requires forall j :: 0 <= j < |r| ==> e.1 <= r[j].1
    ensures Descending(r + [e])
  {
    var r' := r + [e];
    forall j, i | 0 <= j < i < |r'| ensures r'[j].1 >= r'[i].1 {
      assert r'[j] == r[j];
      if i < |r| {
        assert r'[i] == r[i];
      }
    }
  }

  /** Moving a best remaining entry to the end of the list keeps the loop's
      invariant. */
  lemma SelectStep<K>(r: seq<(K, real)>, rest: map<K, real>, scores: map<K, real>, k: K)
    requires Selecting(r, rest, scores)
    requires k in rest && forall x :: x in rest ==> rest[x] <= rest[k]
    ensures Selecting(r + [(k, rest[k])], rest - {k}, scores)
  {
    var e := (k, rest[k]);
    var r' := r + [e];
    var rest' := rest - {k};
    KeysOfAppend(r, e);
    AppendFreshKey(r, e);
    AppendNoBetter(r, e);
    assert rest'.Keys == rest.Keys - {k};
    assert DrawnFrom(r', scores) by {
      forall j | 0 <= j < |r'| ensures r'[j].0 in scores && scores[r'[j].0] == r'[j].1 {
        if j < |r| {
          assert r'[j] == r[j];
        }
      }
    }
    forall x, j | x in rest' && 0 <= j < |r'| ensures rest'[x] <= r'[j].1 {
      if j < |r| {
        assert r'[j] == r[j];
      }
    }
  }

  /** Once the list is as long as wanted, it answers `nlargest`. */
  lemma SelectDone<K>(r: seq<(K, real)>, rest: map<K, real>, scores: map<K, real>, n: int)
    requires Selecting(r, rest, scores)
    requires |r| == Min(Max(n, 0), |scores|)
    ensures IsTopN(r, scores, n)
  {
    forall x, j | x in scores && x !in KeysOf(r) && 0 <= j < |r|
      ensures scores[x] <= r[j].1
    {
      assert x in rest;
    }
  }

  /** Repeatedly takes a best remaining entry until `n` entries (or all of
      them) are taken. */
  method NLargest<K>(scores: map<K, real>, n: int) returns (r: seq<(K, real)>)
    ensures IsTopN(r, scores, n)
  {
    var want := Min(Max(n, 0), |scores|);
    r := [];
    var rest := scores;
    while |r| < want
      invariant |r| <= want
      invariant Selecting(r, rest, scores)
    {
      var k := ArgMax(rest);
      SelectStep(r, rest, scores, k);
      r := r + [(k, rest[k])];
      rest := rest - {k};
    }
    SelectDone(r, rest, scores, n);
  }

  /** Up to `limit` distinct elements of `s`, in no particular order: the
      prefix of a listing of the set. */
  method TakeSample<K>(s: set<K>, limit: nat) returns (r: seq<K>)
    ensures |r| == Min(limit, |s|)
    ensures forall j :: 0 <= j < |r| ==> r[j] in s
    ensures forall j, k :: 0 <= j < k < |r| ==> r[j] != r[k]
  {
    r := [];
    var rest := s;
    while |r| < limit && rest != {}
      invariant rest <= s
      invariant |rest| == |s| - |r|
      invariant |r| <= limit
      invariant forall j :: 0 <= j < |r| ==> r[j] in s && r[j] !in rest
      invariant forall j, k :: 0 <= j < k < |r| ==> r[j] != r[k]
      decreases rest
    {
      var x :| x in rest;
      r := r + [x];
      rest := rest - {x};
    }
  }
}
