/** The recommender: three rankers over the interaction index, the two
    Jaccard similarities they use, a dispatcher choosing among them by
    name, and a diagnostics snapshot. Nothing here changes the index. */
module RecommenderEngine {
  import opened Sums
  import opened Ranking
  import opened Scoring
  import opened InteractionGraph

  datatype Option<T> = None | Some(value: T)

  /** The one error the engine raises: an algorithm name it does not know. */
  datatype EngineError = UnknownAlgorithm(name: string)

  datatype Result<T> = Ok(value: T) | Err(error: EngineError)

  datatype Algorithm = Collaborative | ItemBased | UserBased

  /** How many similar users the user-based ranker consults. */
  const TopK: int := 10

  /** How many candidates the diagnostics snapshot lists. */
  const SampleSize: nat := 10

  /** The name a caller passes to select `a`. */
  function AlgorithmName(a: Algorithm): (name: string)
    ensures ParseAlgorithm(name) == Some(a)
  {
    match a
    case Collaborative => "collaborative_filtering"
    case ItemBased => "item_based"
    case UserBased => "user_based"
  }

  /** The algorithm a name selects; any other name selects none. */
  function ParseAlgorithm(name: string): (r: Option<Algorithm>)
    ensures r.Some? <==> name == "collaborative_filtering" || name == "item_based" || name == "user_based"
  {
    if name == "collaborative_filtering" then Some(Collaborative)
    else if name == "item_based" then Some(ItemBased)
    else if name == "user_based" then Some(UserBased)
    else None
  }

  /** A recognised name is exactly the name of what it selects. */
  lemma ParseAlgorithmNames(name: string)
    requires ParseAlgorithm(name).Some?
    ensures AlgorithmName(ParseAlgorithm(name).value) == name
  {
  }

  // ---------------------------------------------------------------------
  // Similarity

  /** The sizes behind a Jaccard ratio: the overlap never exceeds the
      union, the union is non-empty when either side is, and they are
      equal only for equal sets. */
  lemma JaccardCounts<T>(a: set<T>, b: set<T>)
    ensures |a * b| <= |a + b|
    ensures a != {} ==> |a + b| > 0
    ensures |a * b| == |a + b| ==> a == b
  {
    var both, left, right := a * b, a - b, b - a;
    assert a + b == both + left + right;
    assert both !! left && (both + left) !! right;
    assert |both + left| == |both| + |left|;
    assert |a + b| == |both| + |left| + |right|;
    assert a == both + left;
    if |both| == |a + b| {
      assert left == {} && right == {};
    }
  }

  /** Jaccard similarity: the size of the overlap over the size of the
      union, and 0 when either set is empty. */
  function Jaccard<T>(a: set<T>, b: set<T>): (r: real)
    ensures 0.0 <= r <= 1.0
    ensures a == {} || b == {} ==> r == 0.0
    ensures r > 0.0 <==> a * b != {}
    ensures r == 1.0 <==> a != {} && a == b
  {
    if a == {} || b == {} then 0.0
    else
      var intersection := |a * b|;
      var union := |a + b|;
      JaccardCounts(a, b);
      if union > 0 then
        Ratio(intersection, union);
        intersection as real / union as real
      else 0.0
  }

  /** Multiplying by a positive number keeps the sign. */
  lemma SignOfProduct(x: real, y: real)
    requires y > 0.0
    ensures x * y > 0.0 <==> x > 0.0
    ensures x * y == 0.0 <==> x == 0.0
  {
  }

  /** A count over a larger positive count is a fraction in [0, 1] that is
      positive exactly when the count is, and 1 exactly when they agree. */
  lemma Ratio(p: nat, q: nat)
    requires p <= q && q > 0
    ensures 0.0 <= p as real / q as real <= 1.0
    ensures p as real / q as real > 0.0 <==> p > 0
    ensures p as real / q as real == 1.0 <==> p == q
  {
    var r := p as real / q as real;
    assert r * q as real == p as real;
    assert (r - 1.0) * q as real == p as real - q as real;
    SignOfProduct(r, q as real);
    SignOfProduct(r - 1.0, q as real);
  }

  /** Jaccard similarity does not depend on the order of its arguments. */
  lemma JaccardSymmetric<T>(a: set<T>, b: set<T>)
    ensures Jaccard(a, b) == Jaccard(b, a)
  {
    assert a * b == b * a && a + b == b + a;
  }

  /** How alike two items are: the Jaccard similarity of their user sets,
      an unknown item having none. */
  function ItemSimilarity<U(!new), I(!new)>(g: Graph<U, I>, i1: I, i2: I): (r: real)
    ensures 0.0 <= r <= 1.0
    ensures i1 !in g.itemUsers || i2 !in g.itemUsers ==> r == 0.0
    ensures r > 0.0 <==> UsersOf(g, i1) * UsersOf(g, i2) != {}
  {
    Jaccard(UsersOf(g, i1), UsersOf(g, i2))
  }

  lemma ItemSimilaritySymmetric<U(!new), I(!new)>(g: Graph<U, I>, i1: I, i2: I)
    ensures ItemSimilarity(g, i1, i2) == ItemSimilarity(g, i2, i1)
  {
    JaccardSymmetric(UsersOf(g, i1), UsersOf(g, i2));
  }

  // ---------------------------------------------------------------------
  // The co-occurrence walk

  /** Every step of the walk from `user`: an owned item, another user
      holding it, and an item that user holds and `user` does not. */
  function Paths<U(==, !new), I(==, !new)>(g: Graph<U, I>, user: U): set<(I, U, I)>
  {
    var owned := ItemsOf(g, user);
    set ui, v, c | ui in owned && v in UsersOf(g, ui) && v != user && c in ItemsOf(g, v) && c !in owned :: (ui, v, c)
  }

  function PathTarget<U, I>(t: (I, U, I)): I { t.2 }

  function One<T>(t: T): real { 1.0 }

  /** The (owned item, other user) pairs through which the walk from
      `user` reaches `c`. */
  function Routes<U(==, !new), I(==, !new)>(g: Graph<U, I>, user: U, c: I): set<(I, U)>
  {
    var owned := ItemsOf(g, user);
    set ui, v | ui in owned && v in UsersOf(g, ui) && v != user && c in ItemsOf(g, v) && c !in owned :: (ui, v)
  }

  /** The items the walk from `user` reaches. */
  function Candidates<U(==, !new), I(==, !new)>(g: Graph<U, I>, user: U): set<I>
  {
    var owned := ItemsOf(g, user);
    set ui, v, c | ui in owned && v in UsersOf(g, ui) && v != user && c in ItemsOf(g, v) && c !in owned :: c
  }

  /** Completes a route to `c` into a step of the walk. */
  function ExtendTo<U, I>(c: I): ((I, U)) -> (I, U, I)
  {
    (p: (I, U)) => (p.0, p.1, c)
  }

  /** The co-occurrence score: for each candidate, the number of routes
      that reach it. */
  ghost function CoScores<U(!new), I(!new)>(g: Graph<U, I>, user: U): map<I, real>
  {
    map c | c in Candidates(g, user) :: |Routes(g, user, c)| as real
  }

  /** The steps ending at `c` are the routes to `c`, one for one. */
  lemma PathsByTarget<U(!new), I(!new)>(g: Graph<U, I>, user: U, c: I)
    ensures Filter(Paths(g, user), PathTarget, c) == Image(Routes(g, user, c), ExtendTo(c))
    ensures InjectiveOn(Routes(g, user, c), ExtendTo(c))
  {
    forall t | t in Filter(Paths(g, user), PathTarget, c) ensures t in Image(Routes(g, user, c), ExtendTo(c)) {
      assert ExtendTo(c)((t.0, t.1)) == t;
    }
  }

  /** The walk's targets are the candidates. */
  lemma TargetsAreCandidates<U(!new), I(!new)>(g: Graph<U, I>, user: U)
    ensures Image(Paths(g, user), PathTarget) == Candidates(g, user)
  {
    var paths := Paths(g, user);
    forall x | x in Candidates(g, user) ensures x in Image(paths, PathTarget) {
      var ui, v :| ui in ItemsOf(g, user) && v in UsersOf(g, ui) && v != user && x in ItemsOf(g, v) && x !in ItemsOf(g, user);
      assert PathTarget((ui, v, x)) == x;
    }
  }

  /** A candidate is reached by at least one route, and is never an item
      the user already holds. */
  lemma CandidateFacts<U(!new), I(!new)>(g: Graph<U, I>, user: U, c: I)
    requires c in Candidates(g, user)
    ensures c !in ItemsOf(g, user)
    ensures |Routes(g, user, c)| >= 1
  {
    var ui, v :| ui in ItemsOf(g, user) && v in UsersOf(g, ui) && v != user && c in ItemsOf(g, v) && c !in ItemsOf(g, user);
    assert (ui, v) in Routes(g, user, c);
  }

  /** The accumulator fed with every step at weight one holds the
      co-occurrence score. */
  lemma CoScoresAgree<U(!new), I(!new)>(g: Graph<U, I>, user: U, scores: map<I, real>)
    requires scores.Keys == Image(Paths(g, user), PathTarget)
    requires forall c :: c in scores ==> scores[c] == Sum(Filter(Paths(g, user), PathTarget, c), One)
    ensures scores == CoScores(g, user)
  {
    forall c | c in scores ensures scores[c] == |Routes(g, user, c)| as real {
      PathsByTarget(g, user, c);
      SumOfOnes(Filter(Paths(g, user), PathTarget, c), One);
      InjectiveImageCard(Routes(g, user, c), ExtendTo(c));
    }
    TargetsAreCandidates(g, user);
  }

  /** The co-occurrence ranker: every step of the walk adds one to its
      candidate, and the `n` best candidates are returned. */
  method CollaborativeFiltering<U(==, !new), I(==, !new)>(g: Graph<U, I>, user: U, n: int)
    returns (r: seq<(I, real)>)
    ensures IsTopN(r, CoScores(g, user), n)
    ensures forall j :: 0 <= j < |r| ==> r[j].0 !in ItemsOf(g, user) && r[j].1 >= 1.0
  {
    if user !in g.userItems || g.userItems[user] == {} {
      assert Candidates(g, user) == {};
      assert CoScores(g, user) == map[];
      return [];
    }
    var scores := Accumulate(Paths(g, user), PathTarget, One);
    CoScoresAgree(g, user, scores);
    r := NLargest(scores, n);
    forall j | 0 <= j < |r| ensures r[j].0 !in ItemsOf(g, user) && r[j].1 >= 1.0 {
      CandidateFacts(g, user, r[j].0);
    }
  }

  // ---------------------------------------------------------------------
  // Item-based weighting

  /** A step's item-based weight: how similar its owned item is to its
      candidate. */
  function PathWeight<U(!new), I(!new)>(g: Graph<U, I>): ((I, U, I)) -> real
  {
    (t: (I, U, I)) => ItemSimilarity(g, t.0, t.2)
  }

  /** A route's item-based weight towards `c`. */
  function RouteWeight<U(!new), I(!new)>(g: Graph<U, I>, c: I): ((I, U)) -> real
  {
    (p: (I, U)) => ItemSimilarity(g, p.0, c)
  }

  /** The item-based score: for each candidate, the similarity of the
      owned item to the candidate, summed over the routes reaching it. */
  ghost function ItemScores<U(!new), I(!new)>(g: Graph<U, I>, user: U): map<I, real>
  {
    map c | c in Candidates(g, user) :: Sum(Routes(g, user, c), RouteWeight(g, c))
  }

  /** The accumulator fed with every step at its similarity weight holds
      the item-based score. */
  lemma ItemScoresAgree<U(!new), I(!new)>(g: Graph<U, I>, user: U, scores: map<I, real>)
    requires scores.Keys == Image(Paths(g, user), PathTarget)
    requires forall c :: c in scores ==> scores[c] == Sum(Filter(Paths(g, user), PathTarget, c), PathWeight(g))
    ensures scores == ItemScores(g, user)
  {
    forall c | c in scores ensures scores[c] == Sum(Routes(g, user, c), RouteWeight(g, c)) {
      PathsByTarget(g, user, c);
      SumImage(Routes(g, user, c), ExtendTo(c), PathWeight(g), RouteWeight(g, c));
    }
    TargetsAreCandidates(g, user);
  }

  /** In a symmetric index every route to a candidate has positive
      weight: the user on the route holds both the owned item and the
      candidate. */
  lemma RouteWeightsPositive<U(!new), I(!new)>(g: Graph<U, I>, user: U, c: I)
    requires Symmetric(g)
    ensures forall p :: p in Routes(g, user, c) ==> RouteWeight(g, c)(p) > 0.0
  {
    forall p | p in Routes(g, user, c) ensures RouteWeight(g, c)(p) > 0.0 {
      assert p.1 in UsersOf(g, p.0) && c in ItemsOf(g, p.1);
      assert p.1 in UsersOf(g, c);
      assert p.1 in UsersOf(g, p.0) * UsersOf(g, c);
    }
  }

  /** An item-based score lies between 0 and the co-occurrence score of
      the same candidate, and is positive when the index is symmetric. */
  lemma ItemScoreBounds<U(!new), I(!new)>(g: Graph<U, I>, user: U, c: I)
    requires c in Candidates(g, user)
    ensures 0.0 <= ItemScores(g, user)[c] <= CoScores(g, user)[c]
    ensures Symmetric(g) ==> ItemScores(g, user)[c] > 0.0
  {
    var routes := Routes(g, user, c);
    assert forall p :: p in routes ==> 0.0 <= RouteWeight(g, c)(p) <= 1.0;
    SumBounds(routes, RouteWeight(g, c));
    CandidateFacts(g, user, c);
    if Symmetric(g) {
      RouteWeightsPositive(g, user, c);
    }
  }

  /** The item-based ranker: every step of the walk adds the similarity of
      its owned item to its candidate, and the `n` best are returned. */
  method ItemBasedRecommendations<U(==, !new), I(==, !new)>(g: Graph<U, I>, user: U, n: int)
    returns (r: seq<(I, real)>)
    ensures IsTopN(r, ItemScores(g, user), n)
    ensures forall j :: 0 <= j < |r| ==>
      && r[j].0 !in ItemsOf(g, user)
      && 0.0 <= r[j].1 <= |Routes(g, user, r[j].0)| as real
    ensures Symmetric(g) ==> forall j :: 0 <= j < |r| ==> r[j].1 > 0.0
  {
    if user !in g.userItems || g.userItems[user] == {} {
      assert Candidates(g, user) == {};
      assert ItemScores(g, user) == map[];
      return [];
    }
    var scores := Accumulate(Paths(g, user), PathTarget, PathWeight(g));
    ItemScoresAgree(g, user, scores);
    r := NLargest(scores, n);
    forall j | 0 <= j < |r|
      ensures r[j].0 !in ItemsOf(g, user) && 0.0 <= r[j].1 <= |Routes(g, user, r[j].0)| as real
      ensures Symmetric(g) ==> r[j].1 > 0.0
    {
      CandidateFacts(g, user, r[j].0);
      ItemScoreBounds(g, user, r[j].0);
    }
  }

  // ---------------------------------------------------------------------
  // User-based weighting

  /** Every other user sharing at least one item with `user`, with their
      Jaccard similarity to `user`. */
  function SimilarityMap<U(==, !new), I(==, !new)>(g: Graph<U, I>, user: U): (r: map<U, real>)
    ensures forall v :: v in r <==> v in g.userItems && v != user && ItemsOf(g, user) * ItemsOf(g, v) != {}
    ensures forall v :: v in r ==> r[v] == Jaccard(ItemsOf(g, user), ItemsOf(g, v))
  {
    var mine := ItemsOf(g, user);
    map v | v in g.userItems && v != user && Jaccard(mine, g.userItems[v]) > 0.0 :: Jaccard(mine, g.userItems[v])
  }

  /** The `topK` users most similar to `user`, most similar first; only
      users with positive similarity qualify. */
  method FindSimilarUsers<U(==, !new), I(==, !new)>(g: Graph<U, I>, user: U, topK: int)
    returns (r: seq<(U, real)>)
    ensures IsTopN(r, SimilarityMap(g, user), topK)
    ensures forall j :: 0 <= j < |r| ==>
      && r[j].0 != user
      && ItemsOf(g, user) * ItemsOf(g, r[j].0) != {}
      && r[j].1 == Jaccard(ItemsOf(g, user), ItemsOf(g, r[j].0))
      && 0.0 < r[j].1 <= 1.0
  {
    if user !in g.userItems {
      assert SimilarityMap(g, user) == map[];
      return [];
    }
    r := NLargest(SimilarityMap(g, user), topK);
  }

  /** A neighbour's weight in the user-based score: its similarity to
      `user`. */
  function SimilarityTo<U(!new), I(!new)>(g: Graph<U, I>, user: U): U -> real
  {
    v => Jaccard(ItemsOf(g, user), ItemsOf(g, v))
  }

  /** Every (neighbour, item) pair where the neighbour holds an item
      `user` does not. */
  function Contributions<U(==, !new), I(==, !new)>(g: Graph<U, I>, user: U, nbrs: set<U>): set<(U, I)>
  {
    var owned := ItemsOf(g, user);
    set v, c | v in nbrs && c in ItemsOf(g, v) && c !in owned :: (v, c)
  }

  function ContribItem<U, I>(t: (U, I)): I { t.1 }

  /** The neighbours holding `c`, when `user` does not. */
  function Holders<U(==, !new), I(==, !new)>(g: Graph<U, I>, user: U, nbrs: set<U>, c: I): set<U>
  {
    set v | v in nbrs && c in ItemsOf(g, v) && c !in ItemsOf(g, user)
  }

  /** The items some neighbour holds and `user` does not. */
  function NeighbourItems<U(==, !new), I(==, !new)>(g: Graph<U, I>, user: U, nbrs: set<U>): set<I>
  {
    var owned := ItemsOf(g, user);
    set v, c | v in nbrs && c in ItemsOf(g, v) && c !in owned :: c
  }

  /** The user-based score given the chosen neighbours: for each item
      they offer, the similarities of the neighbours holding it, summed. */
  ghost function UserScores<U(!new), I(!new)>(g: Graph<U, I>, user: U, nbrs: set<U>): map<I, real>
  {
    map c | c in NeighbourItems(g, user, nbrs) :: Sum(Holders(g, user, nbrs, c), SimilarityTo(g, user))
  }

  /** The score a ranked list gives `k` (its first entry for `k`). */
  function Lookup<K(==)>(r: seq<(K, real)>, k: K): real
  {
    if r == [] then 0.0 else if r[0].0 == k then r[0].1 else Lookup(r[1..], k)
  }

  lemma {:induction false} LookupListed<K>(r: seq<(K, real)>, j: int)
    requires DistinctKeys(r) && 0 <= j < |r|
    ensures Lookup(r, r[j].0) == r[j].1
    decreases j
  {
    if j > 0 {
      assert r[0].0 != r[j].0;
      assert DistinctKeys(r[1..]) by {
        forall a, b | 0 <= a < b < |r| - 1 ensures r[1..][a].0 != r[1..][b].0 {
          assert r[1..][a] == r[a + 1] && r[1..][b] == r[b + 1];
        }
      }
      LookupListed(r[1..], j - 1);
    }
  }

  /** A contribution's weight: the similarity the neighbour list records
      for its neighbour. */
  function ListedWeight<U(==), I>(nbrs: seq<(U, real)>): ((U, I)) -> real
  {
    (t: (U, I)) => Lookup(nbrs, t.0)
  }

  function PairWith<U, I>(c: I): U -> (U, I)
  {
    v => (v, c)
  }

  /** Each entry of `nbrs` carries the similarity of its neighbour to
      `user`, and no neighbour is listed twice. */
  ghost predicate ListsSimilarities<U(!new), I(!new)>(g: Graph<U, I>, user: U, nbrs: seq<(U, real)>)
  {
    && DistinctKeys(nbrs)
    && forall j :: 0 <= j < |nbrs| ==> nbrs[j].1 == SimilarityTo(g, user)(nbrs[j].0)
  }

  /** The listed weight of a listed neighbour is its similarity. */
  lemma ListedWeightAgrees<U(!new), I(!new)>(g: Graph<U, I>, user: U, nbrs: seq<(U, real)>, c: I)
    requires ListsSimilarities(g, user, nbrs)
    ensures forall v :: v in KeysOf(nbrs) ==> ListedWeight(nbrs)(PairWith(c)(v)) == SimilarityTo(g, user)(v)
  {
    forall v | v in KeysOf(nbrs) ensures ListedWeight(nbrs)(PairWith(c)(v)) == SimilarityTo(g, user)(v) {
      var j :| 0 <= j < |nbrs| && nbrs[j].0 == v;
      LookupListed(nbrs, j);
    }
  }

  /** The contributions landing on `c` are the holders of `c`, paired
      with `c`. */
  lemma ContributionsTo<U(!new), I(!new)>(g: Graph<U, I>, user: U, nbrs: set<U>, c: I)
    ensures Filter(Contributions(g, user, nbrs), ContribItem, c) == Image(Holders(g, user, nbrs, c), PairWith(c))
  {
    forall t | t in Filter(Contributions(g, user, nbrs), ContribItem, c)
      ensures t in Image(Holders(g, user, nbrs, c), PairWith(c))
    {
      assert PairWith(c)(t.0) == t;
    }
  }

  /** The contributions landing on `c`, weighted by the listed
      similarities, add up to the similarities of the neighbours holding
      `c`. */
  lemma UserScoreAt<U(!new), I(!new)>(g: Graph<U, I>, user: U, nbrs: seq<(U, real)>, c: I)
    requires ListsSimilarities(g, user, nbrs)
    ensures Sum(Filter(Contributions(g, user, KeysOf(nbrs)), ContribItem, c), ListedWeight(nbrs))
         == Sum(Holders(g, user, KeysOf(nbrs), c), SimilarityTo(g, user))
  {
    var holders := Holders(g, user, KeysOf(nbrs), c);
    ContributionsTo(g, user, KeysOf(nbrs), c);
    ListedWeightAgrees(g, user, nbrs, c);
    assert forall v :: v in holders ==> v in KeysOf(nbrs);
    SumImage(holders, PairWith(c), ListedWeight(nbrs), SimilarityTo(g, user));
  }

  /** The items the contributions land on are the items the neighbours
      offer. */
  lemma ContributionTargets<U(!new), I(!new)>(g: Graph<U, I>, user: U, nbrs: set<U>)
    ensures Image(Contributions(g, user, nbrs), ContribItem) == NeighbourItems(g, user, nbrs)
  {
    forall c | c in NeighbourItems(g, user, nbrs) ensures c in Image(Contributions(g, user, nbrs), ContribItem) {
      var v :| v in nbrs && c in ItemsOf(g, v) && c !in ItemsOf(g, user);
      assert ContribItem((v, c)) == c;
    }
  }

  /** The accumulator fed with every contribution of the chosen neighbours
      at their listed similarity holds the user-based score. */
  lemma UserScoresAgree<U(!new), I(!new)>(g: Graph<U, I>, user: U, nbrs: seq<(U, real)>, scores: map<I, real>)
    requires ListsSimilarities(g, user, nbrs)
    requires scores.Keys == Image(Contributions(g, user, KeysOf(nbrs)), ContribItem)
    requires forall c :: c in scores ==>
      scores[c] == Sum(Filter(Contributions(g, user, KeysOf(nbrs)), ContribItem, c), ListedWeight(nbrs))
    ensures scores == UserScores(g, user, KeysOf(nbrs))
  {
    forall c | c in scores ensures scores[c] == Sum(Holders(g, user, KeysOf(nbrs), c), SimilarityTo(g, user)) {
      UserScoreAt(g, user, nbrs, c);
    }
    ContributionTargets(g, user, KeysOf(nbrs));
  }

  /** A user-based score is positive and at most the number of neighbours
      consulted, which is itself at most `TopK`. */
  lemma UserScoreBounds<U(!new), I(!new)>(g: Graph<U, I>, user: U, nbrs: seq<(U, real)>, c: I)
    requires IsTopN(nbrs, SimilarityMap(g, user), TopK)
    requires c in NeighbourItems(g, user, KeysOf(nbrs))
    ensures c !in ItemsOf(g, user)
    ensures 0.0 < UserScores(g, user, KeysOf(nbrs))[c] <= |nbrs| as real <= TopK as real
  {
    var keys := KeysOf(nbrs);
    var holders := Holders(g, user, keys, c);
    var v :| v in keys && c in ItemsOf(g, v) && c !in ItemsOf(g, user);
    assert v in holders;
    forall w | w in holders ensures 0.0 < SimilarityTo(g, user)(w) <= 1.0 {
      var j :| 0 <= j < |nbrs| && nbrs[j].0 == w;
    }
    SumBounds(holders, SimilarityTo(g, user));
    SubsetCard(holders, keys);
    KeysOfCard(nbrs);
  }

  /** The user-based ranker: each of the `TopK` most similar users adds its
      similarity to every item it holds that `user` does not, and the `n`
      best items are returned. Which neighbours are consulted is open when
      similarities tie at the cut, so the score is stated for some valid
      choice of neighbours. */
  method UserBasedRecommendations<U(==, !new), I(==, !new)>(g: Graph<U, I>, user: U, n: int)
    returns (r: seq<(I, real)>)
    ensures ItemsOf(g, user) == {} ==> r == []
    ensures ItemsOf(g, user) != {} ==> exists nbrs ::
      IsTopN(nbrs, SimilarityMap(g, user), TopK) && IsTopN(r, UserScores(g, user, KeysOf(nbrs)), n)
    ensures forall j :: 0 <= j < |r| ==> r[j].0 !in ItemsOf(g, user) && 0.0 < r[j].1 <= TopK as real
  {
    if user !in g.userItems || g.userItems[user] == {} {
      return [];
    }
    var nbrs := FindSimilarUsers(g, user, TopK);
    var contribs := Contributions(g, user, KeysOf(nbrs));
    var scores := Accumulate(contribs, ContribItem, ListedWeight(nbrs));
    UserScoresAgree(g, user, nbrs, scores);
    r := NLargest(scores, n);
    forall j | 0 <= j < |r| ensures r[j].0 !in ItemsOf(g, user) && 0.0 < r[j].1 <= TopK as real {
      UserScoreBounds(g, user, nbrs, r[j].0);
    }
  }

  // ---------------------------------------------------------------------
  // Dispatch

  /** Recommends up to `n` items for `user` with the named algorithm,
      co-occurrence counting unless another is named. A user without
      interactions gets nothing, whatever the name; otherwise an unknown
      name is an error. */
  method GetTopNRecommendations<U(==, !new), I(==, !new)>(g: Graph<U, I>, user: U, n: int,
                                                          algorithm: string := "collaborative_filtering")
    returns (r: Result<seq<(I, real)>>)
    ensures ItemsOf(g, user) == {} ==> r == Ok([])
    ensures ItemsOf(g, user) != {} && ParseAlgorithm(algorithm) == None ==> r == Err(UnknownAlgorithm(algorithm))
    ensures ItemsOf(g, user) != {} && ParseAlgorithm(algorithm) == Some(Collaborative) ==>
      r.Ok? && IsTopN(r.value, CoScores(g, user), n)
    ensures ItemsOf(g, user) != {} && ParseAlgorithm(algorithm) == Some(ItemBased) ==>
      r.Ok? && IsTopN(r.value, ItemScores(g, user), n)
    ensures ItemsOf(g, user) != {} && ParseAlgorithm(algorithm) == Some(UserBased) ==>
      r.Ok? && exists nbrs ::
        IsTopN(nbrs, SimilarityMap(g, user), TopK) && IsTopN(r.value, UserScores(g, user, KeysOf(nbrs)), n)
    ensures r.Ok? ==> |r.value| <= Max(n, 0)
    ensures r.Ok? ==> forall j :: 0 <= j < |r.value| ==> r.value[j].0 !in ItemsOf(g, user) && r.value[j].1 >= 0.0
    ensures r.Ok? && Symmetric(g) ==> forall j :: 0 <= j < |r.value| ==> r.value[j].1 > 0.0
  {
    if user !in g.userItems || g.userItems[user] == {} {
      return Ok([]);
    }
    match ParseAlgorithm(algorithm)
    case Some(Collaborative) =>
      var recs := CollaborativeFiltering(g, user, n);
      r := Ok(recs);
    case Some(ItemBased) =>
      var recs := ItemBasedRecommendations(g, user, n);
      r := Ok(recs);
    case Some(UserBased) =>
      var recs := UserBasedRecommendations(g, user, n);
      r := Ok(recs);
    case None =>
      r := Err(UnknownAlgorithm(algorithm));
  }

  // ---------------------------------------------------------------------
  // Diagnostics

  /** The snapshot `get_recommendation_stats` returns. */
  datatype RecommendationStats<U, I> = RecommendationStats(
    user: U,
    userItems: nat,
    totalCandidates: nat,
    similarUsers: nat,
    sample: seq<I>)

  /** The other users met on the first hop of the walk: every user other
      than `user` who holds one of its items. */
  function Neighbours<U(==, !new), I(==, !new)>(g: Graph<U, I>, user: U): set<U>
  {
    var owned := ItemsOf(g, user);
    set ui, v | ui in owned && v in UsersOf(g, ui) && v != user :: v
  }

  /** On a symmetric index the users met on the first hop are exactly the
      users with positive similarity to `user`. */
  lemma NeighboursAreSimilarUsers<U(!new), I(!new)>(g: Graph<U, I>, user: U)
    requires Symmetric(g)
    ensures Neighbours(g, user) == SimilarityMap(g, user).Keys
  {
    forall v | v in Neighbours(g, user) ensures v in SimilarityMap(g, user) {
      var ui :| ui in ItemsOf(g, user) && v in UsersOf(g, ui) && v != user;
      assert ui in ItemsOf(g, user) * ItemsOf(g, v);
    }
    forall v | v in SimilarityMap(g, user) ensures v in Neighbours(g, user) {
      var ui :| ui in ItemsOf(g, user) * ItemsOf(g, v);
      assert v in UsersOf(g, ui);
    }
  }

  /** Walks the same two hops as the co-occurrence ranker but only
      collects what it meets. An unknown user gets a zeroed snapshot. */
  method GetRecommendationStats<U(==, !new), I(==, !new)>(g: Graph<U, I>, user: U)
    returns (s: RecommendationStats<U, I>)
    ensures user !in g.userItems ==> s == RecommendationStats(user, 0, 0, 0, [])
    ensures user in g.userItems ==>
      && s.user == user
      && s.userItems == |ItemsOf(g, user)|
      && s.totalCandidates == |CoScores(g, user)|
      && s.similarUsers == |Neighbours(g, user)|
      && |s.sample| == Min(SampleSize, s.totalCandidates)
      && (forall j :: 0 <= j < |s.sample| ==> s.sample[j] in CoScores(g, user))
      && (forall j, k :: 0 <= j < k < |s.sample| ==> s.sample[j] != s.sample[k])
  {
    if user !in g.userItems {
      return RecommendationStats(user, 0, 0, 0, []);
    }
    var owned := g.userItems[user];
    var candidates := Image(Paths(g, user), PathTarget);
    var similar := Neighbours(g, user);
    TargetsAreCandidates(g, user);
    assert CoScores(g, user).Keys == candidates;
    var sample := TakeSample(candidates, SampleSize);
    s := RecommendationStats(user, |owned|, |candidates|, |similar|, sample);
  }
}
