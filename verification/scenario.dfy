/** The interaction network of the basic recommendation test, built by
    the same sequence of `Add`s, and what the co-occurrence ranker must
    answer on it. */
module Scenario {
  import opened Ranking
  import opened InteractionGraph
  import opened RecommenderEngine

  /** The people and items of the test, as opaque identifiers. */
  datatype Person = Alice | Bob | Charlie | David | NewUser
  datatype Thing = Item1 | Item2 | Item3

  /** Seven interactions, in the order the test adds them. */
  function BasicInteractions(): seq<(Person, Thing)>
  {
    [(Alice, Item1), (Bob, Item2), (Alice, Item2), (Charlie, Item1),
     (Charlie, Item3), (David, Item2), (David, Item3)]
  }

  /** The interactions the basic test records. */
  function BasicEdges(): set<(Person, Thing)>
  {
    {(Alice, Item1), (Bob, Item2), (Alice, Item2), (Charlie, Item1),
     (Charlie, Item3), (David, Item2), (David, Item3)}
  }

  lemma ListedBasic()
    ensures Listed(BasicInteractions()) == BasicEdges()
  {
    var ps := BasicInteractions();
    forall p ensures p in Listed(ps) <==> p in BasicEdges() {
      assert p in Listed(ps) <==> p in ps;
    }
  }

  /** A batch added to an empty index is all the index holds. */
  lemma FromEmpty(ps: seq<(Person, Thing)>)
    ensures Edges(AddAll(Empty(), ps)) == Listed(ps)
  {
    AddAllEdges(Empty(), ps);
  }

  lemma BasicEdgesBuilt(ps: seq<(Person, Thing)>)
    requires ps == BasicInteractions()
    ensures Edges(AddAll(Empty(), ps)) == BasicEdges()
  {
    FromEmpty(ps);
    ListedBasic();
  }

  /** Replaying the test's `Add`s on an empty index gives a well-formed
      index holding exactly the seven interactions. The list arrives as a
      parameter pinned by the precondition, rather than written inline, so
      that the verifier reasons about `AddAll` through its lemmas instead of
      unfolding it over the seven literal pairs. */
  method BuildBasicGraph(ps: seq<(Person, Thing)>) returns (g: Graph<Person, Thing>)
    requires ps == BasicInteractions()
    ensures Valid(g) && Edges(g) == BasicEdges()
  {
    BasicEdgesBuilt(ps);
    AddAllValid(Empty(), ps);
    g := AddAll(Empty(), ps);
  }

  /** In a symmetric index holding the seven interactions, each person's
      items and each item's users are as listed. */
  lemma BasicGraphContents(g: Graph<Person, Thing>)
    requires Symmetric(g) && Edges(g) == BasicEdges()
    ensures ItemsOf(g, Alice) == {Item1, Item2}
    ensures ItemsOf(g, Bob) == {Item2}
    ensures ItemsOf(g, Charlie) == {Item1, Item3}
    ensures ItemsOf(g, David) == {Item2, Item3}
    ensures ItemsOf(g, NewUser) == {}
    ensures UsersOf(g, Item1) == {Alice, Charlie}
    ensures UsersOf(g, Item2) == {Alice, Bob, David}
    ensures UsersOf(g, Item3) == {Charlie, David}
  {
    forall u ensures u in UsersOf(g, Item1) <==> u == Alice || u == Charlie {
      assert u in UsersOf(g, Item1) <==> Item1 in ItemsOf(g, u);
    }
    forall u ensures u in UsersOf(g, Item2) <==> u == Alice || u == Bob || u == David {
      assert u in UsersOf(g, Item2) <==> Item2 in ItemsOf(g, u);
    }
    forall u ensures u in UsersOf(g, Item3) <==> u == Charlie || u == David {
      assert u in UsersOf(g, Item3) <==> Item3 in ItemsOf(g, u);
    }
  }

  /** A ranking with a single candidate lists that candidate alone. */
  lemma SingleCandidate<K>(r: seq<(K, real)>, k: K, score: real, n: int)
    requires n >= 1
    requires IsTopN(r, map[k := score], n)
    ensures r == [(k, score)]
  {
    assert |r| == 1;
    assert r[0].0 in map[k := score];
  }

  /** Alice reaches only Item3, once through Charlie (via Item1) and once
      through David (via Item2). */
  lemma AliceCoScores(g: Graph<Person, Thing>)
    requires Symmetric(g) && Edges(g) == BasicEdges()
    ensures CoScores(g, Alice) == map[Item3 := 2.0]
  {
    BasicGraphContents(g);
    forall c | c in Candidates(g, Alice) ensures c == Item3 {
      var ui, v :| ui in ItemsOf(g, Alice) && v in UsersOf(g, ui) && v != Alice
        && c in ItemsOf(g, v) && c !in ItemsOf(g, Alice);
    }
    assert (Item1, Charlie) in Routes(g, Alice, Item3);
    assert (Item2, David) in Routes(g, Alice, Item3);
    assert Routes(g, Alice, Item3) == {(Item1, Charlie), (Item2, David)};
  }

  /** Charlie reaches only Item2, once through Alice (via Item1) and once
      through David (via Item3). */
  lemma CharlieCoScores(g: Graph<Person, Thing>)
    requires Symmetric(g) && Edges(g) == BasicEdges()
    ensures CoScores(g, Charlie) == map[Item2 := 2.0]
  {
    BasicGraphContents(g);
    forall c | c in Candidates(g, Charlie) ensures c == Item2 {
      var ui, v :| ui in ItemsOf(g, Charlie) && v in UsersOf(g, ui) && v != Charlie
        && c in ItemsOf(g, v) && c !in ItemsOf(g, Charlie);
    }
    assert (Item1, Alice) in Routes(g, Charlie, Item2);
    assert (Item3, David) in Routes(g, Charlie, Item2);
    assert Routes(g, Charlie, Item2) == {(Item1, Alice), (Item3, David)};
  }

  /** The default algorithm recommends Item3, with score 2, to Alice. */
  method AliceRecommendations() returns (r: Result<seq<(Thing, real)>>)
    ensures r == Ok([(Item3, 2.0)])
  {
    var g := BuildBasicGraph(BasicInteractions());
    BasicGraphContents(g);
    AliceCoScores(g);
    r := GetTopNRecommendations(g, Alice, 3);
    SingleCandidate(r.value, Item3, 2.0, 3);
  }

  /** The default algorithm recommends Item2, with score 2, to Charlie. */
  method CharlieRecommendations() returns (r: Result<seq<(Thing, real)>>)
    ensures r == Ok([(Item2, 2.0)])
  {
    var g := BuildBasicGraph(BasicInteractions());
    BasicGraphContents(g);
    CharlieCoScores(g);
    r := GetTopNRecommendations(g, Charlie, 2);
    SingleCandidate(r.value, Item2, 2.0, 2);
  }

  /** A user the index has never seen gets nothing. */
  method NewUserRecommendations() returns (r: Result<seq<(Thing, real)>>)
    ensures r == Ok([])
  {
    var g: Graph<Person, Thing> := Empty();
    r := GetTopNRecommendations(g, NewUser, 2);
  }

  /** A known user and an unknown algorithm name are an error. */
  method UnknownAlgorithmRejected() returns (r: Result<seq<(Thing, real)>>)
    ensures r == Err(UnknownAlgorithm("no_such_algorithm"))
  {
    var g := BuildBasicGraph(BasicInteractions());
    BasicGraphContents(g);
    r := GetTopNRecommendations(g, Alice, 3, "no_such_algorithm");
  }

  /** The statistics of a fresh index are all zero. */
  method EmptyGraphStats() returns (s: GraphStats)
    ensures s == GraphStats(0, 0, 0, 0.0, 0.0)
  {
    var g: Graph<Person, Thing> := Empty();
    s := GetGraphStats(g);
  }
}
