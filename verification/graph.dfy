/** The bipartite user-item interaction index. One interaction is stored
    twice, once in each direction; a key with no interactions is absent
    rather than mapped to the empty set. The index is an immutable value
    and every mutation returns the next state. */
module InteractionGraph {
  import opened Sums

  datatype Graph<U, I> = Graph(userItems: map<U, set<I>>, itemUsers: map<I, set<U>>)

  /** Every (key, element) pair a map of sets holds. */
  function Pairs<K(!new), V(!new)>(m: map<K, set<V>>): (r: set<(K, V)>)
    ensures forall k, v :: (k, v) in r <==> k in m && v in m[k]
  {
    set k, v | k in m && v in m[k] :: (k, v)
  }

  /** The set stored under `k`, empty when `k` is absent. */
  function SetAt<K, V>(m: map<K, set<V>>, k: K): set<V>
  {
    if k in m then m[k] else {}
  }

  /** No key is mapped to the empty set. */
  ghost predicate NoEmptySets<K(!new), V>(m: map<K, set<V>>)
  {
    forall k :: k in m ==> m[k] != {}
  }

  /** A pair is held exactly when its element is in its key's set. */
  lemma PairsSetAt<K(!new), V(!new)>(m: map<K, set<V>>)
    ensures forall k, v :: (k, v) in Pairs(m) <==> v in SetAt(m, k)
  {
  }

  /** Writing back the value a key already has changes nothing. */
  lemma UpdateSameValue<K, V>(m: map<K, V>, k: K, v: V)
    ensures k in m && m[k] == v ==> m[k := v] == m
  {
    if k in m && m[k] == v {
      assert m[k := v].Keys == m.Keys;
    }
  }

  /** Puts `v` into the set under `k`, creating the entry if needed. */
  function Insert<K(!new), V(!new)>(m: map<K, set<V>>, k: K, v: V): (r: map<K, set<V>>)
    ensures Pairs(r) == Pairs(m) + {(k, v)}
    ensures r.Keys == m.Keys + {k}
    ensures v in SetAt(m, k) ==> r == m
    ensures NoEmptySets(m) ==> NoEmptySets(r)
  {
    var r := m[k := SetAt(m, k) + {v}];
    assert v in SetAt(m, k) ==> SetAt(m, k) + {v} == SetAt(m, k);
    UpdateSameValue(m, k, SetAt(m, k) + {v});
    r
  }

  /** Takes `v` out of the set under `k`, if it is there, and drops the
      entry of `k` when its set is left empty. */
  function Discard<K(!new), V(!new)>(m: map<K, set<V>>, k: K, v: V): (r: map<K, set<V>>)
    ensures Pairs(r) == Pairs(m) - {(k, v)}
    ensures k in r ==> r[k] != {}
    ensures forall x :: x != k ==> (x in r <==> x in m)
    ensures forall x :: x != k && x in r ==> r[x] == m[x]
    ensures NoEmptySets(m) ==> NoEmptySets(r)
    ensures NoEmptySets(m) && v !in SetAt(m, k) ==> r == m
  {
    var rest := SetAt(m, k) - {v};
    var r :=
      if k !in m then m
      else if rest == {} then m - {k}
      else m[k := rest];
    assert forall x :: SetAt(r, x) == if x == k then rest else SetAt(m, x);
    PairsSetAt(m);
    PairsSetAt(r);
    assert forall x, y :: (x, y) in Pairs(r) <==> (x, y) in Pairs(m) && (x, y) != (k, v);
    assert NoEmptySets(m) && v !in SetAt(m, k) && k in m ==> rest == m[k];
    UpdateSameValue(m, k, rest);
    r
  }

  /** The interactions as the user side records them. */
  function Edges<U(!new), I(!new)>(g: Graph<U, I>): set<(U, I)>
  {
    Pairs(g.userItems)
  }

  /** The interactions as the item side records them. */
  function ItemEdges<U(!new), I(!new)>(g: Graph<U, I>): set<(I, U)>
  {
    Pairs(g.itemUsers)
  }

  /** The items of `u`, empty when `u` is unknown. */
  function ItemsOf<U(!new), I(!new)>(g: Graph<U, I>, u: U): (r: set<I>)
    ensures forall i :: i in r <==> (u, i) in Edges(g)
  {
    SetAt(g.userItems, u)
  }

  /** The users of `i`, empty when `i` is unknown. */
  function UsersOf<U(!new), I(!new)>(g: Graph<U, I>, i: I): (r: set<U>)
    ensures forall u :: u in r <==> (i, u) in ItemEdges(g)
  {
    SetAt(g.itemUsers, i)
  }

  /** Both maps record the same interactions. */
  ghost predicate Symmetric<U(!new), I(!new)>(g: Graph<U, I>)
  {
    forall u, i :: i in ItemsOf(g, u) <==> u in UsersOf(g, i)
  }

  /** Symmetry says each interaction one side records, the other side
      records flipped. */
  lemma SymmetricAsEdges<U(!new), I(!new)>(g: Graph<U, I>)
    ensures Symmetric(g) <==> forall u, i :: (u, i) in Edges(g) <==> (i, u) in ItemEdges(g)
  {
    if forall u, i :: (u, i) in Edges(g) <==> (i, u) in ItemEdges(g) {
      forall u, i ensures i in ItemsOf(g, u) <==> u in UsersOf(g, i) {
        assert (u, i) in Edges(g) <==> (i, u) in ItemEdges(g);
      }
    }
    if Symmetric(g) {
      forall u, i ensures (u, i) in Edges(g) <==> (i, u) in ItemEdges(g) {
        assert i in ItemsOf(g, u) <==> u in UsersOf(g, i);
      }
    }
  }

  /** Absence of a key is the only way to have no interactions. */
  ghost predicate NoEmptyEntries<U(!new), I(!new)>(g: Graph<U, I>)
  {
    NoEmptySets(g.userItems) && NoEmptySets(g.itemUsers)
  }

  ghost predicate Valid<U(!new), I(!new)>(g: Graph<U, I>)
  {
    Symmetric(g) && NoEmptyEntries(g)
  }

  /** The state of a fresh or cleared index. */
  function Empty<U(!new), I(!new)>(): (r: Graph<U, I>)
    ensures Valid(r)
    ensures Edges(r) == {} && ItemEdges(r) == {}
    ensures AllUsers(r) == {} && AllItems(r) == {}
  {
    Graph(map[], map[])
  }

  /** Records that `u` interacted with `i`, on both sides. */
  function Add<U(!new), I(!new)>(g: Graph<U, I>, u: U, i: I): (r: Graph<U, I>)
    ensures i in ItemsOf(r, u) && u in UsersOf(r, i)
    ensures Edges(r) == Edges(g) + {(u, i)}
    ensures ItemEdges(r) == ItemEdges(g) + {(i, u)}
    ensures AllUsers(r) == AllUsers(g) + {u}
    ensures AllItems(r) == AllItems(g) + {i}
    ensures i in ItemsOf(g, u) && u in UsersOf(g, i) ==> r == g
    ensures Symmetric(g) ==> Symmetric(r)
    ensures NoEmptyEntries(g) ==> NoEmptyEntries(r)
  {
    var r := Graph(Insert(g.userItems, u, i), Insert(g.itemUsers, i, u));
    InsertBothSymmetric(g, u, i);
    r
  }

  /** Inserting an interaction on both sides keeps the sides in
      agreement. */
  lemma InsertBothSymmetric<U(!new), I(!new)>(g: Graph<U, I>, u: U, i: I)
    ensures Symmetric(g) ==> Symmetric(Graph(Insert(g.userItems, u, i), Insert(g.itemUsers, i, u)))
  {
    var r := Graph(Insert(g.userItems, u, i), Insert(g.itemUsers, i, u));
    SymmetricAsEdges(g);
    SymmetricAsEdges(r);
  }

  /** Forgets that `u` interacted with `i`, on both sides, and drops a key
      whose set has become empty. Removing an interaction that is not
      there, or naming an unknown user or item, is not an error. */
  function Remove<U(!new), I(!new)>(g: Graph<U, I>, u: U, i: I): (r: Graph<U, I>)
    ensures i !in ItemsOf(r, u) && u !in UsersOf(r, i)
    ensures Edges(r) == Edges(g) - {(u, i)}
    ensures ItemEdges(r) == ItemEdges(g) - {(i, u)}
    ensures u in r.userItems ==> r.userItems[u] != {}
    ensures i in r.itemUsers ==> r.itemUsers[i] != {}
    ensures forall u' :: u' != u ==> (u' in r.userItems <==> u' in g.userItems)
    ensures forall u' :: u' != u && u' in r.userItems ==> r.userItems[u'] == g.userItems[u']
    ensures forall i' :: i' != i ==> (i' in r.itemUsers <==> i' in g.itemUsers)
    ensures forall i' :: i' != i && i' in r.itemUsers ==> r.itemUsers[i'] == g.itemUsers[i']
    ensures Valid(g) && (u, i) !in Edges(g) ==> r == g
    ensures Symmetric(g) ==> Symmetric(r)
    ensures NoEmptyEntries(g) ==> NoEmptyEntries(r)
  {
    var r := Graph(Discard(g.userItems, u, i), Discard(g.itemUsers, i, u));
    SymmetricAsEdges(g);
    SymmetricAsEdges(r);
    assert Symmetric(g) && (u, i) !in Edges(g) ==> u !in UsersOf(g, i);
    r
  }

  /** Every user with at least one interaction. */
  function AllUsers<U(!new), I(!new)>(g: Graph<U, I>): (r: set<U>)
    ensures forall u :: u in r <==> u in g.userItems
    ensures NoEmptyEntries(g) ==> r == set e | e in Edges(g) :: e.0
  {
    var r := g.userItems.Keys;
    assert NoEmptyEntries(g) ==> forall u :: u in r ==> exists i :: i in g.userItems[u] && (u, i) in Edges(g);
    r
  }

  /** Every item with at least one interaction. */
  function AllItems<U(!new), I(!new)>(g: Graph<U, I>): (r: set<I>)
    ensures forall i :: i in r <==> i in g.itemUsers
    ensures NoEmptyEntries(g) ==> r == set e | e in ItemEdges(g) :: e.0
  {
    var r := g.itemUsers.Keys;
    assert NoEmptyEntries(g) ==> forall i :: i in r ==> exists u :: u in g.itemUsers[i] && (i, u) in ItemEdges(g);
    r
  }

  function UserCount<U(!new), I(!new)>(g: Graph<U, I>): (r: nat)
    ensures r == |AllUsers(g)|
  {
    |g.userItems|
  }

  function ItemCount<U(!new), I(!new)>(g: Graph<U, I>): (r: nat)
    ensures r == |AllItems(g)|
  {
    |g.itemUsers|
  }

  /** The pairs of `m` whose key lies in `keys`. */
  ghost function PairsWithin<K(!new), V(!new)>(m: map<K, set<V>>, keys: set<K>): set<(K, V)>
  {
    set k, v | k in keys && k in m && v in m[k] :: (k, v)
  }

  /** The pairs that one key contributes are as many as its set. */
  lemma FiberCard<K(!new), V(!new)>(m: map<K, set<V>>, k: K)
    requires k in m
    ensures |set v | v in m[k] :: (k, v)| == |m[k]|
  {
    var tag := (v: V) => (k, v);
    assert InjectiveOn(m[k], tag);
    InjectiveImageCard(m[k], tag);
    assert Image(m[k], tag) == set v | v in m[k] :: (k, v);
  }

  /** Adds up the sizes of all the sets of `m`; this counts the pairs the
      map holds, and is at least the number of keys when no set is empty. */
  method SumOfSizes<K(!new), V(!new)>(m: map<K, set<V>>) returns (total: nat)
    ensures total == |Pairs(m)|
    ensures (forall k :: k in m ==> m[k] != {}) ==> total >= |m|
  {
    total := 0;
    var todo := m.Keys;
    ghost var done: set<K> := {};
    while todo != {}
      invariant todo + done == m.Keys && todo !! done
      invariant total == |PairsWithin(m, done)|
      invariant (forall k :: k in m ==> m[k] != {}) ==> total >= |done|
      decreases todo
    {
      var k :| k in todo;
      var fiber := set v | v in m[k] :: (k, v);
      assert PairsWithin(m, done + {k}) == PairsWithin(m, done) + fiber;
      assert PairsWithin(m, done) !! fiber;
      FiberCard(m, k);
      assert m[k] != {} ==> |m[k]| >= 1;
      total := total + |m[k]|;
      todo := todo - {k};
      done := done + {k};
    }
    assert PairsWithin(m, done) == Pairs(m);
  }

  /** With no empty set, every key contributes at least one pair. */
  lemma PairsCoverKeys<K(!new), V(!new)>(m: map<K, set<V>>)
    requires forall k :: k in m ==> m[k] != {}
    ensures |Pairs(m)| >= |m|
  {
    var key := (p: (K, V)) => p.0;
    forall k | k in m ensures k in Image(Pairs(m), key) {
      var v :| v in m[k];
      assert (k, v) in Pairs(m);
    }
    SubsetCard(m.Keys, Image(Pairs(m), key));
    ImageCardBound(Pairs(m), key);
  }

  /** Under symmetry the two sides hold equally many interactions. */
  lemma SymmetricSidesAgree<U(!new), I(!new)>(g: Graph<U, I>)
    requires Symmetric(g)
    ensures |Edges(g)| == |ItemEdges(g)|
  {
    var flip := (e: (U, I)) => (e.1, e.0);
    assert InjectiveOn(Edges(g), flip);
    InjectiveImageCard(Edges(g), flip);
    forall e | e in ItemEdges(g) ensures e in Image(Edges(g), flip) {
      assert e == (e.0, e.1);
      assert e.1 in UsersOf(g, e.0);
      assert e.0 in ItemsOf(g, e.1);
      assert flip((e.1, e.0)) == e;
    }
    forall e | e in Edges(g) ensures flip(e) in ItemEdges(g) {
      assert e == (e.0, e.1);
      assert e.1 in ItemsOf(g, e.0);
      assert e.0 in UsersOf(g, e.1);
    }
    assert Image(Edges(g), flip) == ItemEdges(g);
  }

  /** The number of interactions: the sum of the users' set sizes, which
      under symmetry is also the sum of the items' set sizes. */
  method InteractionCount<U(!new), I(!new)>(g: Graph<U, I>) returns (r: nat)
    ensures r == |Edges(g)|
    ensures Symmetric(g) ==> r == |ItemEdges(g)|
    ensures NoEmptyEntries(g) ==> r >= UserCount(g)
  {
    r := SumOfSizes(g.userItems);
    if Symmetric(g) {
      SymmetricSidesAgree(g);
    }
  }

  /** The snapshot `get_graph_stats` returns. */
  datatype GraphStats = GraphStats(
    users: nat,
    items: nat,
    interactions: nat,
    avgItemsPerUser: real,
    avgUsersPerItem: real)

  /** `total / max(count, 1)`, as an exact ratio. */
  function Average(total: nat, count: nat): (r: real)
    ensures r * (if count == 0 then 1.0 else count as real) == total as real
    ensures total == 0 ==> r == 0.0
    ensures count > 0 && total >= count ==> r >= 1.0
  {
    total as real / (if count < 1 then 1 else count) as real
  }

  /** Counts and averages, with each average's denominator floored at one
      so that an empty index yields zero rather than failing. */
  method GetGraphStats<U(!new), I(!new)>(g: Graph<U, I>) returns (s: GraphStats)
    ensures s.users == |AllUsers(g)| && s.items == |AllItems(g)|
    ensures s.interactions == |Edges(g)|
    ensures s.avgItemsPerUser * (if s.users == 0 then 1.0 else s.users as real) == s.interactions as real
    ensures s.avgUsersPerItem * (if s.items == 0 then 1.0 else s.items as real) == s.interactions as real
    ensures s.users == 0 ==> s.interactions == 0 && s.avgItemsPerUser == 0.0
    ensures Symmetric(g) && s.items == 0 ==> s.interactions == 0 && s.avgUsersPerItem == 0.0
    ensures NoEmptyEntries(g) && s.users > 0 ==> s.avgItemsPerUser >= 1.0
    ensures Valid(g) && s.items > 0 ==> s.avgUsersPerItem >= 1.0
  {
    var users := UserCount(g);
    var items := ItemCount(g);
    var interactions := InteractionCount(g);
    if Valid(g) {
      PairsCoverKeys(g.itemUsers);
    }
    var perUser := Average(interactions, users);
    var perItem := Average(interactions, items);
    s := GraphStats(users, items, interactions, perUser, perItem);
  }

  /** The mutations a caller can apply to the index. */
  datatype Mutation<U, I> = AddInteraction(u: U, i: I) | RemoveInteraction(u: U, i: I) | ClearAllData

  function Apply<U(!new), I(!new)>(g: Graph<U, I>, m: Mutation<U, I>): Graph<U, I>
  {
    match m
    case AddInteraction(u, i) => Add(g, u, i)
    case RemoveInteraction(u, i) => Remove(g, u, i)
    case ClearAllData => Empty()
  }

  /** The state after applying `ms` in order. */
  function Replay<U(!new), I(!new)>(g: Graph<U, I>, ms: seq<Mutation<U, I>>): Graph<U, I>
    decreases |ms|
  {
    if ms == [] then g else Replay(Apply(g, ms[0]), ms[1..])
  }

  /** Symmetry and the absence of empty entries hold after any sequence of
      mutations. */
  lemma {:induction false} ReplayKeepsValid<U(!new), I(!new)>(g: Graph<U, I>, ms: seq<Mutation<U, I>>)
    requires Valid(g)
    ensures Valid(Replay(g, ms))
    decreases |ms|
  {
    if ms != [] {
      ReplayKeepsValid(Apply(g, ms[0]), ms[1..]);
    }
  }

  /** The state after adding every interaction of `ps` in order. */
  function AddAll<U(!new), I(!new)>(g: Graph<U, I>, ps: seq<(U, I)>): Graph<U, I>
    decreases |ps|
  {
    if ps == [] then g else AddAll(Add(g, ps[0].0, ps[0].1), ps[1..])
  }

  /** The interactions a batch lists. */
  ghost function Listed<U, I>(ps: seq<(U, I)>): set<(U, I)>
  {
    set p | p in ps
  }

  lemma ListedCons<U, I>(ps: seq<(U, I)>)
    requires ps != []
    ensures Listed(ps) == {ps[0]} + Listed(ps[1..])
  {
    forall p | p in ps ensures p == ps[0] || p in ps[1..] {
      var j :| 0 <= j < |ps| && ps[j] == p;
      if j > 0 {
        assert ps[1..][j - 1] == p;
      }
    }
  }

  /** Adding a batch of interactions records exactly those interactions on
      top of what was there, whatever their order or repetitions. */
  lemma {:induction false} AddAllEdges<U(!new), I(!new)>(g: Graph<U, I>, ps: seq<(U, I)>)
    ensures Edges(AddAll(g, ps)) == Edges(g) + Listed(ps)
    decreases |ps|
  {
    if ps != [] {
      var h := Add(g, ps[0].0, ps[0].1);
      AddAllEdges(h, ps[1..]);
      ListedCons(ps);
      assert Edges(h) == Edges(g) + {ps[0]};
    }
  }

  /** Adding a batch keeps the index well-formed. */
  lemma {:induction false} AddAllValid<U(!new), I(!new)>(g: Graph<U, I>, ps: seq<(U, I)>)
    requires Valid(g)
    ensures Valid(AddAll(g, ps))
    decreases |ps|
  {
    if ps != [] {
      AddAllValid(Add(g, ps[0].0, ps[0].1), ps[1..]);
    }
  }

  /** Adding the same interaction twice is adding it once. */
  lemma AddIdempotent<U(!new), I(!new)>(g: Graph<U, I>, u: U, i: I)
    ensures Add(Add(g, u, i), u, i) == Add(g, u, i)
  {
  }

  /** A state without empty entries is determined by the interactions
      each side records: the representation is canonical. */
  lemma SameEdgesSameGraph<U(!new), I(!new)>(g: Graph<U, I>, h: Graph<U, I>)
    requires NoEmptyEntries(g) && NoEmptyEntries(h)
    requires Edges(g) == Edges(h) && ItemEdges(g) == ItemEdges(h)
    ensures g == h
  {
    forall u | u in g.userItems ensures u in h.userItems {
      var i :| i in g.userItems[u];
      assert (u, i) in Edges(h);
    }
    forall u | u in h.userItems ensures u in g.userItems {
      var i :| i in h.userItems[u];
      assert (u, i) in Edges(g);
    }
    forall u | u in g.userItems ensures g.userItems[u] == h.userItems[u] {
      assert forall i :: i in g.userItems[u] <==> (u, i) in Edges(h);
    }
    forall i | i in g.itemUsers ensures i in h.itemUsers {
      var u :| u in g.itemUsers[i];
      assert (i, u) in ItemEdges(h);
    }
    forall i | i in h.itemUsers ensures i in g.itemUsers {
      var u :| u in h.itemUsers[i];
      assert (i, u) in ItemEdges(g);
    }
    forall i | i in g.itemUsers ensures g.itemUsers[i] == h.itemUsers[i] {
      assert forall u :: u in g.itemUsers[i] <==> (i, u) in ItemEdges(h);
    }
  }

  /** Removing an interaction undoes adding a new one. */
  lemma RemoveUndoesAdd<U(!new), I(!new)>(g: Graph<U, I>, u: U, i: I)
    requires Valid(g) && (u, i) !in Edges(g)
    ensures Remove(Add(g, u, i), u, i) == g
  {
    var r := Remove(Add(g, u, i), u, i);
    assert u !in UsersOf(g, i);
    assert Edges(r) == Edges(g);
    assert ItemEdges(r) == ItemEdges(g);
    SameEdgesSameGraph(r, g);
  }
}
