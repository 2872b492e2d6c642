# Interaction-index recommender, modelled in Dafny

This project models a small recommender with two parts.

- **Interaction index.** It records which users interacted with which items. Each interaction is stored twice: user → items and item → users. A user or item with no interactions has no entry.
- **Engine.** It reads the index and ranks candidate items for one user. Three rankers are modelled:
  - **co-occurrence:** a candidate's score is the number of (owned item, other user) routes that reach it;
  - **item-based:** each route adds the Jaccard similarity of the owned item and the candidate, computed over their user sets;
  - **user-based:** each of up to ten users most similar to the target adds its Jaccard similarity (over item sets) to every item it holds and the target does not.

  A dispatcher picks a ranker by name. A diagnostics traversal summarises what the co-occurrence walk reaches.

The index is an immutable value `Graph<U, I>` holding two `map<_, set<_>>` fields. Every mutation is a pure function that returns the next state. The engine takes the index as a parameter.

The engine's nested traversal loops are modelled as the *set* of steps they visit. That set is then fed to one insert-or-update accumulation loop (`Scoring.Accumulate`). Each score is proved equal to an independent reference definition, stated with finite sums over sets (`Sums.Sum`) or route counts.

Top-n selection (`heapq.nlargest` keyed on the score) is specified by `Ranking.IsTopN`:

- the list has `min(max(n, 0), |scores|)` entries;
- every entry is a key of the score map, paired with its own score;
- no key appears twice;
- scores never increase along the list;
- no key left out scores above any key listed.

The order among equal scores is left open.

Modules:

- `Sums`: finite sums over sets and their order independence.
- `Ranking`: top-n selection and sampling.
- `Scoring`: the score accumulator.
- `InteractionGraph`: the index.
- `RecommenderEngine`: the rankers, the similarities, dispatch and diagnostics.
- `Scenario`: the interaction network of the basic test, with the answers the rankers must give on it.

## Model

| member | source | states |
|---|---|---|
| InteractionGraph.Insert | recommender_graph.py:6-7 | `setdefault(k, set()).add(v)` adds exactly the pair (k, v) to the pairs the map holds, adds `k` to the keys, changes nothing when `v` is already under `k`, and never creates an empty set |
| InteractionGraph.Discard | recommender_graph.py:11-18 | `get(k, set()).discard(v)` followed by the empty-key cleanup removes exactly the pair (k, v), leaves every other key's set as it was, never leaves `k` mapped to an empty set, and changes nothing when `v` is not under `k` in a map without empty sets |
| InteractionGraph.Add | recommender_graph.py:4-7 | after adding (u, i), `i` is among u's items and `u` among i's users; the interactions on each side grow by exactly that pair; users and items grow by `u` and `i`; an existing interaction leaves the index unchanged; symmetry and the absence of empty entries are preserved |
| InteractionGraph.Remove | recommender_graph.py:9-18 | after removing (u, i), the pair is absent on both sides and every other interaction is kept; a key whose set became empty is gone; every other user's and item's entry is untouched; removing an absent pair (or an unknown user or item) from a well-formed index changes nothing; symmetry and no-empty-entries are preserved |
| InteractionGraph.ItemsOf | recommender_graph.py:20-22 | the items of `u` are exactly those `i` with (u, i) recorded, and empty for an unknown user |
| InteractionGraph.UsersOf | recommender_graph.py:24-26 | the users of `i` are exactly those `u` with (i, u) recorded on the item side, and empty for an unknown item |
| InteractionGraph.AllUsers | recommender_graph.py:28-30 | the users with an entry; without empty entries, exactly the users appearing in some interaction |
| InteractionGraph.AllItems | recommender_graph.py:32-34 | the items with an entry; without empty entries, exactly the items appearing in some interaction |
| InteractionGraph.SumOfSizes | recommender_graph.py:36-38 | adding up the sizes of every set of a map counts the (key, element) pairs it holds, which is at least the number of keys when no set is empty |
| InteractionGraph.InteractionCount | recommender_graph.py:36-38 | the sum of the users' set sizes is the number of interactions; under symmetry it equals the item side's count; without empty entries it is at least the user count |
| InteractionGraph.SymmetricSidesAgree | recommender_graph.py:36-38 | when both sides agree, they hold equally many interactions, so counting either side gives the same total |
| InteractionGraph.UserCount | recommender_graph.py:40-42 | the user count is the number of users with an entry |
| InteractionGraph.ItemCount | recommender_graph.py:44-46 | the item count is the number of items with an entry |
| InteractionGraph.Empty | recommender_graph.py:48-51 | a cleared index is well-formed and has no interactions, users or items |
| InteractionGraph.Average | recommender_graph.py:59-60 | `total / max(count, 1)` times its floored denominator gives back the total; it is 0 for a zero total and at least 1 when the total reaches the count |
| InteractionGraph.GetGraphStats | recommender_graph.py:53-61 | the three counts; each average times its floored denominator is the interaction count; with no users (or, under symmetry, no items) there are no interactions and the average is 0; without empty entries each non-trivial average is at least 1 |
| InteractionGraph.ReplayKeepsValid | recommender_graph.py:4-51 | symmetry and no-empty-entries hold after any sequence of add, remove and clear operations |
| InteractionGraph.AddIdempotent | recommender_graph.py:4-7 | adding the same interaction twice gives the same index as adding it once |
| InteractionGraph.SameEdgesSameGraph | recommender_graph.py:14-18 | because empty keys are cleaned up, an index without empty entries is determined by the interactions each side records |
| InteractionGraph.RemoveUndoesAdd | recommender_graph.py:4-18 | in a well-formed index, removing a newly added interaction restores the previous index exactly |
| InteractionGraph.AddAllEdges | test_recommender.py:73-74 | adding a batch of interactions one by one records exactly those interactions on top of the existing ones, whatever their order or repetitions |
| InteractionGraph.AddAllValid | test_recommender.py:73-74 | adding a batch keeps a well-formed index well-formed |
| Scoring.AccumulateStep | recommender_engine.py:42 | one insert-or-update step (`scores.get(c, 0) + w`) adds the contribution to the total of its own key and leaves every other key's total alone |
| Scoring.Accumulate | recommender_engine.py:34-43 | after visiting every contribution once, the map has one key per key touched, and each value is the total weight of the contributions landing on that key, whatever the visiting order |
| Ranking.NLargest | recommender_engine.py:44 | `heapq.nlargest(n, scores.items(), key=score)` returns `min(max(n,0), |scores|)` distinct entries of the score map, best first, with nothing left out scoring above anything listed |
| Ranking.KeysOfCard | recommender_engine.py:44 | a ranked list with distinct keys mentions as many keys as it has entries |
| Ranking.TakeSample | recommender_engine.py:154 | `list(candidates)[:10]` has `min(10, |candidates|)` distinct elements, all of them candidates |
| RecommenderEngine.ParseAlgorithm | recommender_engine.py:20-27 | a name selects an algorithm exactly when it is one of the three recognised names |
| RecommenderEngine.AlgorithmName | recommender_engine.py:20-25 | each algorithm's name selects that algorithm |
| RecommenderEngine.ParseAlgorithmNames | recommender_engine.py:20-25 | a recognised name is exactly the name of the algorithm it selects |
| RecommenderEngine.JaccardCounts | recommender_engine.py:121-122 | the overlap is never larger than the union, the union is non-empty when either set is, and equal sizes mean equal sets |
| RecommenderEngine.Ratio | recommender_engine.py:124 | a count over a larger positive count lies in [0, 1], is positive iff the count is, and is 1 iff the two counts are equal |
| RecommenderEngine.Jaccard | recommender_engine.py:116-124 | the similarity lies in [0, 1]; it is 0 when either set is empty; it is positive iff the sets share an element; it is 1 iff the sets are equal and non-empty |
| RecommenderEngine.JaccardSymmetric | recommender_engine.py:116-124 | the similarity does not depend on argument order |
| RecommenderEngine.ItemSimilarity | recommender_engine.py:87-98 | item similarity lies in [0, 1]; it is 0 when either item is unknown; it is positive iff some user holds both items |
| RecommenderEngine.ItemSimilaritySymmetric | recommender_engine.py:87-98 | item similarity does not depend on argument order |
| RecommenderEngine.PathsByTarget | recommender_engine.py:37-42 | the steps ending at `c` correspond one for one to the routes reaching `c` |
| RecommenderEngine.TargetsAreCandidates | recommender_engine.py:37-42 | the items the steps end at are exactly the candidates |
| RecommenderEngine.CandidateFacts | recommender_engine.py:37-42 | a candidate is never owned by the target and is reached by at least one route |
| RecommenderEngine.CoScoresAgree | recommender_engine.py:34-43 | accumulating one per step yields, for each candidate, the number of routes reaching it, and nothing for other items |
| RecommenderEngine.CollaborativeFiltering | recommender_engine.py:29-44 | the result is a top-n selection of the route-count scores; no item is already owned; every score is at least 1 |
| RecommenderEngine.ItemScoresAgree | recommender_engine.py:51-65 | accumulating each step's item similarity yields, for each candidate, the sum over the routes reaching it of the similarity of the route's owned item to the candidate |
| RecommenderEngine.RouteWeightsPositive | recommender_engine.py:58-65 | in a symmetric index every route's similarity weight is positive, since the route's user holds both items |
| RecommenderEngine.ItemScoreBounds | recommender_engine.py:54-65 | an item-based score lies between 0 and the candidate's route count, and is positive in a symmetric index |
| RecommenderEngine.ItemBasedRecommendations | recommender_engine.py:46-67 | the result is a top-n selection of the summed-similarity scores; no item is already owned; each score lies between 0 and the candidate's route count, and is positive in a symmetric index |
| RecommenderEngine.SimilarityMap | recommender_engine.py:105-112 | the other users with positive similarity are exactly the known users sharing an item with the target, each paired with its Jaccard similarity |
| RecommenderEngine.FindSimilarUsers | recommender_engine.py:100-114 | the result is a top-`topK` selection of the positive similarities; each entry is another user sharing an item with the target, with its similarity in (0, 1] |
| RecommenderEngine.LookupListed | recommender_engine.py:80 | in a list with distinct keys, looking up a listed neighbour yields the similarity listed for it |
| RecommenderEngine.ListedWeightAgrees | recommender_engine.py:80-83 | the weight a contribution of a listed neighbour adds is that neighbour's similarity to the target |
| RecommenderEngine.ContributionsTo | recommender_engine.py:80-83 | the contributions landing on `c` are the chosen neighbours holding `c`, each paired with `c` |
| RecommenderEngine.ContributionTargets | recommender_engine.py:80-83 | the items the contributions land on are exactly the items some chosen neighbour holds and the target does not |
| RecommenderEngine.UserScoreAt | recommender_engine.py:80-83 | the weight accumulated on `c` is the sum of the similarities of the chosen neighbours holding `c` |
| RecommenderEngine.UserScoresAgree | recommender_engine.py:74-83 | accumulating each neighbour's similarity on the items it offers yields the user-based score map for those neighbours |
| RecommenderEngine.UserScoreBounds | recommender_engine.py:78-83 | a user-based score is positive and at most the number of neighbours consulted, which is at most ten, and its item is not owned by the target |
| RecommenderEngine.UserBasedRecommendations | recommender_engine.py:69-85 | for a user with items, the result is a top-n selection of the user-based scores for some valid top-10 choice of neighbours; a user without items gets nothing; no item is owned; each score lies in (0, 10] |
| RecommenderEngine.GetTopNRecommendations | recommender_engine.py:5-27 | the algorithm defaults to co-occurrence counting; a user that is absent or has no items gets an empty list whatever the algorithm name; otherwise an unknown name is an error, and each recognised name yields a top-n selection of that ranker's scores; results never exceed `n`, never contain owned items, have non-negative scores, and positive scores on a symmetric index |
| RecommenderEngine.NeighboursAreSimilarUsers | recommender_engine.py:141-144 | on a symmetric index, the other users met on the walk's first hop are exactly the users with positive similarity to the target |
| RecommenderEngine.GetRecommendationStats | recommender_engine.py:126-155 | an unknown user gets a zeroed snapshot with an empty sample; otherwise the snapshot has the user's item count, the number of items the co-occurrence ranker scores, the number of first-hop users, and a sample of at most ten distinct candidates |
| Scenario.BuildBasicGraph | test_recommender.py:15-21 | adding the seven interactions of the basic test to an empty index gives a well-formed index holding exactly those seven |
| Scenario.BasicGraphContents | test_recommender.py:15-21 | in that index each person's items and each item's users are as the seven interactions say |
| Scenario.AliceCoScores | test_recommender.py:24 | Alice's only candidate is Item3, reached by two routes |
| Scenario.AliceRecommendations | test_recommender.py:24 | `get_top_n_recommendations('Alice', 3)` returns `[(Item3, 2)]` |
| Scenario.CharlieCoScores | test_recommender.py:31 | Charlie's only candidate is Item2, reached by two routes |
| Scenario.CharlieRecommendations | test_recommender.py:31 | `get_top_n_recommendations('Charlie', 2)` returns `[(Item2, 2)]` |
| Scenario.NewUserRecommendations | test_recommender.py:40 | a user the index has never seen gets an empty list under the default algorithm |
| Scenario.UnknownAlgorithmRejected | recommender_engine.py:26-27 | a user with items and an unrecognised algorithm name get the unknown-algorithm error |
| Scenario.EmptyGraphStats | recommender_graph.py:53-61 | a fresh index has all counts 0 and both averages 0.0 |

## Left out

- Scores and averages are exact `real` values. The IEEE double rounding of `intersection / union` and of the averages is not modelled.
- The co-occurrence ranker's integer counts are represented as whole-numbered reals, so that all three rankers return one list type.
- Order among equal scores in `heapq.nlargest` is not fixed. The specification allows any best-first order, since the source's order depends on dict and set iteration order.
- Which ten candidates `list(candidates)[:10]` picks depends on set iteration order. Only the sample's length, membership and distinctness are stated.
- The module-level dictionaries are replaced by an explicit index value passed to every function. Mutation returns the next state.
- The defensive copies made by `get_user_items`, `get_item_users`, `get_all_users` and `get_all_items` are not modelled. Dafny sets are immutable values, so a copy cannot be told from the original.
- `ValueError` becomes the `Err(UnknownAlgorithm(name))` result.
- The source builds the error message as an f-string. That message text is not modelled; the result only carries the name.
- For an unknown user, the diagnostics dictionary uses the key `'recommendations'`; a known user gets `'candidates'`. Dictionary key names are not modelled. Both cases fill the one `sample` field, which is empty for an unknown user.
- UserBasedRecommendations: the score is stated for *some* top-10 choice of neighbours satisfying the top-n contract, not for the particular choice `heapq` makes when similarities tie at the tenth place. That choice depends on iteration order.
- GetTopNRecommendations: its user-based case inherits the same existential over the neighbour choice.
- `find_similar_users` is only ever called with its default `top_k=10`. The model takes `topK` as a parameter and the user-based ranker passes the constant `TopK = 10`.
- The test script's printing and `display_graph_state` are I/O and are not modelled. Only its interaction lists and the recommendations it requests are used, in `Scenario`.
- The Bob case of the basic test, the lonely-user case, the after-removal case and the large data set are not worked through as concrete scenarios. Their results follow from the general contracts. In Bob's case two candidates tie, so the order of his list is not determined.
- User and item identifiers are type parameters with equality; Python's hashing is not modelled. The concrete scenario uses enumerated identifiers in place of strings.

## Source behaviour worth noting

- recommender_engine.py:17-27 tests for an absent or empty user before it looks at the algorithm name, so an unknown user with an unrecognised name gets an empty list, not an error.
- recommender_graph.py:11-18 deletes a key whose set is empty even if the named pair was never there. So "removing an absent pair changes nothing" holds only for an index without empty entries, and `Remove` states it under that condition. Such an index is the only kind the operations produce (`ReplayKeepsValid`).
- recommender_engine.py:128 returns the zeroed snapshot only when the user has no entry at all; a user with an entry, even an empty one, goes through the walk.
