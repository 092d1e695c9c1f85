# Crafting-recipe resolver, modelled in Dafny

This project models the recipe resolver of `lib/recipegen.py`. The resolver
reads a crafting graph. Nodes labelled `Element` are craftable elements with
a `name` and a `depth`; depth 0 marks a basic element. A "pair" node groups
two ingredients. Each ingredient has a `PART_OF` edge to the pair, and the
pair has a `RESULTS_IN` edge to the element it makes.

`find_crafting_path(target)` works in three steps:

1. It builds four lookup tables from the raw lists: `elements`,
   `pairs_to_results`, `pair_ingredients` and `crafting_recipes`.
2. It finds the target by name, ignoring case.
3. It builds a nested crafting tree with the recursive `build_tree`, which
   memoises every tree it builds in `cache`.

Modules, one per part of the source:

- `OrderedDict` (`ordered_dict.dfy`): a Python dict as a map plus its keys in
  insertion order. `Put` is `d[k] = v`: a new key goes last and an existing
  key keeps its place.
- `Dag` (`dag.dfy`): the raw nodes and relationships.
- `GraphIndex` (`graph_index.dfy`): the four tables. Each one has three
  parts: a function that folds over the input left to right, a method with
  the source's loop proved equal to that function, and lemmas that say what
  the table holds in closed form.
- `NameLookup` (`name_lookup.dfy`): `find_element_by_name`.
- `CraftTree` (`craft_tree.dfy`): the tree datatype, the memoising
  `BuildTree` method, and the ghost function `TreeOf` that gives its value.
  The predicate `Faithful` describes a correct unfolding of the tables on
  its own terms, and two lemmas show that `TreeOf` gives exactly the
  faithful trees.
- `RecipeGen` (`recipe_gen.dfy`): `find_crafting_path` from the tables to the
  returned tree.
- `Scenarios` (`scenarios.dfy`): two worked graphs. In the first, Fire and
  Water make Steam. In the second, A is part of its own recipe.

Termination. `build_tree` has no cycle guard: `find_crafting_path` declares
a `visited` set (line 62) that is never used. `build_tree` writes the cache
only after the ingredients are built, so a recipe cycle reachable from the
target makes it recurse without bound.
The model therefore takes a ghost `rank: map<Id, nat>` and requires it to
strictly decrease from each element to every ingredient it recurses into
(`CraftTree.Ranked`, `CraftTree.RankedFrom`). Such a rank exists when no
recipe cycle is reachable from the target. `RevisitNotRanked` shows that no
rank exists when a chain of recursive calls comes back to an element it has
already visited.

Behaviour of `lib/recipegen.py` that the model keeps as written:

- The name lookup lower-cases both names before comparing them (`.lower()`,
  line 20).
- The resolver has no depth limit, no cap on candidate recipes, no cycle
  guard, no LRU cache and no sentinel trees for unknown or basic elements.
- An element has at most one recipe: a later qualifying pair overwrites an
  earlier one (line 55).
- An unresolvable element or ingredient is `None` (lines 69 and 81), not a
  basic leaf.

## Model

| member | source | states |
|---|---|---|
| `OrderedDict.Dict.Put` | lib/recipegen.py:35-38 | dict assignment keeps the dict well formed, stores the value under the key, leaves other keys alone, keeps existing keys in place and appends a new key last |
| `OrderedDict.FirstOccurrences` | lib/recipegen.py:19 | the keys of a dict filled in order hold the same items as the inserted keys, each once |
| `OrderedDict.FirstOccurrencesOrder` | lib/recipegen.py:19 | dict iteration visits keys in the order of their first insertion |
| `OrderedDict.PutTwice` | lib/recipegen.py:48-50 | creating an empty list for a new pair and then appending to it equals storing the one-element list |
| `GraphIndex.ElementsOf` | lib/recipegen.py:33-38 | the `elements` dict is well formed |
| `GraphIndex.ElementsOfDomain` | lib/recipegen.py:33-35 | an id is in `elements` exactly when some node with that id has the label `Element` |
| `GraphIndex.ElementsOfLastWins` | lib/recipegen.py:35-38 | an entry holds the name and depth of the last `Element` node with that id |
| `GraphIndex.ElementsOfKeys` | lib/recipegen.py:33-35 | `elements` lists ids in the order the `Element` nodes first show them |
| `GraphIndex.IndexElements` | lib/recipegen.py:33-38 | the node loop computes `ElementsOf(nodes)` |
| `GraphIndex.ResultsOf` | lib/recipegen.py:40-43 | every pair in `pairs_to_results` maps to the end of some `RESULTS_IN` edge that starts at it |
| `GraphIndex.ResultsOfDomain` | lib/recipegen.py:41-43 | a pair is in `pairs_to_results` exactly when some `RESULTS_IN` edge starts at it; other edge kinds are ignored |
| `GraphIndex.ResultsOfLastWins` | lib/recipegen.py:41-43 | a pair maps to the end of the last `RESULTS_IN` edge from it |
| `GraphIndex.IndexResults` | lib/recipegen.py:40-43 | the relationship loop computes `ResultsOf(rels)` |
| `GraphIndex.IngredientsOf` | lib/recipegen.py:45-50 | the `pair_ingredients` dict is well formed |
| `GraphIndex.IngredientsOfEntries` | lib/recipegen.py:45-50 | a pair is in `pair_ingredients` exactly when some `PART_OF` edge ends at it, and its list is the starts of all such edges in relationship order |
| `GraphIndex.IngredientsOfKeys` | lib/recipegen.py:45-50 | `pair_ingredients` lists pairs in the order of their first `PART_OF` edge |
| `GraphIndex.IndexIngredients` | lib/recipegen.py:45-50 | the loop, with its create-then-append steps, computes `IngredientsOf(rels)` |
| `GraphIndex.RecipesUpTo` | lib/recipegen.py:52-55 | every recipe in `crafting_recipes` has exactly two ingredients |
| `GraphIndex.RecipesOf` | lib/recipegen.py:52-55 | every recipe in `crafting_recipes` has two ingredients and is the ingredient list of some pair with exactly two ingredients whose result is that element |
| `GraphIndex.RecipesOrigin` | lib/recipegen.py:52-55 | after any number of pairs, every recipe so far comes from such a pair |
| `GraphIndex.RecipesDomain` | lib/recipegen.py:52-55 | an element has a recipe exactly when some pair with exactly two ingredients has a result and that result is the element |
| `GraphIndex.RecipesLastWins` | lib/recipegen.py:52-55 | the recipe is the ingredient list of the last such pair, in `pair_ingredients` order |
| `GraphIndex.IndexRecipes` | lib/recipegen.py:52-55 | the loop over `pair_ingredients` computes `RecipesOf` |
| `GraphIndex.IndexOf` | lib/recipegen.py:30-55 | the tables the tree builder reads: `elements` is well formed and every recipe has two ingredients |
| `GraphIndex.BuildIndex` | lib/recipegen.py:30-55 | the four loops together compute `IndexOf(dag)` |
| `NameLookup.Lower` | lib/recipegen.py:20 | lower-casing keeps the length, turns each of `A`..`Z` into the matching letter of `a`..`z`, and leaves every other character unchanged |
| `NameLookup.FirstMatchFrom` | lib/recipegen.py:19-22 | a key found from position `from` on lies at or after `from` and its name matches ignoring case |
| `NameLookup.FirstMatch` | lib/recipegen.py:17-22 | a found id is an element whose name matches the target ignoring case |
| `NameLookup.FirstMatchFromSpec` | lib/recipegen.py:17-22 | the lookup is `None` exactly when no name matches ignoring case; otherwise it is the key at the least matching position in dict order |
| `NameLookup.FindElementByName` | lib/recipegen.py:17-22 | the loop with its early return computes `FirstMatch` |
| `CraftTree.Ranked` | lib/recipegen.py:83-84 | the termination precondition: a ranked element that recurses has recursing ingredients of smaller rank |
| `CraftTree.RankedFrom` | lib/recipegen.py:64-93 | the rank covers the element if it recurses, so no recipe cycle is reachable from it |
| `CraftTree.TreeOf` | lib/recipegen.py:64-93 | `build_tree(x)` is `None` exactly on the two early returns (not an element; nonzero depth and no recipe); otherwise a tree with id `x`, the element's name, basic exactly at depth 0 |
| `CraftTree.Faithful` | lib/recipegen.py:72-91 | an independent definition of a correct tree: an element's id and name, basic exactly at depth 0, one slot per recipe ingredient in order, each faithful or `None` for an unresolvable ingredient |
| `CraftTree.TwoSlots` | lib/recipegen.py:53-55 | every crafted node has exactly two ingredient slots |
| `CraftTree.TreeOfFaithful` | lib/recipegen.py:68-90 | `build_tree(x)` is `None` exactly when `x` is not an element, or has nonzero depth and no recipe; otherwise it is a tree rooted at `x`, with names copied from `elements`, basic exactly at depth 0, and one slot per recipe ingredient in order |
| `CraftTree.FaithfulIsTreeOf` | lib/recipegen.py:68-90 | conversely, every such faithful tree rooted at `x` is the value of `build_tree(x)` |
| `CraftTree.FaithfulTwoSlots` | lib/recipegen.py:83-90 | with recipes of two ingredients, every non-basic node of the tree has exactly two ingredient slots |
| `CraftTree.RankAlongWalk` | lib/recipegen.py:83-84 | along a chain of nested recursive calls the rank falls by at least one per call |
| `CraftTree.RevisitNotRanked` | lib/recipegen.py:64-93 | a chain of recursive calls that revisits an element admits no rank, so termination needs an acyclic recipe relation |
| `CraftTree.BuildTree` | lib/recipegen.py:64-93 | the memoised builder returns `TreeOf(x)`; a cache hit returns the cached tree and leaves the cache unchanged; a `None` result is not cached; a built tree is cached under `x`; existing entries never change; every cache entry stays equal to `TreeOf` of its key |
| `RecipeGen.FindCraftingPath` | lib/recipegen.py:57-95 | the result is `None` exactly when no element name matches or the first match is unresolvable; otherwise it is the faithful tree of the first match, whose id is that match and whose non-basic nodes all have two slots |
| `Scenarios.SteamResolves` | lib/recipegen.py:30-93 | in the Fire + Water = Steam graph, "steam" finds Steam, whose tree has Fire and Water as basic ingredients |
| `Scenarios.LoopHasNoRank` | lib/recipegen.py:64-93 | a graph where A is one of its own ingredients admits no rank from A |

## Left out

- `load_dag` (reading and parsing the JSON file, `sys.exit` on a missing file) is not modelled: it is file I/O. The model starts from the parsed node and relationship lists.
- Wall-clock timing and the summary prints of `find_crafting_path` are not modelled, because they are clock and console output. The cache size it prints is dropped too.
- `print_crafting_tree` and `main` are not modelled: they only format console output and read `sys.argv`.
- Malformed input is not modelled. A node or relationship missing a key would raise `KeyError` in Python. The model's records always have every field: `properties.name` and `properties.depth` become fields of `Node`, and `type` becomes `Relationship.kind`.
- Ids are strings and depths are integers. JSON would allow other id types and a float depth such as `0.0`.
- `NameLookup.Lower` lowers ASCII letters only, and Python's `str.lower` also maps other Unicode letters, because Dafny has no Unicode case tables.
- Python object identity is not modelled. `crafting_recipes` shares list objects with `pair_ingredients`, and a tree returned by a cache hit (line 66) is the same object as the one already placed elsewhere in the result. The model compares values only.
- Python's recursion limit is not modelled. On a reachable recipe cycle the source raises `RecursionError`, and the model excludes that input by its rank precondition. A very deep acyclic chain would also exceed the limit in Python.
- `CraftTree.RevisitNotRanked`: proves one direction only (a revisiting chain means no rank exists). The converse, that an acyclic graph always has a rank, is not proved.
- `CraftTree.BuildTree`: does not say which new keys the cache gains beyond `x`. They are the ids of the trees built along the way.
- `RecipeGen.FindCraftingPath`: takes the rank as a ghost argument. The source needs nothing of the kind, but without a rank it can fail to terminate.
