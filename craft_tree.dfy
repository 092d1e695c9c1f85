/**
 * The nested `build_tree` of `find_crafting_path` (lib/recipegen.py,
 * lines 61-93). It turns an element id into a nested record
 * `{id, name, is_basic, ingredients?}` and memoises every tree it builds in
 * the dict `cache`, which it writes only after the ingredients are built.
 *
 * `build_tree` has no cycle guard (the `visited` set of line 62 is never
 * used), so it terminates only when no recipe cycle is reachable from the
 * element. The model makes that a precondition: a ghost `rank` that
 * strictly decreases from an element to each ingredient it recurses into.
 */
module CraftTree {
  import opened Optional
  import opened Dag
  import opened GraphIndex

  /**
   * A crafting tree. `Basic` is a record with `is_basic: True` and no
   * `ingredients` key; `Crafted` has `is_basic: False` and the list of
   * ingredient trees, where `None` stands for an ingredient that could not
   * be resolved.
   */
  datatype Tree =
    | Basic(id: Id, name: string)
    | Crafted(id: Id, name: string, ingredients: seq<Option<Tree>>)

  /** `build_tree(x)` calls itself on the ingredients of `x`. */
  predicate Recurses(idx: Index, x: Id) {
    && x in idx.elements.entries
    && idx.elements.entries[x].depth != 0
    && x in idx.recipes
  }

  /** `build_tree(x)` returns `None` without a recursive call. */
  predicate Unresolvable(idx: Index, x: Id) {
    x !in idx.elements.entries || (idx.elements.entries[x].depth != 0 && x !in idx.recipes)
  }

  /**
   * Every ranked element that recurses has ranked recursing ingredients of
   * smaller rank.
   */
  ghost predicate Ranked(idx: Index, rank: map<Id, nat>) {
    forall x, k :: x in rank && Recurses(idx, x) && 0 <= k < |idx.recipes[x]| && Recurses(idx, idx.recipes[x][k]) ==>
      idx.recipes[x][k] in rank && rank[idx.recipes[x][k]] < rank[x]
  }

  /** No recipe cycle is reachable from `x`. */
  ghost predicate RankedFrom(idx: Index, rank: map<Id, nat>, x: Id) {
    Ranked(idx, rank) && (Recurses(idx, x) ==> x in rank)
  }

  ghost function Measure(idx: Index, rank: map<Id, nat>, x: Id): (m: nat) {
    if Recurses(idx, x) && x in rank then rank[x] + 1 else 0
  }

  /** The value `build_tree(x)` returns, the cache aside. */
  ghost function TreeOf(idx: Index, rank: map<Id, nat>, x: Id): (r: Option<Tree>)
    requires RankedFrom(idx, rank, x)
    ensures r.None? <==> Unresolvable(idx, x)
    ensures r.Some? ==>
              && r.value.id == x
              && r.value.name == idx.elements.entries[x].name
              && (r.value.Basic? <==> idx.elements.entries[x].depth == 0)
    decreases Measure(idx, rank, x)
  {
    if x !in idx.elements.entries then None
    else if idx.elements.entries[x].depth == 0 then Some(Basic(x, idx.elements.entries[x].name))
    else if x !in idx.recipes then None
    else
      var ings := idx.recipes[x];
      Some(Crafted(x, idx.elements.entries[x].name,
                   seq(|ings|, k requires 0 <= k < |ings| => TreeOf(idx, rank, ings[k]))))
  }

  // ---------------------------------------------------------------------
  // what a tree says about the index

  /**
   * `t` unfolds the index faithfully: its id is an element whose name it
   * carries, it is basic exactly when the element has depth 0, and a crafted
   * node has one slot per ingredient of the element's recipe, in order, each
   * holding a faithful tree of that ingredient or `None` when the
   * ingredient cannot be resolved.
   */
  ghost predicate Faithful(idx: Index, t: Tree)
    decreases t
  {
    && t.id in idx.elements.entries
    && t.name == idx.elements.entries[t.id].name
    && (t.Basic? <==> idx.elements.entries[t.id].depth == 0)
    && (t.Crafted? ==>
          && t.id in idx.recipes
          && |t.ingredients| == |idx.recipes[t.id]|
          && forall k :: 0 <= k < |t.ingredients| ==>
               match t.ingredients[k]
               case None => Unresolvable(idx, idx.recipes[t.id][k])
               case Some(c) => c.id == idx.recipes[t.id][k] && Faithful(idx, c))
  }

  /** Every crafted node of `t` has exactly two ingredient slots. */
  ghost predicate TwoSlots(t: Tree)
    decreases t
  {
    t.Crafted? ==>
      && |t.ingredients| == 2
      && forall k :: 0 <= k < 2 ==>
           match t.ingredients[k]
           case None => true
           case Some(c) => TwoSlots(c)
  }

  /**
   * `build_tree(x)` is `None` exactly when `x` is not an element, or has
   * nonzero depth and no recipe; otherwise it is a faithful tree rooted at `x`.
   */
  lemma {:induction false} TreeOfFaithful(idx: Index, rank: map<Id, nat>, x: Id)
    requires RankedFrom(idx, rank, x)
    ensures TreeOf(idx, rank, x).None? <==> Unresolvable(idx, x)
    ensures TreeOf(idx, rank, x).Some? ==>
              TreeOf(idx, rank, x).value.id == x && Faithful(idx, TreeOf(idx, rank, x).value)
    decreases Measure(idx, rank, x)
  {
    if Recurses(idx, x) {
      var ings := idx.recipes[x];
      forall k | 0 <= k < |ings| {
        TreeOfFaithful(idx, rank, ings[k]);
      }
    }
  }

  /** Conversely, a faithful tree rooted at `x` is the tree `build_tree(x)` returns. */
  lemma {:induction false} FaithfulIsTreeOf(idx: Index, rank: map<Id, nat>, t: Tree)
    requires RankedFrom(idx, rank, t.id) && Faithful(idx, t)
    ensures TreeOf(idx, rank, t.id) == Some(t)
    decreases t
  {
    if t.Crafted? {
      var ings := idx.recipes[t.id];
      forall k | 0 <= k < |ings|
        ensures t.ingredients[k] == TreeOf(idx, rank, ings[k])
      {
        match t.ingredients[k]
        case None =>
        case Some(c) =>
          FaithfulIsTreeOf(idx, rank, c);
      }
      assert t.ingredients == seq(|ings|, k requires 0 <= k < |ings| => TreeOf(idx, rank, ings[k]));
    }
  }

  /** When every recipe has two ingredients, every crafted node has two slots. */
  lemma {:induction false} FaithfulTwoSlots(idx: Index, t: Tree)
    requires RecipesArePairs(idx) && Faithful(idx, t)
    ensures TwoSlots(t)
    decreases t
  {
    if t.Crafted? {
      forall k | 0 <= k < 2
        ensures match t.ingredients[k] case None => true case Some(c) => TwoSlots(c)
      {
        match t.ingredients[k]
        case None =>
        case Some(c) =>
          FaithfulTwoSlots(idx, c);
      }
    }
  }

  // ---------------------------------------------------------------------
  // recipe cycles

  /** `build_tree(a)` calls `build_tree(b)` and `b` recurses further. */
  predicate Step(idx: Index, a: Id, b: Id) {
    Recurses(idx, a) && Recurses(idx, b) && b in idx.recipes[a]
  }

  /** A chain of nested recursive calls of `build_tree`. */
  predicate IsWalk(idx: Index, walk: seq<Id>) {
    && |walk| > 0
    && Recurses(idx, walk[0])
    && forall k :: 0 < k < |walk| ==> Step(idx, walk[k - 1], walk[k])
  }

  lemma {:induction false} RankAlongWalk(idx: Index, rank: map<Id, nat>, walk: seq<Id>, i: nat)
    requires IsWalk(idx, walk) && RankedFrom(idx, rank, walk[0]) && i < |walk|
    ensures walk[i] in rank && rank[walk[i]] + i <= rank[walk[0]]
  {
    if i > 0 {
      RankAlongWalk(idx, rank, walk, i - 1);
      var a, b := walk[i - 1], walk[i];
      assert Step(idx, a, b);
      var k :| 0 <= k < |idx.recipes[a]| && idx.recipes[a][k] == b;
    }
  }

  /**
   * A chain of recursive calls that comes back to an element it has already
   * visited admits no rank: on a recipe cycle `build_tree` never returns.
   */
  lemma {:induction false} RevisitNotRanked(idx: Index, rank: map<Id, nat>, walk: seq<Id>, j: nat)
    requires IsWalk(idx, walk) && j < |walk| - 1 && walk[j] == walk[|walk| - 1]
    ensures !RankedFrom(idx, rank, walk[0])
  {
    if RankedFrom(idx, rank, walk[0]) {
      RankAlongWalk(idx, rank, walk, j);
      var tail := walk[j..];
      assert IsWalk(idx, tail) by {
        if j > 0 {
          assert Step(idx, walk[j - 1], walk[j]);
        }
        forall k | 0 < k < |tail|
          ensures Step(idx, tail[k - 1], tail[k])
        {
          assert tail[k - 1] == walk[j + k - 1] && tail[k] == walk[j + k];
        }
      }
      RankAlongWalk(idx, rank, tail, |tail| - 1);
      assert false;
    }
  }

  // ---------------------------------------------------------------------
  // the memoising builder

  /** Every cached tree is the tree `build_tree` returns for its key. */
  ghost predicate CacheOk(idx: Index, rank: map<Id, nat>, cache: map<Id, Tree>) {
    && Ranked(idx, rank)
    && forall y :: y in cache ==> RankedFrom(idx, rank, y) && TreeOf(idx, rank, y) == Some(cache[y])
  }

  /**
   * Lines 64-93. A cache hit returns the cached tree and leaves the cache
   * alone; a `None` result is not cached; every tree built is cached under
   * its id, after its ingredients; entries already cached never change.
   */
  method BuildTree(idx: Index, x: Id, cache: map<Id, Tree>, ghost rank: map<Id, nat>)
    returns (t: Option<Tree>, cache': map<Id, Tree>)
    requires RankedFrom(idx, rank, x) && CacheOk(idx, rank, cache)
    ensures t == TreeOf(idx, rank, x)
    ensures CacheOk(idx, rank, cache')
    ensures x in cache ==> t == Some(cache[x]) && cache' == cache
    ensures t.None? ==> cache' == cache
    ensures t.Some? ==> x in cache' && cache'[x] == t.value
    ensures forall y :: y in cache ==> y in cache' && cache'[y] == cache[y]
    decreases Measure(idx, rank, x)
  {
    if x in cache {
      return Some(cache[x]), cache;
    }
    if x !in idx.elements.entries {
      return None, cache;
    }
    var info := idx.elements.entries[x];
    if info.depth == 0 {
      var tree := Basic(x, info.name);
      return Some(tree), cache[x := tree];
    }
    if x !in idx.recipes {
      return None, cache;
    }
    var ingredientIds := idx.recipes[x];
    var ingredientTrees: seq<Option<Tree>> := [];
    cache' := cache;
    for i := 0 to |ingredientIds|
      invariant |ingredientTrees| == i
      invariant forall k :: 0 <= k < i ==> ingredientTrees[k] == TreeOf(idx, rank, ingredientIds[k])
      invariant CacheOk(idx, rank, cache')
      invariant forall y :: y in cache ==> y in cache' && cache'[y] == cache[y]
    {
      var sub;
      sub, cache' := BuildTree(idx, ingredientIds[i], cache', rank);
      ingredientTrees := ingredientTrees + [sub];
    }
    assert ingredientTrees ==
           seq(|ingredientIds|, k requires 0 <= k < |ingredientIds| => TreeOf(idx, rank, ingredientIds[k]));
    var tree := Crafted(x, info.name, ingredientTrees);
    t, cache' := Some(tree), cache'[x := tree];
  }
}
