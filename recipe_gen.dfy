/**
 * `find_crafting_path` (lib/recipegen.py, lines 25-103) without its file
 * loading, timing and printing: build the lookup tables, look the target up
 * by name, and build its crafting tree with a fresh, empty cache.
 */
module RecipeGen {
  import opened Optional
  import opened Dag
  import opened GraphIndex
  import opened NameLookup
  import opened CraftTree

  /** No recipe cycle is reachable from the element the target name finds. */
  ghost predicate Terminates(dag: DagData, target: string, rank: map<Id, nat>) {
    var idx := IndexOf(dag);
    match FirstMatch(idx.elements, target)
    case None => true
    case Some(x) => RankedFrom(idx, rank, x)
  }

  /**
   * `None` when no element name matches the target, or when the first match
   * has nonzero depth and no recipe. Otherwise the faithful crafting tree
   * of the first matching element, in which every crafted node has exactly
   * two ingredient slots.
   */
  method FindCraftingPath(dag: DagData, target: string, ghost rank: map<Id, nat>) returns (tree: Option<Tree>)
    requires Terminates(dag, target, rank)
    ensures var idx := IndexOf(dag);
            var found := FirstMatch(idx.elements, target);
            && (tree.None? <==> found.None? || Unresolvable(idx, found.value))
            && (found.Some? ==> tree == TreeOf(idx, rank, found.value))
            && (tree.Some? ==> found == Some(tree.value.id) && Faithful(idx, tree.value) && TwoSlots(tree.value))
  {
    var idx := BuildIndex(dag);
    var targetId := FindElementByName(idx.elements, target);
    if targetId.None? {
      return None;
    }
    var cache: map<Id, Tree> := map[];
    tree, cache := BuildTree(idx, targetId.value, cache, rank);
    TreeOfFaithful(idx, rank, targetId.value);
    if tree.Some? {
      FaithfulTwoSlots(idx, tree.value);
    }
  }
}
