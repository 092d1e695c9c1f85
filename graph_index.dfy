/**
 * The lookup tables that `find_crafting_path` builds from the raw graph
 * before it resolves anything (lib/recipegen.py, lines 30-55):
 *
 *   elements          element id -> {name, depth}, for nodes labelled "Element"
 *   pairs_to_results  pair id -> result id, from RESULTS_IN edges
 *   pair_ingredients  pair id -> ingredient ids, from PART_OF edges
 *   crafting_recipes  result id -> the two ingredient ids of one pair
 *
 * Each table has a specification function that folds over its input from
 * left to right, as the source's loop does, a method with that loop proved
 * equal to it, and lemmas that say what the table holds in closed form.
 */
module GraphIndex {
  import opened Dag
  import opened OrderedDict

  datatype ElementInfo = ElementInfo(name: string, depth: int)

  function InfoOf(n: Node): (info: ElementInfo) {
    ElementInfo(n.name, n.depth)
  }

  // ---------------------------------------------------------------------
  // elements

  /** The `elements` dict after the loop has seen `nodes`. */
  function ElementsOf(nodes: seq<Node>): (d: Dict<Id, ElementInfo>)
    ensures d.Valid()
  {
    if nodes == [] then Dict([], map[])
    else
      var d := ElementsOf(nodes[..|nodes| - 1]);
      var n := nodes[|nodes| - 1];
      if IsElement(n) then d.Put(n.id, InfoOf(n)) else d
  }

  /** The ids of the Element nodes, in node order, repetitions included. */
  function ElementIds(nodes: seq<Node>): (ids: seq<Id>) {
    if nodes == [] then []
    else
      var n := nodes[|nodes| - 1];
      ElementIds(nodes[..|nodes| - 1]) + (if IsElement(n) then [n.id] else [])
  }

  /** An id has an entry exactly when some node with that id is labelled "Element". */
  lemma {:induction false} ElementsOfDomain(nodes: seq<Node>, id: Id)
    ensures id in ElementsOf(nodes).entries <==>
            exists i :: 0 <= i < |nodes| && IsElement(nodes[i]) && nodes[i].id == id
  {
    if nodes != [] {
      var pre := nodes[..|nodes| - 1];
      ElementsOfDomain(pre, id);
      if id in ElementsOf(pre).entries {
        var i :| 0 <= i < |pre| && IsElement(pre[i]) && pre[i].id == id;
        assert nodes[i] == pre[i];
      }
      if exists i :: 0 <= i < |nodes| && IsElement(nodes[i]) && nodes[i].id == id {
        var i :| 0 <= i < |nodes| && IsElement(nodes[i]) && nodes[i].id == id;
        if i < |pre| {
          assert pre[i] == nodes[i];
        }
      }
    }
  }

  /**
   * The entry of an id holds the name and depth of the LAST Element node
   * with that id: a later node with the same id overwrites the entry.
   */
  lemma {:induction false} ElementsOfLastWins(nodes: seq<Node>, i: nat)
    requires i < |nodes| && IsElement(nodes[i])
    requires forall j :: i < j < |nodes| && IsElement(nodes[j]) ==> nodes[j].id != nodes[i].id
    ensures nodes[i].id in ElementsOf(nodes).entries
    ensures ElementsOf(nodes).entries[nodes[i].id] == InfoOf(nodes[i])
  {
    var pre := nodes[..|nodes| - 1];
    if i < |nodes| - 1 {
      forall j | i < j < |pre| && IsElement(pre[j])
        ensures pre[j].id != pre[i].id
      {
        assert pre[j] == nodes[j];
      }
      ElementsOfLastWins(pre, i);
    }
  }

  /**
   * The dict lists its keys in the order in which the Element ids first
   * occur among the nodes: that is the order `find_element_by_name` scans.
   */
  lemma {:induction false} ElementsOfKeys(nodes: seq<Node>)
    ensures ElementsOf(nodes).keys == FirstOccurrences(ElementIds(nodes))
  {
    if nodes != [] {
      var pre := nodes[..|nodes| - 1];
      var n := nodes[|nodes| - 1];
      ElementsOfKeys(pre);
      if IsElement(n) {
        PutKeys(ElementsOf(pre), ElementIds(pre), n.id, InfoOf(n));
      } else {
        assert ElementIds(nodes) == ElementIds(pre) + [] == ElementIds(pre);
        assert ElementsOf(nodes) == ElementsOf(pre);
      }
    }
  }

  /** The loop of lines 33-38. */
  method IndexElements(nodes: seq<Node>) returns (elements: Dict<Id, ElementInfo>)
    ensures elements == ElementsOf(nodes)
  {
    elements := Dict([], map[]);
    for i := 0 to |nodes|
      invariant elements == ElementsOf(nodes[..i])
    {
      var node := nodes[i];
      if IsElement(node) {
        elements := elements.Put(node.id, InfoOf(node));
      }
      assert nodes[..i + 1][..i] == nodes[..i];
    }
    assert nodes[..|nodes|] == nodes;
  }

  // ---------------------------------------------------------------------
  // pairs_to_results

  predicate IsResultsIn(r: Relationship) {
    r.kind == ResultsIn
  }

  /** The `pairs_to_results` dict after the loop has seen `rels`. */
  function ResultsOf(rels: seq<Relationship>): (m: map<Id, Id>)
    ensures forall p :: p in m ==>
              exists i :: 0 <= i < |rels| && IsResultsIn(rels[i]) && rels[i].start == p && rels[i].end == m[p]
  {
    if rels == [] then map[]
    else
      var m := ResultsOf(rels[..|rels| - 1]);
      var r := rels[|rels| - 1];
      if IsResultsIn(r) then m[r.start := r.end] else m
  }

  /** A pair has a result exactly when some RESULTS_IN edge starts at it; other kinds are ignored. */
  lemma {:induction false} ResultsOfDomain(rels: seq<Relationship>, p: Id)
    ensures p in ResultsOf(rels) <==>
            exists i :: 0 <= i < |rels| && IsResultsIn(rels[i]) && rels[i].start == p
  {
    if rels != [] {
      var pre := rels[..|rels| - 1];
      ResultsOfDomain(pre, p);
      if p in ResultsOf(pre) {
        var i :| 0 <= i < |pre| && IsResultsIn(pre[i]) && pre[i].start == p;
        assert rels[i] == pre[i];
      }
      if exists i :: 0 <= i < |rels| && IsResultsIn(rels[i]) && rels[i].start == p {
        var i :| 0 <= i < |rels| && IsResultsIn(rels[i]) && rels[i].start == p;
        if i < |pre| {
          assert pre[i] == rels[i];
        }
      }
    }
  }

  /** The result of a pair is the end of the LAST RESULTS_IN edge that starts at it. */
  lemma {:induction false} ResultsOfLastWins(rels: seq<Relationship>, i: nat)
    requires i < |rels| && IsResultsIn(rels[i])
    requires forall j :: i < j < |rels| && IsResultsIn(rels[j]) ==> rels[j].start != rels[i].start
    ensures rels[i].start in ResultsOf(rels)
    ensures ResultsOf(rels)[rels[i].start] == rels[i].end
  {
    var pre := rels[..|rels| - 1];
    if i < |rels| - 1 {
      forall j | i < j < |pre| && IsResultsIn(pre[j])
        ensures pre[j].start != pre[i].start
      {
        assert pre[j] == rels[j];
      }
      ResultsOfLastWins(pre, i);
    }
  }

  /** The loop of lines 40-43. */
  method IndexResults(rels: seq<Relationship>) returns (pairsToResults: map<Id, Id>)
    ensures pairsToResults == ResultsOf(rels)
  {
    pairsToResults := map[];
    for i := 0 to |rels|
      invariant pairsToResults == ResultsOf(rels[..i])
    {
      var rel := rels[i];
      if rel.kind == ResultsIn {
        pairsToResults := pairsToResults[rel.start := rel.end];
      }
      assert rels[..i + 1][..i] == rels[..i];
    }
    assert rels[..|rels|] == rels;
  }

  // ---------------------------------------------------------------------
  // pair_ingredients

  predicate IsPartOf(r: Relationship) {
    r.kind == PartOf
  }

  /** The `pair_ingredients` dict after the loop has seen `rels`. */
  function IngredientsOf(rels: seq<Relationship>): (d: Dict<Id, seq<Id>>)
    ensures d.Valid()
  {
    if rels == [] then Dict([], map[])
    else
      var d := IngredientsOf(rels[..|rels| - 1]);
      var r := rels[|rels| - 1];
      if IsPartOf(r) then
        d.Put(r.end, (if r.end in d.entries then d.entries[r.end] else []) + [r.start])
      else d
  }

  /** The starts of the PART_OF edges that end at `p`, in relationship order. */
  function PartOfStarts(rels: seq<Relationship>, p: Id): (starts: seq<Id>) {
    if rels == [] then []
    else
      var r := rels[|rels| - 1];
      PartOfStarts(rels[..|rels| - 1], p) + (if IsPartOf(r) && r.end == p then [r.start] else [])
  }

  /** The ends of all PART_OF edges, in relationship order, repetitions included. */
  function PartOfEnds(rels: seq<Relationship>): (ends: seq<Id>) {
    if rels == [] then []
    else
      var r := rels[|rels| - 1];
      PartOfEnds(rels[..|rels| - 1]) + (if IsPartOf(r) then [r.end] else [])
  }

  /**
   * A pair has an entry exactly when some PART_OF edge ends at it, and the
   * entry lists the starts of all such edges in relationship order.
   */
  lemma {:induction false} IngredientsOfEntries(rels: seq<Relationship>, p: Id)
    ensures p in IngredientsOf(rels).entries <==> PartOfStarts(rels, p) != []
    ensures p in IngredientsOf(rels).entries ==> IngredientsOf(rels).entries[p] == PartOfStarts(rels, p)
  {
    if rels != [] {
      IngredientsOfEntries(rels[..|rels| - 1], p);
    }
  }

  /** The dict lists its pairs in the order in which they first occur as the end of a PART_OF edge. */
  lemma {:induction false} IngredientsOfKeys(rels: seq<Relationship>)
    ensures IngredientsOf(rels).keys == FirstOccurrences(PartOfEnds(rels))
  {
    if rels != [] {
      var pre := rels[..|rels| - 1];
      var r := rels[|rels| - 1];
      IngredientsOfKeys(pre);
      var d := IngredientsOf(pre);
      if IsPartOf(r) {
        PutKeys(d, PartOfEnds(pre), r.end, (if r.end in d.entries then d.entries[r.end] else []) + [r.start]);
      } else {
        assert PartOfEnds(rels) == PartOfEnds(pre) + [] == PartOfEnds(pre);
        assert IngredientsOf(rels) == d;
      }
    }
  }

  /** One step of the loop of lines 45-50, as `IngredientsOf` describes it. */
  lemma IngredientsOfStep(rels: seq<Relationship>, i: nat)
    requires i < |rels|
    ensures var d := IngredientsOf(rels[..i]);
            var r := rels[i];
            IngredientsOf(rels[..i + 1]) ==
              if IsPartOf(r) then d.Put(r.end, (if r.end in d.entries then d.entries[r.end] else []) + [r.start])
              else d
  {
    assert rels[..i + 1][..i] == rels[..i];
  }

  /** The loop of lines 45-50: create an empty list for a new pair, then append. */
  method IndexIngredients(rels: seq<Relationship>) returns (pairIngredients: Dict<Id, seq<Id>>)
    ensures pairIngredients == IngredientsOf(rels)
  {
    pairIngredients := Dict([], map[]);
    for i := 0 to |rels|
      invariant pairIngredients == IngredientsOf(rels[..i])
    {
      IngredientsOfStep(rels, i);
      var rel := rels[i];
      if rel.kind == PartOf {
        if rel.end !in pairIngredients.entries {
          PutTwice(pairIngredients, rel.end, [], [] + [rel.start]);
          pairIngredients := pairIngredients.Put(rel.end, []);
        }
        pairIngredients := pairIngredients.Put(rel.end, pairIngredients.entries[rel.end] + [rel.start]);
      }
    }
    assert rels[..|rels|] == rels;
  }

  // ---------------------------------------------------------------------
  // crafting_recipes

  /** A pair yields a recipe when it has exactly two ingredients and a result. */
  predicate Qualifies(pi: Dict<Id, seq<Id>>, pairsToResults: map<Id, Id>, p: Id) {
    p in pi.entries && |pi.entries[p]| == 2 && p in pairsToResults
  }

  /** The `crafting_recipes` dict after the loop has seen the first `n` pairs, in dict order. */
  function RecipesUpTo(pi: Dict<Id, seq<Id>>, pairsToResults: map<Id, Id>, n: nat): (m: map<Id, seq<Id>>)
    requires pi.Valid() && n <= |pi.keys|
    ensures forall r :: r in m ==> |m[r]| == 2
  {
    if n == 0 then map[]
    else
      var m := RecipesUpTo(pi, pairsToResults, n - 1);
      var p := pi.keys[n - 1];
      if Qualifies(pi, pairsToResults, p) then m[pairsToResults[p] := pi.entries[p]] else m
  }

  /** Some qualifying pair results in `r` and has `ings` as its ingredients. */
  ghost predicate FromPair(pi: Dict<Id, seq<Id>>, pairsToResults: map<Id, Id>, r: Id, ings: seq<Id>) {
    exists p :: p in pi.entries && Qualifies(pi, pairsToResults, p) && pairsToResults[p] == r && pi.entries[p] == ings
  }

  /**
   * The `crafting_recipes` dict: every recipe is the two-ingredient list of
   * some qualifying pair that results in the element.
   */
  function RecipesOf(pi: Dict<Id, seq<Id>>, pairsToResults: map<Id, Id>): (m: map<Id, seq<Id>>)
    requires pi.Valid()
    ensures forall r :: r in m ==> |m[r]| == 2 && FromPair(pi, pairsToResults, r, m[r])
  {
    RecipesOrigin(pi, pairsToResults, |pi.keys|);
    RecipesUpTo(pi, pairsToResults, |pi.keys|)
  }

  /** Every recipe among the first `n` pairs comes from a qualifying pair that results in its element. */
  lemma {:induction false} RecipesOrigin(pi: Dict<Id, seq<Id>>, pairsToResults: map<Id, Id>, n: nat)
    requires pi.Valid() && n <= |pi.keys|
    ensures forall r :: r in RecipesUpTo(pi, pairsToResults, n) ==>
              FromPair(pi, pairsToResults, r, RecipesUpTo(pi, pairsToResults, n)[r])
  {
    if n > 0 {
      RecipesOrigin(pi, pairsToResults, n - 1);
      var pre := RecipesUpTo(pi, pairsToResults, n - 1);
      var q := pi.keys[n - 1];
      var m := RecipesUpTo(pi, pairsToResults, n);
      forall r | r in m
        ensures FromPair(pi, pairsToResults, r, m[r])
      {
        if Qualifies(pi, pairsToResults, q) && r == pairsToResults[q] {
          assert m[r] == pi.entries[q];
        } else {
          assert r in pre && m[r] == pre[r];
        }
      }
    }
  }

  /** An element has a recipe exactly when some qualifying pair among the first `n` results in it. */
  lemma {:induction false} RecipesDomain(pi: Dict<Id, seq<Id>>, pairsToResults: map<Id, Id>, n: nat, r: Id)
    requires pi.Valid() && n <= |pi.keys|
    ensures r in RecipesUpTo(pi, pairsToResults, n) <==>
            exists k :: 0 <= k < n && Qualifies(pi, pairsToResults, pi.keys[k]) && pairsToResults[pi.keys[k]] == r
  {
    if n > 0 {
      RecipesDomain(pi, pairsToResults, n - 1, r);
    }
  }

  /**
   * The recipe of an element is the ingredient list of the LAST qualifying
   * pair, in dict order, that results in it.
   */
  lemma {:induction false} RecipesLastWins(pi: Dict<Id, seq<Id>>, pairsToResults: map<Id, Id>, n: nat, k: nat)
    requires pi.Valid() && k < n <= |pi.keys|
    requires Qualifies(pi, pairsToResults, pi.keys[k])
    requires forall k' :: k < k' < n && Qualifies(pi, pairsToResults, pi.keys[k']) ==>
               pairsToResults[pi.keys[k']] != pairsToResults[pi.keys[k]]
    ensures pairsToResults[pi.keys[k]] in RecipesUpTo(pi, pairsToResults, n)
    ensures RecipesUpTo(pi, pairsToResults, n)[pairsToResults[pi.keys[k]]] == pi.entries[pi.keys[k]]
  {
    if k < n - 1 {
      RecipesLastWins(pi, pairsToResults, n - 1, k);
    }
  }

  /** The loop of lines 52-55. */
  method IndexRecipes(pairIngredients: Dict<Id, seq<Id>>, pairsToResults: map<Id, Id>)
    returns (craftingRecipes: map<Id, seq<Id>>)
    requires pairIngredients.Valid()
    ensures craftingRecipes == RecipesOf(pairIngredients, pairsToResults)
  {
    craftingRecipes := map[];
    for i := 0 to |pairIngredients.keys|
      invariant craftingRecipes == RecipesUpTo(pairIngredients, pairsToResults, i)
    {
      var pairId := pairIngredients.keys[i];
      var ingredients := pairIngredients.entries[pairId];
      if |ingredients| == 2 && pairId in pairsToResults {
        craftingRecipes := craftingRecipes[pairsToResults[pairId] := ingredients];
      }
    }
  }

  // ---------------------------------------------------------------------
  // the two tables the tree builder reads

  datatype Index = Index(elements: Dict<Id, ElementInfo>, recipes: map<Id, seq<Id>>)

  /** Every recipe has exactly two ingredients. */
  ghost predicate RecipesArePairs(idx: Index) {
    forall r :: r in idx.recipes ==> |idx.recipes[r]| == 2
  }

  function IndexOf(dag: DagData): (idx: Index)
    ensures idx.elements.Valid()
    ensures RecipesArePairs(idx)
  {
    var pi := IngredientsOf(dag.relationships);
    Index(ElementsOf(dag.nodes), RecipesOf(pi, ResultsOf(dag.relationships)))
  }

  /** Lines 30-55 of `find_crafting_path`. */
  method BuildIndex(dag: DagData) returns (idx: Index)
    ensures idx == IndexOf(dag)
  {
    var elements := IndexElements(dag.nodes);
    var pairsToResults := IndexResults(dag.relationships);
    var pairIngredients := IndexIngredients(dag.relationships);
    var craftingRecipes := IndexRecipes(pairIngredients, pairsToResults);
    idx := Index(elements, craftingRecipes);
  }
}
