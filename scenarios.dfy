/**
 * Two small graphs worked through the model: a two-ingredient recipe that
 * resolves, and a recipe that needs its own result, on which `build_tree`
 * would never return.
 */
module Scenarios {
  import opened Optional
  import opened Dag
  import opened OrderedDict
  import opened GraphIndex
  import opened NameLookup
  import opened CraftTree

  /** Fire and Water (depth 0) are part of pair P1, which results in Steam (depth 1). */
  function SteamDag(): (dag: DagData) {
    DagData(
      [ Node("fire", ["Element"], "Fire", 0),
        Node("water", ["Element"], "Water", 0),
        Node("p1", ["Pair"], "p1", 1),
        Node("steam", ["Element"], "Steam", 1) ],
      [ Relationship("PART_OF", "fire", "p1"),
        Relationship("PART_OF", "water", "p1"),
        Relationship("RESULTS_IN", "p1", "steam") ])
  }

  function SteamElements(): (elements: Dict<Id, ElementInfo>) {
    Dict(["fire", "water", "steam"],
         map["fire" := ElementInfo("Fire", 0), "water" := ElementInfo("Water", 0), "steam" := ElementInfo("Steam", 1)])
  }

  /** "steam" finds Steam, whose tree has Fire and Water as its basic ingredients. */
  lemma SteamResolves()
    ensures FirstMatch(IndexOf(SteamDag()).elements, "steam") == Some("steam")
    ensures RankedFrom(IndexOf(SteamDag()), map["steam" := 0], "steam")
    ensures TreeOf(IndexOf(SteamDag()), map["steam" := 0], "steam") ==
            Some(Crafted("steam", "Steam", [Some(Basic("fire", "Fire")), Some(Basic("water", "Water"))]))
  {
    SteamIndex();
    SteamLookup();
    SteamTree();
  }

  function SteamIndexValue(): (idx: Index) {
    Index(SteamElements(), map["steam" := ["fire", "water"]])
  }

  lemma SteamTree()
    ensures RankedFrom(SteamIndexValue(), map["steam" := 0], "steam")
    ensures TreeOf(SteamIndexValue(), map["steam" := 0], "steam") ==
            Some(Crafted("steam", "Steam", [Some(Basic("fire", "Fire")), Some(Basic("water", "Water"))]))
  {
    var idx := SteamIndexValue();
    var rank := map["steam" := 0];
    assert !Recurses(idx, "fire") && !Recurses(idx, "water");
    assert RankedFrom(idx, rank, "steam");
    var ings := idx.recipes["steam"];
    assert TreeOf(idx, rank, ings[0]) == Some(Basic("fire", "Fire"));
    assert TreeOf(idx, rank, ings[1]) == Some(Basic("water", "Water"));
    assert seq(|ings|, k requires 0 <= k < |ings| => TreeOf(idx, rank, ings[k])) ==
           [Some(Basic("fire", "Fire")), Some(Basic("water", "Water"))];
  }

  lemma SteamIndex()
    ensures IndexOf(SteamDag()) == SteamIndexValue()
  {
    var dag := SteamDag();
    SteamElementsOf(dag.nodes);
    PairRecipe(dag.relationships, "fire", "water", "p1", "steam");
  }

  lemma SteamElementsOf(ns: seq<Node>)
    requires ns == SteamDag().nodes
    ensures ElementsOf(ns) == SteamElements()
  {
    var n3 := ns[..3];
    assert n3 == [ns[0], ns[1], ns[2]];
    BasicElementsOf(n3[..2]);
    assert !IsElement(ns[2]);
    assert ["fire", "water"] + ["steam"] == ["fire", "water", "steam"];
  }

  lemma BasicElementsOf(ns: seq<Node>)
    requires ns == [Node("fire", ["Element"], "Fire", 0), Node("water", ["Element"], "Water", 0)]
    ensures ElementsOf(ns) ==
            Dict(["fire", "water"], map["fire" := ElementInfo("Fire", 0), "water" := ElementInfo("Water", 0)])
  {
    var n1 := ns[..1];
    assert n1 == [ns[0]] && n1[..0] == [];
    assert ElementsOf(n1) == Dict(["fire"], map["fire" := ElementInfo("Fire", 0)]);
    assert ["fire"] + ["water"] == ["fire", "water"];
  }

  lemma SteamLookup()
    ensures FirstMatch(SteamElements(), "steam") == Some("steam")
  {
    var elements := SteamElements();
    assert Lower("Fire")[0] == 'f' && Lower("Water")[0] == 'w' && Lower("steam")[0] == 's';
    assert !MatchesAt(elements, "steam", 0);
    assert !MatchesAt(elements, "steam", 1);
    assert Lower("Steam") == Lower("steam");
    assert MatchesAt(elements, "steam", 2);
    assert FirstMatchFrom(elements, "steam", 2) == Some("steam");
    assert FirstMatchFrom(elements, "steam", 1) == Some("steam");
  }

  /** The two PART_OF edges of `a` and `b` into `p`, then `p` RESULTS_IN `r`, give `r` that recipe. */
  lemma PairRecipe(rs: seq<Relationship>, a: Id, b: Id, p: Id, r: Id)
    requires rs == [Relationship("PART_OF", a, p), Relationship("PART_OF", b, p), Relationship("RESULTS_IN", p, r)]
    ensures IngredientsOf(rs) == Dict([p], map[p := [a, b]])
    ensures ResultsOf(rs) == map[p := r]
    ensures RecipesOf(IngredientsOf(rs), ResultsOf(rs)) == map[r := [a, b]]
  {
    PairIngredients(rs, a, b, p, r);
    PairResult(rs, a, b, p, r);
    OneRecipe(IngredientsOf(rs), ResultsOf(rs), a, b, p, r);
  }

  lemma PairIngredients(rs: seq<Relationship>, a: Id, b: Id, p: Id, r: Id)
    requires rs == [Relationship("PART_OF", a, p), Relationship("PART_OF", b, p), Relationship("RESULTS_IN", p, r)]
    ensures IngredientsOf(rs) == Dict([p], map[p := [a, b]])
  {
    var r2 := rs[..2];
    assert r2 == [rs[0], rs[1]];
    TwoPartOf(r2, a, b, p);
    assert !IsPartOf(rs[2]);
  }

  lemma PairResult(rs: seq<Relationship>, a: Id, b: Id, p: Id, r: Id)
    requires rs == [Relationship("PART_OF", a, p), Relationship("PART_OF", b, p), Relationship("RESULTS_IN", p, r)]
    ensures ResultsOf(rs) == map[p := r]
  {
  }

  lemma NoResults(rs: seq<Relationship>)
    requires |rs| <= 2 && forall i :: 0 <= i < |rs| ==> rs[i].kind == "PART_OF"
    ensures ResultsOf(rs) == map[]
  {
  }

  lemma OneRecipe(pi: Dict<Id, seq<Id>>, pairsToResults: map<Id, Id>, a: Id, b: Id, p: Id, r: Id)
    requires pi == Dict([p], map[p := [a, b]]) && pairsToResults == map[p := r]
    ensures RecipesOf(pi, pairsToResults) == map[r := [a, b]]
  {
  }

  lemma TwoPartOf(rs: seq<Relationship>, a: Id, b: Id, p: Id)
    requires rs == [Relationship("PART_OF", a, p), Relationship("PART_OF", b, p)]
    ensures IngredientsOf(rs) == Dict([p], map[p := [a, b]])
  {
    OnePartOf(rs[..1], a, p);
    var d1 := IngredientsOf(rs[..1]);
    assert [a] + [b] == [a, b];
    assert IngredientsOf(rs) == d1.Put(p, [a] + [b]);
  }

  lemma OnePartOf(rs: seq<Relationship>, a: Id, p: Id)
    requires rs == [Relationship("PART_OF", a, p)]
    ensures IngredientsOf(rs) == Dict([p], map[p := [a]])
  {
    assert rs[..0] == [];
    var d0: Dict<Id, seq<Id>> := Dict([], map[]);
    assert [] + [a] == [a];
    assert IngredientsOf(rs) == d0.Put(p, [] + [a]);
  }

  /** A (depth 1) and B are part of pair P1, which results in A again. */
  function LoopDag(): (dag: DagData) {
    DagData(
      [ Node("a", ["Element"], "A", 1),
        Node("b", ["Element"], "B", 0) ],
      [ Relationship("PART_OF", "a", "p1"),
        Relationship("PART_OF", "b", "p1"),
        Relationship("RESULTS_IN", "p1", "a") ])
  }

  function LoopIndexValue(): (idx: Index) {
    Index(Dict(["a", "b"], map["a" := ElementInfo("A", 1), "b" := ElementInfo("B", 0)]), map["a" := ["a", "b"]])
  }

  lemma LoopIndex()
    ensures IndexOf(LoopDag()) == LoopIndexValue()
  {
    var dag := LoopDag();
    var ns := dag.nodes;
    var n1 := ns[..1];
    assert n1 == [ns[0]] && n1[..0] == [];
    assert ElementsOf(n1) == Dict(["a"], map["a" := ElementInfo("A", 1)]);
    assert ["a"] + ["b"] == ["a", "b"];
    assert ElementsOf(ns) == LoopIndexValue().elements;
    PairRecipe(dag.relationships, "a", "b", "p1", "a");
  }

  /** No rank exists from A: resolving "A" does not terminate in the source. */
  lemma LoopHasNoRank(rank: map<Id, nat>)
    ensures !RankedFrom(IndexOf(LoopDag()), rank, "a")
  {
    LoopIndex();
    var idx := LoopIndexValue();
    assert Step(idx, "a", "a");
    RevisitNotRanked(idx, rank, ["a", "a"], 0);
  }
}
