/**
 * The raw crafting graph as it is read from the JSON file: a list of nodes
 * and a list of relationships. A "pair" is a node that groups two
 * ingredients: each ingredient has a PART_OF edge to the pair, and the pair
 * has a RESULTS_IN edge to the element the two ingredients make.
 */
module Dag {
  type Id = string

  /** A node; `name` and `depth` are the entries of its `properties` object. */
  datatype Node = Node(id: Id, labels: seq<string>, name: string, depth: int)

  /** A relationship; `kind` is its `type` field. */
  datatype Relationship = Relationship(kind: string, start: Id, end: Id)

  datatype DagData = DagData(nodes: seq<Node>, relationships: seq<Relationship>)

  const ElementLabel: string := "Element"
  const ResultsIn: string := "RESULTS_IN"
  const PartOf: string := "PART_OF"

  predicate IsElement(n: Node) {
    ElementLabel in n.labels
  }
}
