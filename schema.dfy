/**
 * Schema nodes. A node is a JSON object with `type`, optional `required`,
 * `format`, `properties` (an object of child nodes) and `items` (one child
 * node). `properties` keeps its keys in `Object.keys` order.
 */
module Schema {
  import opened Wrappers

  datatype Node = Node(
    typeName: string,            // `type`
    required: bool,              // `required`; absent reads as false
    format: Option<string>,      // `format`
    properties: Props,           // `properties`
    items: Option<Node>)         // `items`

  /** A node's `properties`: missing, or its entries in `Object.keys` order. */
  datatype Props = Missing | Declared(entries: seq<(string, Node)>)

  /** The keys of an object of schema nodes. */
  function Names(entries: seq<(string, Node)>): (names: set<string>)
    ensures forall i | 0 <= i < |entries| :: entries[i].0 in names
    ensures forall name | name in names :: exists i | 0 <= i < |entries| :: entries[i].0 == name
  {
    set i | 0 <= i < |entries| :: entries[i].0
  }

  /** The number of nodes in a schema: the measure the walk decreases. The
      one-key `{index: items}` schema an array element is walked under is not
      a part of the array's node, but it is smaller. */
  function NodeSize(n: Node): nat
  {
    1 + PropsSize(n.properties) + (if n.items.Some? then NodeSize(n.items.value) else 0)
  }

  function PropsSize(ps: Props): nat
  {
    if ps.Missing? then 0 else SizeFrom(ps, 0)
  }

  /** The size of the entries from the `i`-th on. */
  function SizeFrom(ps: Props, i: nat): (r: nat)
    requires ps.Declared? && i <= |ps.entries|
    ensures forall j | i <= j < |ps.entries| :: NodeSize(ps.entries[j].1) <= r
    ensures i < |ps.entries| ==> r > SizeFrom(ps, i + 1)
    decreases ps, |ps.entries| - i
  {
    if i == |ps.entries| then 0 else NodeSize(ps.entries[i].1) + SizeFrom(ps, i + 1)
  }

  /** The schema an array element is walked under is smaller than the array's node. */
  lemma ElementSchemaSmaller(arrayNode: Node, key: string)
    requires arrayNode.items.Some?
    ensures PropsSize(Declared([(key, arrayNode.items.value)])) < NodeSize(arrayNode)
  {
    var w := Declared([(key, arrayNode.items.value)]);
    assert SizeFrom(w, 1) == 0;
  }

  /** A one-key schema object declares exactly its one name. */
  lemma SingleName(key: string, node: Node)
    ensures Names([(key, node)]) == {key}
  {
    assert [(key, node)][0].0 == key;
    forall x | x in Names([(key, node)]) ensures x == key {
      var i :| 0 <= i < 1 && [(key, node)][i].0 == x;
    }
  }
}
