/** The document tree the selector engine walks.

    The engine only reads links, so a tree is a value here; a node is its identity.
    What the engine writes (the objects behind `elem[expando]`) lives in `Engine`. */
module Dom {
  import opened Options

  type Node = nat

  /** `index` and `depth` are fixed by `children`: where a node stands among its
      parent's childNodes, and how far it is from the top. A missing key of
      `parent` is a null parentNode; a node not in `elements` is a text, comment,
      document or fragment node. */
  datatype Tree = Tree(
    children: map<Node, seq<Node>>,
    parent: map<Node, Node>,
    index: map<Node, nat>,
    depth: map<Node, nat>,
    bound: nat,
    elements: set<Node>,
    labels: map<Node, set<string>>,
    names: map<Node, string>)
  {
    ghost predicate Valid() {
      && (forall n, i | n in children && 0 <= i < |children[n]| :: Linked(n, i))
      && (forall c | c in parent :: Attached(c))
      && (forall n | n in children :: n in depth && depth[n] <= bound && n in labels && n in names)
      && elements <= children.Keys
    }

    /** The i-th child of n points back to n. */
    ghost predicate Linked(n: Node, i: nat)
      requires n in children && i < |children[n]|
    {
      var c := children[n][i];
      c in parent && parent[c] == n && c in index && index[c] == i
    }

    /** c is listed by its parent, which is an element or has no parent itself. */
    ghost predicate Attached(c: Node)
      requires c in parent
    {
      && var p := parent[c];
      && c in children && p in children && c in index && c in depth && p in depth
      && depth[c] == depth[p] + 1
      && index[c] < |children[p]| && children[p][index[c]] == c
      && (p in elements || p !in parent)
    }

    function ParentNode(n: Node): Option<Node> {
      if n in parent then Some(parent[n]) else None
    }

    /** The sibling `offset` places after n, if there is one. */
    function Sibling(n: Node, offset: int): Option<Node> {
      if n in parent && n in index && parent[n] in children && 0 <= index[n] + offset < |children[parent[n]]|
      then Some(children[parent[n]][index[n] + offset])
      else None
    }

    function PreviousSibling(n: Node): Option<Node> { Sibling(n, -1) }

    function NextSibling(n: Node): Option<Node> { Sibling(n, 1) }
  }

  /** b lies somewhere below a. */
  ghost predicate Ancestor(t: Tree, a: Node, b: Node)
    requires t.Valid()
    decreases if b in t.depth then t.depth[b] else 0
  {
    b in t.parent && (t.parent[b] == a || Ancestor(t, a, t.parent[b]))
  }
}
