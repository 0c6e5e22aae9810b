/** The tree read as a finite map: lookup, well-formedness, and the list of its leaves. */
module RadixTree {
  import opened Basics
  import opened RadixKeys
  import opened RadixEdges

  /** What lookup computes below `n` for the part of the key that is left. */
  function Find<V>(n: Node<V>, query: Key): Option<V>
    decreases n
  {
    if query == [] then (if n.leaf.Some? then Some(n.leaf.value.val) else None)
    else if !HasEdge(n.edges, query[0]) then None
    else
      var child := n.edges[Position(n.edges, query[0])].node;
      if child.prefix <= query then Find(child, query[|child.prefix|..]) else None
  }

  /** An edge is labelled with the first byte of its non-empty prefix. */
  predicate EdgeOk<V>(e: Edge<V>) {
    e.node.prefix != [] && e.node.prefix[0] == e.bits
  }

  /** Leaves carry the key spelled by the prefixes on their path, and edges are sorted. */
  ghost predicate WellFormed<V>(n: Node<V>, path: Key)
    decreases n
  {
    && (n.leaf.Some? ==> n.leaf.value.key == path)
    && Sorted(n.edges)
    && forall i :: 0 <= i < |n.edges| ==>
         EdgeOk(n.edges[i]) && WellFormed(n.edges[i].node, path + n.edges[i].node.prefix)
  }

  /** The edges of a well-formed node on their own. */
  ghost predicate EdgesOk<V>(es: seq<Edge<V>>, path: Key) {
    && Sorted(es)
    && forall i :: 0 <= i < |es| ==> EdgeOk(es[i]) && WellFormed(es[i].node, path + es[i].node.prefix)
  }

  // ---------------------------------------------------------------- leaves in walk order

  function Own<V>(leaf: Option<Leaf<V>>): seq<Leaf<V>> {
    if leaf.Some? then [leaf.value] else []
  }

  /** The leaves in the order preorderWalk visits them. */
  function Leaves<V>(n: Node<V>): seq<Leaf<V>>
    decreases n, 1
  {
    Own(n.leaf) + EdgeLeaves(n.edges)
  }

  function EdgeLeaves<V>(es: seq<Edge<V>>): seq<Leaf<V>>
    decreases es, 0
  {
    if es == [] then [] else LeavesBehind(es[0]) + EdgeLeaves(es[1..])
  }

  function LeavesBehind<V>(e: Edge<V>): seq<Leaf<V>>
    decreases e, 2
  {
    Leaves(e.node)
  }

  ghost predicate Increasing<V>(ls: seq<Leaf<V>>) {
    forall i, j :: 0 <= i < j < |ls| ==> Less(ls[i].key, ls[j].key)
  }

  lemma {:induction false} EdgeLeavesSplit<V>(a: seq<Edge<V>>, b: seq<Edge<V>>)
    ensures EdgeLeaves(a + b) == EdgeLeaves(a) + EdgeLeaves(b)
    decreases |a|
  {
    if a == [] {
      assert a + b == b;
    } else {
      assert (a + b)[1..] == a[1..] + b;
      EdgeLeavesSplit(a[1..], b);
    }
  }

  /** Every leaf below a node has the node's path as a prefix of its key. */
  lemma {:induction false} LeavesUnderPath<V>(n: Node<V>, path: Key, l: Leaf<V>)
    requires WellFormed(n, path) && l in Leaves(n)
    ensures path <= l.key
    decreases n, 1
  {
    if l in EdgeLeaves(n.edges) {
      var i := EdgeOfLeaf(n.edges, l);
      LeavesUnderPath(n.edges[i].node, path + n.edges[i].node.prefix, l);
    }
  }

  lemma {:induction false} EdgeOfLeaf<V>(es: seq<Edge<V>>, l: Leaf<V>) returns (i: nat)
    requires l in EdgeLeaves(es)
    ensures i < |es| && l in Leaves(es[i].node)
    decreases |es|
  {
    if l in Leaves(es[0].node) { i := 0; }
    else {
      var j := EdgeOfLeaf(es[1..], l);
      i := j + 1;
    }
  }

  lemma {:induction false} LeafOfEdge<V>(es: seq<Edge<V>>, i: nat, l: Leaf<V>)
    requires i < |es| && l in Leaves(es[i].node)
    ensures l in EdgeLeaves(es)
    decreases |es|
  {
    if i > 0 { LeafOfEdge(es[1..], i - 1, l); }
  }

  // ---------------------------------------------------------------- lookup and leaves agree

  /** Lookup finds exactly the leaves of the tree. */
  lemma {:induction false} FindMeansLeaf<V>(n: Node<V>, path: Key, query: Key, v: V)
    requires WellFormed(n, path)
    ensures Find(n, query) == Some(v) <==> Leaf(path + query, v) in Leaves(n)
    decreases n
  {
    var l := Leaf(path + query, v);
    if query == [] {
      assert path + query == path;
      if l in EdgeLeaves(n.edges) {
        var i := EdgeOfLeaf(n.edges, l);
        LeavesUnderPath(n.edges[i].node, path + n.edges[i].node.prefix, l);
      }
    } else {
      if l in Leaves(n) {
        assert |l.key| > |path|;
        assert l in EdgeLeaves(n.edges);
        var i := EdgeOfLeaf(n.edges, l);
        var child := n.edges[i].node;
        LeavesUnderPath(child, path + child.prefix, l);
        assert query[0] == (path + query)[|path|] == (path + child.prefix)[|path|] == child.prefix[0];
      }
      if HasEdge(n.edges, query[0]) {
        var i := Position(n.edges, query[0]);
        FindInChild(n, path, query, v, i);
        if l in Leaves(n.edges[i].node) { LeafOfEdge(n.edges, i, l); }
      }
    }
  }

  lemma {:induction false} FindInChild<V>(n: Node<V>, path: Key, query: Key, v: V, i: nat)
    requires WellFormed(n, path) && query != []
    requires i < |n.edges| && n.edges[i].bits == query[0]
    ensures Find(n, query) == Some(v) <==> Leaf(path + query, v) in Leaves(n.edges[i].node)
    decreases n, 0
  {
    var child := n.edges[i].node;
    var l := Leaf(path + query, v);
    if l in Leaves(child) {
      LeavesUnderPath(child, path + child.prefix, l);
      PrefixCancel(path, child.prefix, query);
    }
    if child.prefix <= query {
      var rest := query[|child.prefix|..];
      assert query == child.prefix + rest;
      assert path + query == path + child.prefix + rest;
      FindMeansLeaf(child, path + child.prefix, rest, v);
    }
  }
}
