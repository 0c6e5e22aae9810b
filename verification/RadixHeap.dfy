/**
 * The nodes of the tree as linked objects. Each node carries the value it stands for and the
 * objects it is made of, so that every update in place can be read as a function on values.
 */
module RadixHeap {
  import opened Basics
  import opened RadixKeys
  import opened RadixEdges
  import opened RadixTree
  import opened RadixUpdate
  import opened RadixRemove

  datatype Link<V> = Link(bits: byte, node: TreeNode<V>)

  ghost function Nodes<V>(es: seq<Link<V>>): set<object> {
    set i | 0 <= i < |es| :: es[i].node
  }

  /** The objects the subtrees behind the links are made of. */
  ghost function Footprint<V>(es: seq<Link<V>>): set<object>
    reads Nodes(es)
  {
    set i, o | 0 <= i < |es| && o in es[i].node.repr :: o
  }

  /** Subtrees that are trees themselves and share nothing. */
  ghost predicate Linked<V>(es: seq<Link<V>>)
    reads Nodes(es), Footprint(es)
    decreases Footprint(es), 1
  {
    && (forall i :: 0 <= i < |es| ==> es[i].node.Valid())
    && (forall i, j :: 0 <= i < j < |es| ==> es[i].node.repr !! es[j].node.repr)
  }

  /** Links to the values they stand for. */
  ghost predicate StandFor<V>(es: seq<Link<V>>, vs: seq<Edge<V>>)
    reads Nodes(es)
  {
    |vs| == |es| && forall i :: 0 <= i < |es| ==> vs[i] == Edge(es[i].bits, es[i].node.tree)
  }

  lemma {:induction false} OneMoreLink<V>(es: seq<Link<V>>, vs: seq<Edge<V>>, i: nat, link: Link<V>)
    requires Linked(es) && StandFor(es, vs) && i <= |es|
    requires link.node.Valid() && Footprint(es) !! link.node.repr
    ensures
      var es' := es[..i] + [link] + es[i..];
      && Linked(es') && StandFor(es', vs[..i] + [Edge(link.bits, link.node.tree)] + vs[i..])
      && Footprint(es') == Footprint(es) + link.node.repr
  {
    var es' := es[..i] + [link] + es[i..];
    forall o ensures o in Footprint(es') <==> o in Footprint(es) + link.node.repr {
      assert es'[i] == link;
      if k :| 0 <= k < |es| && o in es[k].node.repr { assert es[k] == es'[if k < i then k else k + 1]; }
    }
  }

  lemma {:induction false} OneLinkLess<V>(es: seq<Link<V>>, vs: seq<Edge<V>>, i: nat)
    requires Linked(es) && StandFor(es, vs) && i < |es|
    ensures
      var es' := es[..i] + es[i + 1..];
      Linked(es') && StandFor(es', vs[..i] + vs[i + 1..]) && Footprint(es') <= Footprint(es)
  {
    var es' := es[..i] + es[i + 1..];
    assert forall k :: 0 <= k < |es'| ==> es'[k] == es[if k < i then k else k + 1];
  }

  lemma {:induction false} OtherLink<V>(es: seq<Link<V>>, vs: seq<Edge<V>>, i: nat, link: Link<V>)
    requires Linked(es) && StandFor(es, vs) && i < |es|
    requires link.node.Valid() && Footprint(es) !! link.node.repr
    ensures
      var es' := es[i := link];
      && Linked(es') && StandFor(es', vs[i := Edge(link.bits, link.node.tree)])
      && Footprint(es') <= Footprint(es) - es[i].node.repr + link.node.repr
  {
  }

  class TreeNode<V> {
    var leaf: Option<Leaf<V>>
    var prefix: Key
    var edges: seq<Link<V>>

    ghost var tree: Node<V>
    ghost var repr: set<object>

    /** The objects are a tree, without sharing, and stand for the value `tree`. */
    ghost predicate Valid()
      reads this, repr
      decreases repr, 0
    {
      && this in repr && Nodes(edges) <= repr && Footprint(edges) <= repr - {this} && Linked(edges)
      && tree.leaf == leaf && tree.prefix == prefix && StandFor(edges, tree.edges)
    }

    lemma {:induction false} Parts()
      requires Valid()
      ensures Linked(edges) && this !in Footprint(edges) && Footprint(edges) <= repr
      ensures StandFor(edges, tree.edges)
    {
    }

    lemma {:induction false} ChildInside(i: nat)
      requires Valid() && i < |edges|
      ensures edges[i].node.Valid() && edges[i].node.repr <= repr - {this} && i < |tree.edges|
      ensures tree.edges[i] == Edge(edges[i].bits, edges[i].node.tree)
      ensures edges[i].node.tree.leaf == edges[i].node.leaf && edges[i].node.tree.prefix == edges[i].node.prefix
    {
      assert edges[i].node.repr <= Footprint(edges);
    }

    /** New fields, with the ghost ones to match. */
    method Become(leaf: Option<Leaf<V>>, prefix: Key, edges: seq<Link<V>>, ghost vs: seq<Edge<V>>)
      requires Linked(edges) && this !in Footprint(edges) && StandFor(edges, vs)
      modifies this
      ensures this.leaf == leaf && this.prefix == prefix && this.edges == edges
      ensures Valid() && tree == Node(leaf, prefix, vs) && repr == {this} + old(Footprint(edges))
    {
      ghost var below := Footprint(edges);
      assert Nodes(edges) <= below;
      repr, tree := {this} + below, Node(leaf, prefix, vs);
      this.leaf, this.prefix, this.edges := leaf, prefix, edges;
    }

    constructor (leaf: Option<Leaf<V>>, prefix: Key)
      ensures Valid() && fresh(repr)
      ensures this.leaf == leaf && this.prefix == prefix && edges == []
      ensures tree == Node(leaf, prefix, [])
    {
      this.leaf, this.prefix, edges := leaf, prefix, [];
      tree, repr := Node(leaf, prefix, []), {this};
    }

    // -------------------------------------------------------------- edges

    /** sort.Search over the labels. */
    method Search(bits: byte) returns (i: nat)
      requires Valid() && Sorted(tree.edges)
      ensures i == Position(tree.edges, bits)
    {
      var lo, hi := 0, |edges|;
      while lo < hi
        invariant 0 <= lo <= hi <= |edges|
        invariant forall j :: 0 <= j < lo ==> tree.edges[j].bits < bits
        invariant forall j :: hi <= j < |edges| ==> tree.edges[j].bits >= bits
      {
        var mid := lo + (hi - lo) / 2;
        assert tree.edges[mid].bits == edges[mid].bits;
        if edges[mid].bits >= bits { hi := mid; } else { lo := mid + 1; }
      }
      i := lo;
      assert lo < |edges| ==> tree.edges[lo].bits >= bits;
      assert !(lo < Position(tree.edges, bits));
    }

    method GetEdge(bits: byte) returns (child: TreeNode?<V>)
      requires Valid() && Sorted(tree.edges)
      ensures child != null <==> HasEdge(tree.edges, bits)
      ensures child != null ==>
        var i := Position(tree.edges, bits);
        edges[i] == Link(bits, child) && tree.edges[i] == Edge(bits, child.tree)
    {
      var i := Search(bits);
      if i < |edges| && edges[i].bits == bits { return edges[i].node; }
      return null;
    }

    /** A new edge in its place: append and sort. */
    method Add(bits: byte, node: TreeNode<V>)
      requires Valid() && Sorted(tree.edges)
      requires node.Valid() && repr !! node.repr
      modifies this
      ensures Valid() && tree == old(tree).(edges := AddEdge(old(tree.edges), Edge(bits, node.tree)))
      ensures repr <= old(repr) + node.repr
    {
      var i := Search(bits);
      Parts();
      OneMoreLink(edges, tree.edges, i, Link(bits, node));
      Become(leaf, prefix, edges[..i] + [Link(bits, node)] + edges[i..], AddEdge(tree.edges, Edge(bits, node.tree)));
    }

    /** Put another node behind an edge that is there. */
    method Update(bits: byte, node: TreeNode<V>)
      requires Valid() && Sorted(tree.edges) && HasEdge(tree.edges, bits)
      requires node.Valid() && repr !! node.repr
      modifies this
      ensures Valid() && tree == old(tree).(edges := UpdateEdge(old(tree.edges), bits, node.tree))
      ensures repr <= old(repr) + node.repr - old(edges[Position(tree.edges, bits)].node.repr)
      ensures edges == old(edges)[Position(old(tree.edges), bits) := Link(bits, node)]
    {
      var i := Search(bits);
      Parts();
      OtherLink(edges, tree.edges, i, Link(bits, node));
      Become(leaf, prefix, edges[i := Link(bits, node)], UpdateEdge(tree.edges, bits, node.tree));
    }

    method DelEdge(bits: byte)
      requires Valid() && Sorted(tree.edges)
      modifies this
      ensures Valid() && tree == old(tree).(edges := RadixEdges.DelEdge(old(tree.edges), bits))
      ensures repr <= old(repr)
    {
      var i := Search(bits);
      if i < |edges| && edges[i].bits == bits {
        Parts();
        OneLinkLess(edges, tree.edges, i);
        Become(leaf, prefix, edges[..i] + edges[i + 1..], RadixEdges.DelEdge(tree.edges, bits));
      }
    }

    /** Take over the only child. */
    method Join()
      requires Valid() && |edges| == 1
      modifies this
      ensures Valid() && tree == RadixRemove.Join(old(tree))
      ensures repr <= old(repr)
    {
      var child := edges[0].node;
      assert child.repr <= Footprint(edges);
      child.Parts();
      Become(child.leaf, prefix + child.prefix, child.edges, child.tree.edges);
    }
  }

  // ---------------------------------------------------------------- insert

  /** The links but one. */
  function Others<V>(es: seq<Link<V>>, i: nat): seq<Link<V>>
    requires i < |es|
  {
    es[..i] + es[i + 1..]
  }

  /** Whatever happens behind edge `i` alone does not touch the rest of the node. */
  lemma {:induction false} OthersApart<V>(n: TreeNode<V>, i: nat) returns (away: set<object>)
    requires n.Valid() && i < |n.edges|
    ensures away == Footprint(Others(n.edges, i)) && Linked(Others(n.edges, i))
    ensures StandFor(Others(n.edges, i), n.tree.edges[..i] + n.tree.edges[i + 1..])
    ensures Nodes(Others(n.edges, i)) <= away && n !in away && away !! n.edges[i].node.repr
    ensures {n} + away <= n.repr && n.edges[i].node.repr <= n.repr - {n}
  {
    OneLinkLess(n.edges, n.tree.edges, i);
    n.ChildInside(i);
    var rest := Others(n.edges, i);
    away := Footprint(rest);
    assert forall k :: 0 <= k < |rest| ==> rest[k] == n.edges[if k < i then k else k + 1];
  }

  /** The node again, with the child behind edge `i` back in its place. */
  lemma {:induction false} PutBack<V>(es: seq<Link<V>>, vs: seq<Edge<V>>, i: nat)
    requires i < |es| == |vs| && Linked(Others(es, i)) && StandFor(Others(es, i), vs[..i] + vs[i + 1..])
    requires es[i].node.Valid() && Footprint(Others(es, i)) !! es[i].node.repr
    ensures Linked(es) && StandFor(es, vs[i := Edge(es[i].bits, es[i].node.tree)])
    ensures Footprint(es) == Footprint(Others(es, i)) + es[i].node.repr
  {
    var rest, values := Others(es, i), vs[..i] + vs[i + 1..];
    OneMoreLink(rest, values, i, es[i]);
    assert es == rest[..i] + [es[i]] + rest[i..];
    assert vs[i := Edge(es[i].bits, es[i].node.tree)] == values[..i] + [Edge(es[i].bits, es[i].node.tree)] + values[i..];
  }

  /** The ghost fields of a node follow a change behind its edge `i`. */
  ghost method Reattach<V>(n: TreeNode<V>, i: nat, child: TreeNode<V>, away: set<object>)
    requires i < |n.edges| == |n.tree.edges| && n.edges[i].node == child && child.Valid()
    requires away == Footprint(Others(n.edges, i)) && Linked(Others(n.edges, i))
    requires n !in away && n !in child.repr && away !! child.repr
    requires StandFor(Others(n.edges, i), n.tree.edges[..i] + n.tree.edges[i + 1..])
    modifies n`tree, n`repr
    ensures n.Valid() && n.repr == {n} + away + child.repr
    ensures n.tree == Node(n.leaf, n.prefix, old(n.tree.edges)[i := Edge(n.edges[i].bits, child.tree)])
  {
    PutBack(n.edges, n.tree.edges, i);
    var below := Footprint(n.edges);
    assert Nodes(n.edges) <= below;
    n.repr, n.tree := {n} + below, Node(n.leaf, n.prefix, n.tree.edges[i := Edge(n.edges[i].bits, child.tree)]);
  }

  /**
   * Insert below a node. The source goes down in a loop; here the way down is a call, so that the
   * ghost fields of the nodes passed can follow on the way back.
   */
  method InsertBelow<V>(n: TreeNode<V>, query: Key, s: Key, v: V, ghost path: Key)
    returns (was: Option<V>, ghost grown: set<object>)
    requires n.Valid() && WellFormed(n.tree, path)
    modifies n.repr
    ensures n.Valid() && fresh(grown) && n.repr <= old(n.repr) + grown
    ensures (n.tree, was) == InsertAt(old(n.tree), query, s, v)
    decreases n.tree, 1
  {
    grown := {};
    if |query| == 0 {
      was := SetLeaf(n, s, v);
      return;
    }
    var subTree := n.GetEdge(query[0]);
    if subTree == null {
      var node := new TreeNode(Some(Leaf(s, v)), query);
      grown := node.repr;
      n.Add(query[0], node);
      return None, grown;
    }
    n.ChildInside(Position(n.tree.edges, query[0]));
    var common := LongestMatch(query, subTree.prefix);
    if common == |subTree.prefix| {
      was, grown := InsertDown(n, subTree, query, s, v, path);
    } else {
      grown := SplitEdge(n, subTree, query, common, Leaf(s, v));
      was := None;
    }
  }

  method SetLeaf<V>(n: TreeNode<V>, s: Key, v: V) returns (was: Option<V>)
    requires n.Valid()
    modifies n
    ensures n.Valid() && n.repr <= old(n.repr)
    ensures (n.tree, was) == InsertAt(old(n.tree), [], s, v)
  {
    n.Parts();
    was := if n.leaf.Some? then Some(n.leaf.value.val) else None;
    n.Become(Some(Leaf(if n.leaf.Some? then n.leaf.value.key else s, v)), n.prefix, n.edges, n.tree.edges);
  }

  method InsertDown<V>(n: TreeNode<V>, child: TreeNode<V>, query: Key, s: Key, v: V, ghost path: Key)
    returns (was: Option<V>, ghost grown: set<object>)
    requires n.Valid() && WellFormed(n.tree, path) && query != [] && HasEdge(n.tree.edges, query[0])
    requires n.edges[Position(n.tree.edges, query[0])].node == child && child.tree.prefix == child.prefix
    requires CommonLength(query, child.prefix) == |child.prefix|
    modifies n.repr
    ensures n.Valid() && fresh(grown) && n.repr <= old(n.repr) + grown
    ensures (n.tree, was) == InsertAt(old(n.tree), query, s, v)
    decreases n.tree, 0
  {
    ghost var i := Position(n.tree.edges, query[0]);
    n.ChildInside(i);
    ChildOk(n.tree, path, query[0]);
    ghost var away := OthersApart(n, i);
    was, grown := InsertBelow(child, query[|child.prefix|..], s, v, path + child.prefix);
    Reattach(n, i, child, away);
  }

  /** The new node between `n` and the child whose prefix the key leaves half way. */
  method SplitEdge<V>(n: TreeNode<V>, subTree: TreeNode<V>, query: Key, common: nat, leaf: Leaf<V>)
    returns (ghost grown: set<object>)
    requires n.Valid() && Sorted(n.tree.edges) && query != [] && HasEdge(n.tree.edges, query[0])
    requires n.edges[Position(n.tree.edges, query[0])].node == subTree && subTree.tree.prefix == subTree.prefix
    requires common < |subTree.prefix| && common <= |query|
    requires common < |query| ==> query[common] != subTree.prefix[common]
    modifies n.repr
    ensures n.Valid() && fresh(grown) && n.repr <= old(n.repr) + grown
    ensures n.tree == old(n.tree).(edges := UpdateEdge(old(n.tree.edges), query[0], Split(old(subTree.tree), query, common, leaf)))
  {
    ghost var i := Position(n.tree.edges, query[0]);
    n.ChildInside(i);
    var child := new TreeNode<V>(None, query[..common]);
    ghost var added := child.repr;
    n.Update(query[0], child);
    grown := FillBelow(n, i, child, subTree, query, common, leaf);
    grown := grown + added;
  }

  /** The new node, already behind edge `i` of `n`, takes over the old child. */
  method FillBelow<V>(n: TreeNode<V>, ghost i: nat, child: TreeNode<V>, subTree: TreeNode<V>, query: Key, common: nat, leaf: Leaf<V>)
    returns (ghost grown: set<object>)
    requires n.Valid() && subTree.Valid() && n.repr !! subTree.repr && i < |n.edges| && n.edges[i].node == child
    requires common < |subTree.prefix| && common <= |query| && child.tree == Node(None, query[..common], [])
    requires common < |query| ==> query[common] != subTree.prefix[common]
    modifies n, child, subTree
    ensures n.Valid() && fresh(grown) && n.repr <= old(n.repr) + old(subTree.repr) + grown
    ensures n.tree == old(n.tree).(edges := old(n.tree.edges)[i := Edge(old(n.edges)[i].bits, Split(old(subTree.tree), query, common, leaf))])
  {
    n.ChildInside(i);
    ghost var away := OthersApart(n, i);
    grown := FillSplit(child, subTree, query, common, leaf);
    Reattach(n, i, child, away);
  }

  method FillSplit<V>(child: TreeNode<V>, subTree: TreeNode<V>, query: Key, common: nat, leaf: Leaf<V>) returns (ghost grown: set<object>)
    requires child.Valid() && subTree.Valid() && child.repr !! subTree.repr
    requires common < |subTree.prefix| && common <= |query| && child.tree == Node(None, query[..common], [])
    requires common < |query| ==> query[common] != subTree.prefix[common]
    modifies child, subTree
    ensures child.Valid() && child.tree == Split(old(subTree.tree), query, common, leaf)
    ensures child.repr <= old(child.repr) + old(subTree.repr) + grown && fresh(grown)
  {
    var bits := subTree.prefix[common];
    subTree.Parts();
    subTree.Become(subTree.leaf, subTree.prefix[common..], subTree.edges, subTree.tree.edges);
    child.Add(bits, subTree);
    assert child.tree.edges == [Edge(bits, subTree.tree)];
    var rest := query[common..];
    grown := {};
    if |rest| == 0 {
      child.Parts();
      child.Become(Some(leaf), child.prefix, child.edges, child.tree.edges);
    } else {
      var node := new TreeNode(Some(leaf), rest);
      grown := node.repr;
      child.Add(rest[0], node);
    }
  }

  // ---------------------------------------------------------------- remove

  /** removeNode: the leaf goes, and with it the node or the step it makes. */
  method RemoveNode<V>(child: TreeNode<V>, n: TreeNode<V>, bits: byte) returns (was: V)
    requires n.Valid() && Sorted(n.tree.edges) && HasEdge(n.tree.edges, bits)
    requires n.edges[Position(n.tree.edges, bits)].node == child && child.leaf.Some?
    modifies n, child
    ensures n.Valid() && n.repr <= old(n.repr)
    ensures n.tree == old(n.tree).(edges := Strip(old(n.tree.edges), bits))
    ensures was == old(child.leaf.value.val)
  {
    ghost var i := Position(n.tree.edges, bits);
    n.ChildInside(i);
    was := child.leaf.value.val;
    ClearLeafBelow(n, i, child);
    StripAfterUpdate(old(n.tree.edges), bits, child.tree);
    if |child.edges| == 0 {
      n.DelEdge(bits);
    } else if |child.edges| == 1 {
      JoinBelow(n, i, child);
    }
  }

  method ClearLeafBelow<V>(n: TreeNode<V>, ghost i: nat, child: TreeNode<V>)
    requires n.Valid() && i < |n.edges| && n.edges[i].node == child
    modifies n, child
    ensures n.Valid() && n.repr <= old(n.repr) && n.edges == old(n.edges) && child.edges == old(child.edges)
    ensures |child.edges| == |child.tree.edges| && child.tree == old(child.tree).(leaf := None)
    ensures n.tree == old(n.tree).(edges := old(n.tree.edges)[i := Edge(n.edges[i].bits, child.tree)])
  {
    n.ChildInside(i);
    ghost var away := OthersApart(n, i);
    ClearLeaf(child);
    Reattach(n, i, child, away);
  }

  method JoinBelow<V>(n: TreeNode<V>, ghost i: nat, child: TreeNode<V>)
    requires n.Valid() && i < |n.edges| && n.edges[i].node == child && |child.edges| == 1 == |child.tree.edges|
    modifies n, child
    ensures n.Valid() && n.repr <= old(n.repr)
    ensures n.tree == old(n.tree).(edges := old(n.tree.edges)[i := Edge(old(n.edges)[i].bits, RadixRemove.Join(old(child.tree)))])
  {
    n.ChildInside(i);
    ghost var away := OthersApart(n, i);
    child.Join();
    Reattach(n, i, child, away);
  }

  /** Strip in two steps: clear the leaf, then drop or join the node. */
  lemma StripAfterUpdate<V>(es: seq<Edge<V>>, bits: byte, stripped: Node<V>)
    requires Sorted(es) && HasEdge(es, bits) && stripped == es[Position(es, bits)].node.(leaf := None)
    ensures
      var es' := UpdateEdge(es, bits, stripped);
      && Sorted(es') && HasEdge(es', bits) && Position(es', bits) == Position(es, bits)
      && Strip(es, bits) == if |stripped.edges| == 0 then DelEdge(es', bits)
                            else if |stripped.edges| == 1 then UpdateEdge(es', bits, Join(stripped)) else es'
  {
    var i := Position(es, bits);
    var es' := UpdateEdge(es, bits, stripped);
    PositionUnique(es', bits, i);
    assert es'[..i] == es[..i] && es'[i + 1..] == es[i + 1..];
  }

  method ClearLeaf<V>(n: TreeNode<V>)
    requires n.Valid()
    modifies n
    ensures n.Valid() && n.repr <= old(n.repr) && n.edges == old(n.edges)
    ensures n.tree == old(n.tree).(leaf := None)
  {
    n.Parts();
    n.Become(None, n.prefix, n.edges, n.tree.edges);
  }

  /** remove below a node, for what is left of the key. */
  method RemoveKeyBelow<V>(n: TreeNode<V>, query: Key, ghost path: Key) returns (was: Option<V>)
    requires n.Valid() && WellFormed(n.tree, path) && query != []
    modifies n.repr
    ensures n.Valid() && n.repr <= old(n.repr)
    ensures (n.tree, was) == RemoveBelow(old(n.tree), query)
    decreases n.tree, 1
  {
    var child := n.GetEdge(query[0]);
    if child == null { return None; }
    ghost var i := Position(n.tree.edges, query[0]);
    n.ChildInside(i);
    if !(child.prefix <= query) { return None; }
    var rest := query[|child.prefix|..];
    if |rest| == 0 {
      if child.leaf.None? { return None; }
      var val := RemoveNode(child, n, query[0]);
      return Some(val);
    }
    was := RemoveKeyDown(n, child, query, path);
  }

  method RemoveKeyDown<V>(n: TreeNode<V>, child: TreeNode<V>, query: Key, ghost path: Key) returns (was: Option<V>)
    requires n.Valid() && WellFormed(n.tree, path) && query != [] && HasEdge(n.tree.edges, query[0])
    requires n.edges[Position(n.tree.edges, query[0])].node == child && child.tree.prefix == child.prefix
    requires child.prefix <= query && child.prefix != query
    modifies n.repr
    ensures n.Valid() && n.repr <= old(n.repr)
    ensures (n.tree, was) == RemoveBelow(old(n.tree), query)
    decreases n.tree, 0
  {
    ghost var i := Position(n.tree.edges, query[0]);
    n.ChildInside(i);
    ChildOk(n.tree, path, query[0]);
    ghost var away := OthersApart(n, i);
    was := RemoveKeyBelow(child, query[|child.prefix|..], path + child.prefix);
    Reattach(n, i, child, away);
  }

  /** remove from the root down; the root keeps its node even when its leaf goes. */
  method RemoveKey<V>(root: TreeNode<V>, s: Key) returns (was: Option<V>)
    requires root.Valid() && WellFormed(root.tree, [])
    modifies root.repr
    ensures root.Valid() && root.repr <= old(root.repr)
    ensures (root.tree, was) == RemoveAt(old(root.tree), s)
  {
    if |s| > 0 {
      was := RemoveKeyBelow(root, s, []);
      return;
    }
    root.Parts();
    was := if root.leaf.Some? then Some(root.leaf.value.val) else None;
    if was.Some? { ClearLeaf(root); }
  }
}
