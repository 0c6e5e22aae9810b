/** The tree object: its loops and updates over linked nodes, proved against the finite map it stands for. */
module RadixObject {
  import opened Basics
  import opened RadixKeys
  import opened RadixEdges
  import opened RadixTree
  import opened RadixUpdate
  import opened RadixRemove
  import opened RadixWalk
  import opened RadixQueries
  import opened RadixMap
  import opened RadixPopulated
  import opened RadixCompact
  import opened RadixHeap

  /** preorderWalk: the node's own leaf first, then every edge in order, until the callback stops it. */
  method PreorderWalk<V>(n: TreeNode<V>, stop: (Key, V) -> bool) returns (seen: seq<Leaf<V>>, stopped: bool)
    requires n.Valid()
    ensures (seen, stopped) == Visit(Leaves(n.tree), stop)
    decreases n.tree
  {
    ghost var t := n.tree;
    n.Parts();
    seen, stopped := Own(n.leaf), false;
    if n.leaf.Some? && stop(n.leaf.value.key, n.leaf.value.val) {
      VisitSplit(Own(t.leaf), EdgeLeaves(t.edges), stop);
      return seen, true;
    }
    assert Own(t.leaf) + EdgeLeaves(t.edges[..0]) == Own(t.leaf);
    var i := 0;
    while i < |n.edges|
      invariant 0 <= i <= |n.edges| == |t.edges|
      invariant !stopped && SeenAll(t, i, seen, stop)
    {
      n.ChildInside(i);
      var more, halt := PreorderWalk(n.edges[i].node, stop);
      WalkEdge(t, i, seen, stop);
      seen := seen + more;
      if halt { return seen, true; }
      i := i + 1;
    }
    assert t.edges[..i] == t.edges;
  }

  // ---------------------------------------------------------------- removePrefix

  /** The subtree at the end of the prefix is counted and emptied. */
  method Empty<V>(n: TreeNode<V>) returns (count: nat)
    requires n.Valid()
    modifies n
    ensures n.Valid() && n.repr <= old(n.repr)
    ensures n.tree == Node(None, old(n.tree.prefix), []) && count == |Leaves(old(n.tree))|
  {
    var seen, stopped := PreorderWalk(n, (k, v) => false);
    VisitIsPrefix(Leaves(n.tree), (k, v) => false);
    count := |seen|;
    n.Become(None, n.prefix, [], []);
  }

  method RemovePrefixBelow<V>(n: TreeNode<V>, prefix: Key, top: bool, ghost path: Key) returns (count: nat)
    requires n.Valid() && WellFormed(n.tree, path)
    modifies n.repr
    ensures n.Valid() && n.repr <= old(n.repr)
    ensures (n.tree, count) == RemovePrefixAt(old(n.tree), prefix, top)
    decreases n.tree, 1
  {
    if |prefix| == 0 {
      count := Empty(n);
      return;
    }
    var child := n.GetEdge(prefix[0]);
    if child == null { return 0; }
    n.ChildInside(Position(n.tree.edges, prefix[0]));
    if !(prefix <= child.prefix) && !(child.prefix <= prefix) { return 0; }
    var rest := if |child.prefix| > |prefix| then [] else prefix[|child.prefix|..];
    count := RemovePrefixDown(n, child, prefix[0], rest, path);
    if |rest| == 0 && !top && |n.edges| == 1 && n.leaf.None? { n.Join(); }
  }

  method RemovePrefixDown<V>(n: TreeNode<V>, child: TreeNode<V>, bits: byte, rest: Key, ghost path: Key) returns (count: nat)
    requires n.Valid() && WellFormed(n.tree, path) && HasEdge(n.tree.edges, bits)
    requires n.edges[Position(n.tree.edges, bits)].node == child
    modifies n.repr
    ensures n.Valid() && n.repr <= old(n.repr)
    ensures
      var (child', gone) := RemovePrefixAt(old(child.tree), rest, false);
      n.tree == old(n.tree).(edges := UpdateEdge(old(n.tree.edges), bits, child')) && count == gone
    decreases n.tree, 0
  {
    ghost var i := Position(n.tree.edges, bits);
    n.ChildInside(i);
    ChildOk(n.tree, path, bits);
    ghost var away := OthersApart(n, i);
    count := RemovePrefixBelow(child, rest, false, path + child.prefix);
    Reattach(n, i, child, away);
  }

  // ---------------------------------------------------------------- the tree

  /** What inserting a key does to map, size and shape, in one. */
  lemma InsertEffect<V>(root: Node<V>, size: int, s: Key, v: V)
    requires RadixMap.Valid(State(root, size))
    ensures
      var (root', was) := InsertAt(root, s, s, v);
      && RadixMap.Valid(State(root', if was.None? then size + 1 else size))
      && Contents(root') == Contents(root)[s := v] && was == Get(Contents(root), s)
      && (Populated(root) ==> Populated(root')) && (Compact(root) ==> Compact(root'))
  {
    InsertRefines(State(root, size), s, v);
    if Populated(root) { InsertKeepsPopulated(root, s, s, v); }
    if Compact(root) { InsertKeepsCompact(root, s, s, v); }
  }

  /** What removing a key does to map, size and shape, in one. */
  lemma RemoveEffect<V>(root: Node<V>, size: int, s: Key)
    requires RadixMap.Valid(State(root, size))
    ensures
      var (root', was) := RemoveAt(root, s);
      && RadixMap.Valid(State(root', if was.Some? then size - 1 else size))
      && Contents(root') == Contents(root) - {s} && was == Get(Contents(root), s)
      && (Populated(root) ==> (Populated(root') <==> !LeavesStub(root, s, true)))
      && (Compact(root) ==> (Compact(root') <==> !LeavesChain(root, s, true)))
  {
    RemoveRefines(State(root, size), s);
    if Populated(root) { RemoveKeepsPopulatedIff(root, s); }
    if Compact(root) { RemoveKeepsCompactIff(root, s); }
  }

  class Tree<V> {
    var root: TreeNode<V>
    var size: int

    ghost predicate Valid()
      reads this, root, root.repr
    {
      root.Valid() && this !in root.repr && RadixMap.Valid(State(root.tree, size))
    }

    /** The finite map the tree stands for. */
    ghost function Map(): map<Key, V>
      reads this, root
    {
      Contents(root.tree)
    }

    constructor ()
      ensures Valid() && Map() == map[] && fresh(root.repr) && Populated(root.tree) && Compact(root.tree)
    {
      root := new TreeNode<V>(None, []);
      size := 0;
      new;
    }

    method Insert(s: Key, v: V) returns (was: Option<V>)
      requires Valid()
      modifies this, root.repr
      ensures Valid() && fresh(root.repr - old(root.repr))
      ensures Map() == old(Map())[s := v] && was == Get(old(Map()), s)
      ensures old(Populated(root.tree)) ==> Populated(root.tree)
      ensures old(Compact(root.tree)) ==> Compact(root.tree)
    {
      InsertEffect(root.tree, size, s, v);
      ghost var grown;
      was, grown := InsertBelow(root, s, s, v, []);
      if was.None? { size := size + 1; }
    }

    method Remove(s: Key) returns (was: Option<V>)
      requires Valid()
      modifies this, root.repr
      ensures Valid() && root.repr <= old(root.repr)
      ensures Map() == old(Map()) - {s} && was == Get(old(Map()), s)
      ensures old(Populated(root.tree)) ==> (Populated(root.tree) <==> !old(LeavesStub(root.tree, s, true)))
      ensures old(Compact(root.tree)) ==> (Compact(root.tree) <==> !old(LeavesChain(root.tree, s, true)))
    {
      RemoveEffect(root.tree, size, s);
      was := RemoveKey(root, s);
      if was.Some? { size := size - 1; }
    }

    method RemovePrefix(p: Key) returns (count: int)
      requires Valid()
      modifies this, root.repr
      ensures Valid() && root.repr <= old(root.repr)
      ensures Map() == Without(old(Map()), p) && count == |old(Map())| - |Map()|
      ensures old(Populated(root.tree)) ==> (Populated(root.tree) <==> p == [] || forall k :: k in old(Map()) ==> !(p <= k))
    {
      RemovePrefixRefines(State(root.tree, size), p);
      if Populated(root.tree) { RemovePrefixKeepsPopulatedIff(root.tree, p); }
      count := RemovePrefixBelow(root, p, true, []);
      size := size - count;
    }

    method Len() returns (n: int)
      requires Valid()
      ensures n == |Map()|
    {
      n := size;
    }

    method Lookup(s: Key) returns (r: Option<V>)
      requires Valid()
      ensures r == Get(Map(), s)
    {
      FindIsContents(root.tree, s);
      var subTree: TreeNode<V>, query := root, s;
      ghost var path: Key := [];
      while true
        invariant subTree.Valid() && WellFormed(subTree.tree, path)
        invariant Find(root.tree, s) == Find(subTree.tree, query)
        decreases subTree.tree
      {
        if |query| == 0 {
          return if subTree.leaf.Some? then Some(subTree.leaf.value.val) else None;
        }
        FindIsBelow(subTree.tree, query);
        var next := subTree.GetEdge(query[0]);
        if next == null { return None; }
        ChildOk(subTree.tree, path, query[0]);
        subTree.ChildInside(Position(subTree.tree.edges, query[0]));
        if !(next.prefix <= query) { return None; }
        path, query := path + next.prefix, query[|next.prefix|..];
        subTree := next;
      }
    }

    method LongestPrefix(s: Key) returns (r: Option<Leaf<V>>)
      requires Valid()
      ensures LongestOf(Map(), s, r)
    {
      var lastLeaf: Option<Leaf<V>> := None;
      var subTree: TreeNode<V>, query := root, s;
      ghost var path: Key := [];
      while true
        invariant subTree.Valid() && WellFormed(subTree.tree, path)
        invariant Deepest(root.tree, s)
               == if Deepest(subTree.tree, query).Some? then Deepest(subTree.tree, query) else lastLeaf
        decreases subTree.tree
      {
        if subTree.leaf.Some? { lastLeaf := subTree.leaf; }
        if |query| == 0 { break; }
        var next := subTree.GetEdge(query[0]);
        if next == null { break; }
        ChildOk(subTree.tree, path, query[0]);
        subTree.ChildInside(Position(subTree.tree.edges, query[0]));
        if !(next.prefix <= query) { break; }
        path, query := path + next.prefix, query[|next.prefix|..];
        subTree := next;
      }
      assert lastLeaf == Deepest(root.tree, s);
      LongestMeaning(root.tree, s);
      r := lastLeaf;
    }

    /** The smallest key: always in a populated tree, and otherwise exactly if no empty subtree is in the way. */
    method Min() returns (r: Option<Leaf<V>>)
      requires Valid()
      ensures LeastOf(Map(), r) <==> Map() == map[] || !LeftStub(root.tree)
      ensures Populated(root.tree) ==> LeastOf(Map(), r)
    {
      MinIsLeastIff(root.tree);
      if Populated(root.tree) { EndsOfPopulated(root.tree); }
      var subTree: TreeNode<V> := root;
      while true
        invariant subTree.Valid() && Leftmost(root.tree) == Leftmost(subTree.tree)
        decreases subTree.tree
      {
        if subTree.leaf.Some? { return subTree.leaf; }
        if |subTree.edges| == 0 { return None; }
        subTree.ChildInside(0);
        subTree := subTree.edges[0].node;
      }
    }

    method Max() returns (r: Option<Leaf<V>>)
      requires Valid()
      ensures GreatestOf(Map(), r) <==> Map() == map[] || !RightStub(root.tree)
      ensures Populated(root.tree) ==> GreatestOf(Map(), r)
    {
      MaxIsGreatestIff(root.tree);
      if Populated(root.tree) { EndsOfPopulated(root.tree); }
      var subTree: TreeNode<V> := root;
      while true
        invariant subTree.Valid() && Rightmost(root.tree) == Rightmost(subTree.tree)
        decreases subTree.tree
      {
        var num := |subTree.edges|;
        if num > 0 {
          subTree.ChildInside(num - 1);
          subTree := subTree.edges[num - 1].node;
        } else {
          return subTree.leaf;
        }
      }
    }

    /** Every leaf in increasing order of its key, until the callback stops the walk. */
    method Walk(stop: (Key, V) -> bool) returns (seen: seq<Leaf<V>>)
      requires Valid()
      ensures Increasing(Leaves(root.tree)) && |Leaves(root.tree)| == |Map()|
      ensures seen == Visit(Leaves(root.tree), stop).0
    {
      LeavesIncrease(root.tree, []);
      ContentsSize(root.tree);
      var stopped;
      seen, stopped := PreorderWalk(root, stop);
    }

    /** The leaves under the prefix, in walk order, and no others. */
    method WalkPrefix(prefix: Key, stop: (Key, V) -> bool) returns (seen: seq<Leaf<V>>)
      requires Valid()
      ensures seen == Visit(Under(Leaves(root.tree), prefix), stop).0
    {
      var subTree: TreeNode<V>, search := root, prefix;
      ghost var path: Key := [];
      var stopped;
      while true
        invariant subTree.Valid() && WellFormed(subTree.tree, path) && path + search == prefix
        invariant Under(Leaves(root.tree), prefix) == Under(Leaves(subTree.tree), prefix)
        decreases subTree.tree
      {
        if |search| == 0 {
          Covers(subTree.tree, path, prefix);
          seen, stopped := PreorderWalk(subTree, stop);
          return;
        }
        var next := subTree.GetEdge(search[0]);
        if next == null {
          UnderIsEmpty(subTree.tree, path, search);
          return [];
        }
        StepDown(subTree.tree, path, search, prefix);
        subTree.ChildInside(Position(subTree.tree.edges, search[0]));
        subTree := next;
        if subTree.prefix <= search {
          path, search := path + subTree.prefix, search[|subTree.prefix|..];
        } else if search <= subTree.prefix {
          seen, stopped := PreorderWalk(subTree, stop);
          return;
        } else {
          return [];
        }
      }
    }
  }
}
