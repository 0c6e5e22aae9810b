/** Insert below a node, with the split it may need, and what it does to lookup. */
module RadixUpdate {
  import opened Basics
  import opened RadixKeys
  import opened RadixEdges
  import opened RadixTree

  /** Lookup through an edge: consume the child's prefix, then search below it. */
  function Below<V>(child: Option<Node<V>>, query: Key): Option<V> {
    if child.None? || !(child.value.prefix <= query) then None
    else Find(child.value, query[|child.value.prefix|..])
  }

  lemma FindIsBelow<V>(n: Node<V>, query: Key)
    requires query != []
    ensures Find(n, query) == Below(Child(n.edges, query[0]), query)
  {
  }

  lemma FindThroughUpdate<V>(n: Node<V>, bits: byte, node: Node<V>, x: Key)
    requires Sorted(n.edges) && HasEdge(n.edges, bits)
    ensures Find(n.(edges := UpdateEdge(n.edges, bits, node)), x)
            == if x != [] && x[0] == bits then Below(Some(node), x) else Find(n, x)
  {
    if x != [] {
      FindIsBelow(n, x);
      FindIsBelow(n.(edges := UpdateEdge(n.edges, bits, node)), x);
      ChildAfterUpdate(n.edges, bits, node, x[0]);
    }
  }

  lemma ChildOk<V>(n: Node<V>, path: Key, bits: byte)
    requires WellFormed(n, path) && HasEdge(n.edges, bits)
    ensures
      var child := n.edges[Position(n.edges, bits)].node;
      && Child(n.edges, bits) == Some(child)
      && child.prefix != [] && child.prefix[0] == bits
      && WellFormed(child, path + child.prefix)
  {
    assert EdgeOk(n.edges[Position(n.edges, bits)]);
  }

  lemma UpdateOk<V>(es: seq<Edge<V>>, path: Key, bits: byte, node: Node<V>)
    requires EdgesOk(es, path) && HasEdge(es, bits)
    requires node.prefix != [] && node.prefix[0] == bits && WellFormed(node, path + node.prefix)
    ensures EdgesOk(UpdateEdge(es, bits, node), path)
  {
    ChildAfterUpdate(es, bits, node, bits);
  }

  lemma AddOk<V>(es: seq<Edge<V>>, path: Key, e: Edge<V>)
    requires EdgesOk(es, path) && !HasEdge(es, e.bits) && EdgeOk(e) && WellFormed(e.node, path + e.node.prefix)
    ensures EdgesOk(AddEdge(es, e), path)
  {
    AddEdgeSorted(es, e);
    var es' := AddEdge(es, e);
    assert forall i :: 0 <= i < |es'| ==> es'[i] == e || es'[i] in es;
  }

  // ---------------------------------------------------------------- insert

  /** A node put between parent and child at the point where the new key leaves the child's prefix. */
  function Split<V>(child: Node<V>, query: Key, common: nat, leaf: Leaf<V>): Node<V>
    requires common < |child.prefix| && common <= |query|
  {
    var lower := Edge(child.prefix[common], child.(prefix := child.prefix[common..]));
    var rest := query[common..];
    if rest == [] then Node(Some(leaf), query[..common], [lower])
    else Node(None, query[..common], AddEdge([lower], Edge(rest[0], Node(Some(leaf), rest, []))))
  }

  /** The new subtree and the value the key had before. */
  function InsertAt<V>(n: Node<V>, query: Key, s: Key, v: V): (Node<V>, Option<V>)
    decreases n
  {
    if query == [] then
      if n.leaf.Some? then (n.(leaf := Some(Leaf(n.leaf.value.key, v))), Some(n.leaf.value.val))
      else (n.(leaf := Some(Leaf(s, v))), None)
    else if !HasEdge(n.edges, query[0]) then
      (n.(edges := AddEdge(n.edges, Edge(query[0], Node(Some(Leaf(s, v)), query, [])))), None)
    else
      var child := n.edges[Position(n.edges, query[0])].node;
      var common := CommonLength(query, child.prefix);
      if common == |child.prefix| then
        var (child', was) := InsertAt(child, query[common..], s, v);
        (n.(edges := UpdateEdge(n.edges, query[0], child')), was)
      else
        (n.(edges := UpdateEdge(n.edges, query[0], Split(child, query, common, Leaf(s, v)))), None)
  }

  lemma InsertKeepsPrefix<V>(n: Node<V>, query: Key, s: Key, v: V)
    ensures InsertAt(n, query, s, v).0.prefix == n.prefix
  {
  }

  lemma SplitOk<V>(child: Node<V>, path: Key, query: Key, leaf: Leaf<V>)
    requires WellFormed(child, path + child.prefix) && query != [] && child.prefix != []
    requires query[0] == child.prefix[0] && leaf.key == path + query
    requires CommonLength(query, child.prefix) < |child.prefix|
    ensures
      var split := Split(child, query, CommonLength(query, child.prefix), leaf);
      split.prefix != [] && split.prefix[0] == query[0] && WellFormed(split, path + split.prefix)
  {
    var common := CommonLength(query, child.prefix);
    var split := Split(child, query, common, leaf);
    var moved := child.(prefix := child.prefix[common..]);
    var top, rest := query[..common], query[common..];
    assert common > 0;
    PathSplit(path, child.prefix, common);
    PathSplit(path, query, common);
    assert top == child.prefix[..common];
    SplitOkAt(split, moved, path + top, child.prefix[common], rest, leaf);
  }

  lemma PathSplit(path: Key, whole: Key, common: nat)
    requires common <= |whole|
    ensures path + whole[..common] + whole[common..] == path + whole
  {
    assert whole == whole[..common] + whole[common..];
  }

  lemma SplitOkAt<V>(split: Node<V>, moved: Node<V>, here: Key, bits: byte, rest: Key, leaf: Leaf<V>)
    requires moved.prefix != [] && moved.prefix[0] == bits && (rest == [] || rest[0] != bits)
    requires WellFormed(moved, here + moved.prefix) && leaf.key == here + rest
    requires split.leaf == if rest == [] then Some(leaf) else None
    requires split.edges == if rest == [] then [Edge(bits, moved)]
                            else AddEdge([Edge(bits, moved)], Edge(rest[0], Node(Some(leaf), rest, [])))
    ensures WellFormed(split, here)
  {
    var lower := [Edge(bits, moved)];
    assert EdgesOk(lower, here);
    if rest == [] {
      assert here + rest == here;
    } else {
      AddOk(lower, here, Edge(rest[0], Node(Some(leaf), rest, [])));
    }
  }

  /** Below the split: the new leaf at the rest of the key, the old child at everything else. */
  lemma SplitFindRest<V>(split: Node<V>, moved: Node<V>, bits: byte, rest: Key, leaf: Leaf<V>, y: Key)
    requires moved.prefix != [] && moved.prefix[0] == bits && (rest == [] || rest[0] != bits)
    requires split.leaf == if rest == [] then Some(leaf) else None
    requires split.edges == if rest == [] then [Edge(bits, moved)]
                            else AddEdge([Edge(bits, moved)], Edge(rest[0], Node(Some(leaf), rest, [])))
    ensures Find(split, y) == if y == rest then Some(leaf.val) else Below(Some(moved), y)
  {
    if y != [] {
      FindIsBelow(split, y);
      if rest != [] {
        ChildAfterAdd([Edge(bits, moved)], Edge(rest[0], Node(Some(leaf), rest, [])), y[0]);
      }
    }
  }

  /** A common prefix taken off both sides. */
  lemma PrefixShift(p: Key, a: Key, x: Key)
    ensures p + a <= p + x <==> a <= x
    ensures a <= x ==> (p + x)[|p + a|..] == x[|a|..]
  {
    if p + a <= p + x { PrefixCancel(p, a, x); }
    if a <= x { assert p + x == p + a + x[|a|..]; }
  }

  /** Looking below a node with a longer prefix is looking below the node for the rest. */
  lemma PrefixTaken<V>(n: Node<V>, p: Key, x: Key)
    ensures Below(Some(n.(prefix := p + n.prefix)), p + x) == Below(Some(n), x)
  {
    PrefixShift(p, n.prefix, x);
    if n.prefix <= x {
      var y := x[|n.prefix|..];
      assert Find(n.(prefix := p + n.prefix), y) == Find(n, y);
    }
  }

  lemma SplitFind<V>(child: Node<V>, query: Key, leaf: Leaf<V>, x: Key)
    requires query != [] && child.prefix != [] && CommonLength(query, child.prefix) < |child.prefix|
    ensures
      var split := Split(child, query, CommonLength(query, child.prefix), leaf);
      Below(Some(split), x) == if x == query then Some(leaf.val) else Below(Some(child), x)
  {
    var common := CommonLength(query, child.prefix);
    var split := Split(child, query, common, leaf);
    var moved := child.(prefix := child.prefix[common..]);
    var top, rest := query[..common], query[common..];
    assert top == child.prefix[..common] == split.prefix;
    if top <= x {
      var y := x[common..];
      assert x == top + y && query == top + rest && child.prefix == top + moved.prefix;
      PrefixTaken(moved, top, y);
      assert child == moved.(prefix := top + moved.prefix);
      SplitFindRest(split, moved, child.prefix[common], rest, leaf, y);
    } else {
      assert top <= query && top <= child.prefix;
    }
  }

  /** Insert changes lookup at the key and nowhere else, and reports what was there. */
  lemma {:induction false} InsertFind<V>(n: Node<V>, path: Key, query: Key, s: Key, v: V, x: Key)
    requires WellFormed(n, path)
    ensures
      var (n', was) := InsertAt(n, query, s, v);
      && Find(n', x) == (if x == query then Some(v) else Find(n, x))
      && was == Find(n, query)
    decreases n, 1
  {
    var (n', was) := InsertAt(n, query, s, v);
    if query != [] {
      FindIsBelow(n, query);
      var bits := query[0];
      if x != [] { FindIsBelow(n, x); FindIsBelow(n', x); }
      if !HasEdge(n.edges, bits) {
        if x != [] {
          ChildAfterAdd(n.edges, Edge(bits, Node(Some(Leaf(s, v)), query, [])), x[0]);
        }
      } else {
        ChildOk(n, path, bits);
        var child := n.edges[Position(n.edges, bits)].node;
        var common := CommonLength(query, child.prefix);
        if common == |child.prefix| {
          InsertFindBelow(n, path, query, s, v, x);
        } else {
          assert !(child.prefix <= query);
          if x != [] {
            ChildAfterUpdate(n.edges, bits, Split(child, query, common, Leaf(s, v)), x[0]);
            SplitFind(child, query, Leaf(s, v), x);
          }
        }
      }
    }
  }

  lemma {:induction false} InsertFindBelow<V>(n: Node<V>, path: Key, query: Key, s: Key, v: V, x: Key)
    requires WellFormed(n, path) && query != [] && HasEdge(n.edges, query[0])
    requires
      var child := n.edges[Position(n.edges, query[0])].node;
      CommonLength(query, child.prefix) == |child.prefix|
    ensures
      var (n', was) := InsertAt(n, query, s, v);
      && Find(n', x) == (if x == query then Some(v) else Find(n, x))
      && was == Find(n, query)
    decreases n, 0
  {
    var bits := query[0];
    ChildOk(n, path, bits);
    var child := n.edges[Position(n.edges, bits)].node;
    var child' := InsertAt(child, query[|child.prefix|..], s, v).0;
    InsertFindChild(child, path, query, s, v, x);
    FindThroughUpdate(n, bits, child', x);
    FindIsBelow(n, query);
    if x != [] { FindIsBelow(n, x); }
  }

  /** The same seen from the edge that leads to the child. */
  lemma {:induction false} InsertFindChild<V>(child: Node<V>, path: Key, query: Key, s: Key, v: V, x: Key)
    requires WellFormed(child, path + child.prefix) && CommonLength(query, child.prefix) == |child.prefix|
    ensures
      var (child', was) := InsertAt(child, query[|child.prefix|..], s, v);
      && Below(Some(child'), x) == (if x == query then Some(v) else Below(Some(child), x))
      && was == Below(Some(child), query)
    decreases child, 2
  {
    var p := child.prefix;
    assert query[..|p|] == p[..|p|] == p;
    var rest := query[|p|..];
    assert query == p + rest;
    InsertKeepsPrefix(child, rest, s, v);
    InsertFind(child, path + p, rest, s, v, if p <= x then x[|p|..] else []);
    assert p <= x ==> x == p + x[|p|..];
  }

  lemma {:induction false} InsertOk<V>(n: Node<V>, path: Key, query: Key, s: Key, v: V)
    requires WellFormed(n, path) && s == path + query
    ensures WellFormed(InsertAt(n, query, s, v).0, path)
    decreases n
  {
    var n' := InsertAt(n, query, s, v).0;
    if query == [] {
      assert path + query == path;
    } else if !HasEdge(n.edges, query[0]) {
      AddOk(n.edges, path, Edge(query[0], Node(Some(Leaf(s, v)), query, [])));
    } else {
      var child := n.edges[Position(n.edges, query[0])].node;
      ChildOk(n, path, query[0]);
      var common := CommonLength(query, child.prefix);
      if common == |child.prefix| {
        var rest := query[common..];
        assert query == child.prefix + rest by { assert query[..common] == child.prefix[..common] == child.prefix; }
        assert path + query == path + child.prefix + rest;
        InsertOk(child, path + child.prefix, rest, s, v);
        InsertKeepsPrefix(child, rest, s, v);
        UpdateOk(n.edges, path, query[0], InsertAt(child, rest, s, v).0);
      } else {
        SplitOk(child, path, query, Leaf(s, v));
        UpdateOk(n.edges, path, query[0], Split(child, query, common, Leaf(s, v)));
      }
    }
  }
}
