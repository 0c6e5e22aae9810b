/** remove and removePrefix below a node, with the joins they do, and what that means for lookup. */
module RadixRemove {
  import opened Basics
  import opened RadixKeys
  import opened RadixEdges
  import opened RadixTree
  import opened RadixUpdate

  /** A node takes over the only child it has. */
  function Join<V>(n: Node<V>): Node<V>
    requires |n.edges| > 0
  {
    var child := n.edges[0].node;
    Node(child.leaf, n.prefix + child.prefix, child.edges)
  }

  lemma JoinFind<V>(n: Node<V>, x: Key)
    requires |n.edges| == 1 && n.leaf.None? && EdgeOk(n.edges[0])
    ensures Below(Some(Join(n)), x) == Below(Some(n), x)
  {
    var child := n.edges[0].node;
    var p, q := n.prefix, child.prefix;
    if p <= x {
      var y := x[|p|..];
      assert x == p + y;
      assert p + q <= x <==> q <= y;
      if y != [] {
        FindIsBelow(n, y);
        assert n.edges == [n.edges[0]];
      }
      if q <= y {
        assert x[|p + q|..] == y[|q|..];
      }
    } else {
      assert p <= p + q;
    }
  }

  // ---------------------------------------------------------------- remove

  /** What becomes of the node whose leaf is taken away, as its parent's edges see it. */
  function Strip<V>(es: seq<Edge<V>>, bits: byte): seq<Edge<V>>
    requires HasEdge(es, bits)
  {
    var stripped := es[Position(es, bits)].node.(leaf := None);
    if |stripped.edges| == 0 then DelEdge(es, bits)
    else UpdateEdge(es, bits, if |stripped.edges| == 1 then Join(stripped) else stripped)
  }

  function RemoveBelow<V>(n: Node<V>, query: Key): (Node<V>, Option<V>)
    requires query != []
    decreases n
  {
    var bits := query[0];
    if !HasEdge(n.edges, bits) then (n, None)
    else
      var child := n.edges[Position(n.edges, bits)].node;
      if !(child.prefix <= query) then (n, None)
      else
        var rest := query[|child.prefix|..];
        if rest == [] then
          if child.leaf.None? then (n, None)
          else (n.(edges := Strip(n.edges, bits)), Some(child.leaf.value.val))
        else
          var (child', was) := RemoveBelow(child, rest);
          (n.(edges := UpdateEdge(n.edges, bits, child')), was)
  }

  /** The root keeps its node even when its leaf goes. */
  function RemoveAt<V>(root: Node<V>, query: Key): (Node<V>, Option<V>) {
    if query == [] then
      if root.leaf.None? then (root, None) else (root.(leaf := None), Some(root.leaf.value.val))
    else RemoveBelow(root, query)
  }

  lemma RemoveKeepsPrefix<V>(n: Node<V>, query: Key)
    requires query != []
    ensures RemoveBelow(n, query).0.prefix == n.prefix
  {
  }

  lemma StripChild<V>(n: Node<V>, path: Key, bits: byte, x: Key)
    requires WellFormed(n, path) && HasEdge(n.edges, bits) && x != []
    requires n.edges[Position(n.edges, bits)].node.leaf.Some?
    ensures
      var child := n.edges[Position(n.edges, bits)].node;
      Below(Child(Strip(n.edges, bits), x[0]), x)
        == if x[0] == bits then Below(Some(child.(leaf := None)), x) else Below(Child(n.edges, x[0]), x)
  {
    ChildOk(n, path, bits);
    var child := n.edges[Position(n.edges, bits)].node;
    var stripped := child.(leaf := None);
    if |stripped.edges| == 0 {
      ChildAfterDel(n.edges, bits, x[0]);
    } else if |stripped.edges| == 1 {
      assert EdgeOk(child.edges[0]);
      ChildAfterUpdate(n.edges, bits, Join(stripped), x[0]);
      JoinFind(stripped, x);
    } else {
      ChildAfterUpdate(n.edges, bits, stripped, x[0]);
    }
  }

  /** Remove changes lookup at the key and nowhere else, and returns what was there. */
  lemma {:induction false} RemoveFind<V>(n: Node<V>, path: Key, query: Key, x: Key)
    requires WellFormed(n, path) && query != []
    ensures
      var (n', was) := RemoveBelow(n, query);
      && Find(n', x) == (if x == query then None else Find(n, x))
      && was == Find(n, query)
    decreases n
  {
    var bits := query[0];
    FindIsBelow(n, query);
    if HasEdge(n.edges, bits) {
      ChildOk(n, path, bits);
      var child := n.edges[Position(n.edges, bits)].node;
      if child.prefix <= query {
        var rest := query[|child.prefix|..];
        assert query == child.prefix + rest;
        if rest == [] {
          RemoveFindHere(n, path, query, x);
        } else {
          RemoveFindDown(n, path, query, x);
        }
      }
    }
  }

  lemma {:induction false} RemoveFindDown<V>(n: Node<V>, path: Key, query: Key, x: Key)
    requires WellFormed(n, path) && query != [] && HasEdge(n.edges, query[0])
    requires
      var p := n.edges[Position(n.edges, query[0])].node.prefix;
      p <= query && query[|p|..] != []
    ensures
      var (n', was) := RemoveBelow(n, query);
      && Find(n', x) == (if x == query then None else Find(n, x))
      && was == Find(n, query)
    decreases n, 0
  {
    var bits := query[0];
    ChildOk(n, path, bits);
    var child := n.edges[Position(n.edges, bits)].node;
    var p := child.prefix;
    var rest := query[|p|..];
    RemoveFind(child, path + p, rest, if p <= x then x[|p|..] else []);
    RemoveKeepsPrefix(child, rest);
    var child' := RemoveBelow(child, rest).0;
    assert Below(Some(child'), x) == if x == query then None else Below(Some(child), x);
    FindThroughUpdate(n, bits, child', x);
    FindIsBelow(n, query);
    if x != [] { FindIsBelow(n, x); }
  }

  lemma RemoveFindHere<V>(n: Node<V>, path: Key, query: Key, x: Key)
    requires WellFormed(n, path) && query != [] && HasEdge(n.edges, query[0])
    requires n.edges[Position(n.edges, query[0])].node.prefix == query
    ensures
      var (n', was) := RemoveBelow(n, query);
      && Find(n', x) == (if x == query then None else Find(n, x))
      && was == Find(n, query)
  {
    var bits := query[0];
    var child := n.edges[Position(n.edges, bits)].node;
    assert query[|child.prefix|..] == [];
    FindIsBelow(n, query);
    if x != [] {
      FindIsBelow(n, x);
      if child.leaf.Some? {
        StripChild(n, path, bits, x);
        FindIsBelow(n.(edges := Strip(n.edges, bits)), x);
      }
    }
  }

  lemma DelOk<V>(es: seq<Edge<V>>, path: Key, bits: byte)
    requires EdgesOk(es, path)
    ensures EdgesOk(DelEdge(es, bits), path)
  {
    ChildAfterDel(es, bits, bits);
    var es' := DelEdge(es, bits);
    assert forall i :: 0 <= i < |es'| ==> es'[i] in es;
  }

  lemma StripOk<V>(n: Node<V>, path: Key, bits: byte)
    requires WellFormed(n, path) && HasEdge(n.edges, bits)
    ensures EdgesOk(Strip(n.edges, bits), path)
  {
    ChildOk(n, path, bits);
    var child := n.edges[Position(n.edges, bits)].node;
    var stripped := child.(leaf := None);
    assert EdgesOk(n.edges, path);
    if |stripped.edges| == 0 {
      DelOk(n.edges, path, bits);
    } else if |stripped.edges| == 1 {
      assert path + child.prefix + child.edges[0].node.prefix == path + Join(stripped).prefix;
      UpdateOk(n.edges, path, bits, Join(stripped));
    } else {
      UpdateOk(n.edges, path, bits, stripped);
    }
  }

  lemma {:induction false} RemoveOk<V>(n: Node<V>, path: Key, query: Key)
    requires WellFormed(n, path) && query != []
    ensures WellFormed(RemoveBelow(n, query).0, path)
    decreases n
  {
    var bits := query[0];
    if HasEdge(n.edges, bits) {
      ChildOk(n, path, bits);
      var child := n.edges[Position(n.edges, bits)].node;
      if child.prefix <= query {
        var rest := query[|child.prefix|..];
        if rest == [] {
          StripOk(n, path, bits);
        } else {
          RemoveOk(child, path + child.prefix, rest);
          RemoveKeepsPrefix(child, rest);
          UpdateOk(n.edges, path, bits, RemoveBelow(child, rest).0);
        }
      }
    }
  }

  // ---------------------------------------------------------------- removePrefix

  /** The new subtree and the number of leaves that went; `top` marks the root, which never joins. */
  function RemovePrefixAt<V>(n: Node<V>, prefix: Key, top: bool): (Node<V>, nat)
    decreases n
  {
    if prefix == [] then (Node(None, n.prefix, []), |Leaves(n)|)
    else if !HasEdge(n.edges, prefix[0]) then (n, 0)
    else
      var child := n.edges[Position(n.edges, prefix[0])].node;
      if !(prefix <= child.prefix) && !(child.prefix <= prefix) then (n, 0)
      else
        var rest := if |child.prefix| > |prefix| then [] else prefix[|child.prefix|..];
        var (child', count) := RemovePrefixAt(child, rest, false);
        var n1 := n.(edges := UpdateEdge(n.edges, prefix[0], child'));
        (if rest == [] && !top && |n1.edges| == 1 && n1.leaf.None? then Join(n1) else n1, count)
  }

  /** Seen from outside, exactly the keys under the prefix are gone. */
  lemma {:induction false} RemovePrefixFind<V>(n: Node<V>, path: Key, prefix: Key, top: bool, x: Key)
    requires WellFormed(n, path)
    ensures
      var n' := RemovePrefixAt(n, prefix, top).0;
      && n.prefix <= n'.prefix
      && Below(Some(n'), x) == if n.prefix + prefix <= x then None else Below(Some(n), x)
    decreases n
  {
    var n' := RemovePrefixAt(n, prefix, top).0;
    var y := if n.prefix <= x then x[|n.prefix|..] else [];
    BelowPrefix(n.prefix, prefix, x);
    if prefix != [] && HasEdge(n.edges, prefix[0]) {
      RemovePrefixDown(n, path, prefix, y);
      var bits := prefix[0];
      var child := n.edges[Position(n.edges, bits)].node;
      if prefix <= child.prefix || child.prefix <= prefix {
        var rest := if |child.prefix| > |prefix| then [] else prefix[|child.prefix|..];
        RemovePrefixJoin(n, path, bits, RemovePrefixAt(child, rest, false).0, x);
      }
    } else if prefix != [] && prefix <= y {
      FindIsBelow(n, y);
    }
  }

  /** What lies under a longer prefix, seen after the shorter one is consumed. */
  lemma BelowPrefix(p: Key, q: Key, x: Key)
    ensures p + q <= x <==> p <= x && q <= x[|p|..]
  {
    if p + q <= x {
      assert p <= p + q;
      assert x == p + x[|p|..];
      PrefixCancel(p, q, x[|p|..]);
    }
    if p <= x && q <= x[|p|..] { assert x == p + x[|p|..]; }
  }

  /** A join after the child has changed does not change lookup. */
  lemma RemovePrefixJoin<V>(n: Node<V>, path: Key, bits: byte, child': Node<V>, x: Key)
    requires WellFormed(n, path) && HasEdge(n.edges, bits)
    requires n.edges[Position(n.edges, bits)].node.prefix <= child'.prefix
    ensures
      var n1 := n.(edges := UpdateEdge(n.edges, bits, child'));
      |n1.edges| == 1 && n1.leaf.None? ==> n.prefix <= Join(n1).prefix && Below(Some(Join(n1)), x) == Below(Some(n1), x)
  {
    var n1 := n.(edges := UpdateEdge(n.edges, bits, child'));
    if |n1.edges| == 1 && n1.leaf.None? {
      assert n1.edges[0] == Edge(bits, child');
      ChildOk(n, path, bits);
      JoinFind(n1, x);
    }
  }

  /** The same one level down, before any join. */
  lemma {:induction false} RemovePrefixDown<V>(n: Node<V>, path: Key, prefix: Key, y: Key)
    requires WellFormed(n, path) && prefix != [] && HasEdge(n.edges, prefix[0])
    ensures
      var bits := prefix[0];
      var child := n.edges[Position(n.edges, bits)].node;
      if !(prefix <= child.prefix) && !(child.prefix <= prefix)
      then prefix <= y ==> Find(n, y) == None
      else
        var rest := if |child.prefix| > |prefix| then [] else prefix[|child.prefix|..];
        var child' := RemovePrefixAt(child, rest, false).0;
        && child.prefix <= child'.prefix
        && Find(n.(edges := UpdateEdge(n.edges, bits, child')), y) == if prefix <= y then None else Find(n, y)
    decreases n, 0
  {
    var bits := prefix[0];
    ChildOk(n, path, bits);
    var child := n.edges[Position(n.edges, bits)].node;
    var p := child.prefix;
    if y != [] { FindIsBelow(n, y); }
    if prefix <= p || p <= prefix {
      var rest := if |p| > |prefix| then [] else prefix[|p|..];
      RemovePrefixFind(child, path + p, rest, false, y);
      var child' := RemovePrefixAt(child, rest, false).0;
      FindThroughUpdate(n, bits, child', y);
      if |p| <= |prefix| {
        assert p + rest == prefix;
      } else {
        assert p + rest == p;
        if prefix <= y && !(p <= y) { assert Below(Some(child), y) == None; }
        if p <= y { assert prefix <= y; }
      }
    }
  }

  lemma JoinedOk<V>(n: Node<V>, path: Key)
    requires |n.edges| == 1 && WellFormed(n, path + n.prefix)
    ensures n.prefix <= Join(n).prefix && WellFormed(Join(n), path + Join(n).prefix)
  {
    assert path + n.prefix + n.edges[0].node.prefix == path + Join(n).prefix;
  }

  lemma ReplacedOk<V>(n: Node<V>, path: Key, bits: byte, child': Node<V>)
    requires WellFormed(n, path) && HasEdge(n.edges, bits)
    requires n.edges[Position(n.edges, bits)].node.prefix <= child'.prefix && WellFormed(child', path + child'.prefix)
    ensures WellFormed(n.(edges := UpdateEdge(n.edges, bits, child')), path)
  {
    ChildOk(n, path, bits);
    UpdateOk(n.edges, path, bits, child');
  }

  lemma {:induction false} RemovePrefixOk<V>(n: Node<V>, path: Key, prefix: Key, top: bool)
    requires WellFormed(n, path + n.prefix)
    ensures
      var n' := RemovePrefixAt(n, prefix, top).0;
      n.prefix <= n'.prefix && WellFormed(n', path + n'.prefix) && (top ==> n'.prefix == n.prefix)
    decreases n
  {
    var here := path + n.prefix;
    if prefix != [] && HasEdge(n.edges, prefix[0]) {
      var bits := prefix[0];
      ChildOk(n, here, bits);
      var child := n.edges[Position(n.edges, bits)].node;
      if prefix <= child.prefix || child.prefix <= prefix {
        var rest := if |child.prefix| > |prefix| then [] else prefix[|child.prefix|..];
        RemovePrefixOk(child, here, rest, false);
        var child' := RemovePrefixAt(child, rest, false).0;
        ReplacedOk(n, here, bits, child');
        var n1 := n.(edges := UpdateEdge(n.edges, bits, child'));
        if |n1.edges| == 1 { JoinedOk(n1, path); }
      }
    }
  }

  // ---------------------------------------------------------------- how many leaves

  lemma UpdatedLeaves<V>(es: seq<Edge<V>>, i: nat, node: Node<V>)
    requires i < |es|
    ensures |EdgeLeaves(es[i := Edge(es[i].bits, node)])| == |EdgeLeaves(es)| - |Leaves(es[i].node)| + |Leaves(node)|
  {
    var e := Edge(es[i].bits, node);
    assert es == es[..i] + ([es[i]] + es[i + 1..]);
    assert es[i := e] == es[..i] + ([e] + es[i + 1..]);
    EdgeLeavesSplit(es[..i], [es[i]] + es[i + 1..]);
    EdgeLeavesSplit(es[..i], [e] + es[i + 1..]);
    assert ([es[i]] + es[i + 1..])[1..] == es[i + 1..] && ([e] + es[i + 1..])[1..] == es[i + 1..];
  }

  lemma JoinLeaves<V>(n: Node<V>)
    requires |n.edges| == 1 && n.leaf.None?
    ensures Leaves(Join(n)) == Leaves(n)
  {
    assert n.edges[1..] == [];
    assert EdgeLeaves(n.edges) == LeavesBehind(n.edges[0]) + EdgeLeaves(n.edges[1..]);
    assert EdgeLeaves(n.edges) == Leaves(n.edges[0].node);
  }

  /** removePrefix returns exactly the number of leaves that disappeared. */
  lemma {:induction false} RemovePrefixCount<V>(n: Node<V>, prefix: Key, top: bool)
    ensures
      var (n', count) := RemovePrefixAt(n, prefix, top);
      |Leaves(n')| + count == |Leaves(n)|
    decreases n
  {
    if prefix != [] && HasEdge(n.edges, prefix[0]) {
      var i := Position(n.edges, prefix[0]);
      var child := n.edges[i].node;
      if prefix <= child.prefix || child.prefix <= prefix {
        var rest := if |child.prefix| > |prefix| then [] else prefix[|child.prefix|..];
        RemovePrefixCount(child, rest, false);
        var child' := RemovePrefixAt(child, rest, false).0;
        UpdatedLeaves(n.edges, i, child');
        var n1 := n.(edges := UpdateEdge(n.edges, prefix[0], child'));
        if rest == [] && !top && |n1.edges| == 1 && n1.leaf.None? { JoinLeaves(n1); }
      }
    }
  }
}
