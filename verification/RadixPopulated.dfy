/** Which updates keep a leaf below every node, and with it Min and Max right. */
module RadixPopulated {
  import opened Basics
  import opened RadixKeys
  import opened RadixEdges
  import opened RadixTree
  import opened RadixUpdate
  import opened RadixRemove
  import opened RadixWalk
  import opened RadixQueries
  import opened RadixMap

  // ---------------------------------------------------------------- insert

  /** Insert keeps every node populated. */
  lemma {:induction false} InsertKeepsPopulated<V>(n: Node<V>, query: Key, s: Key, v: V)
    requires Populated(n)
    ensures
      var n' := InsertAt(n, query, s, v).0;
      Populated(n') && Leaves(n') != []
    decreases n
  {
    var n' := InsertAt(n, query, s, v).0;
    if query != [] {
      if !HasEdge(n.edges, query[0]) {
        var e := Edge(query[0], Node(Some(Leaf(s, v)), query, []));
        AddPopulated(n, e);
      } else {
        var i := Position(n.edges, query[0]);
        var child := n.edges[i].node;
        var common := CommonLength(query, child.prefix);
        if common == |child.prefix| {
          InsertKeepsPopulated(child, query[common..], s, v);
        } else {
          SplitPopulated(child, query, common, Leaf(s, v));
        }
        SomeLeaf(n', i);
      }
    }
  }

  lemma AddPopulated<V>(n: Node<V>, e: Edge<V>)
    requires Populated(n) && Populated(e.node) && Leaves(e.node) != []
    ensures
      var n' := n.(edges := AddEdge(n.edges, e));
      Populated(n') && Leaves(n') != []
  {
    var n' := n.(edges := AddEdge(n.edges, e));
    var i := Position(n.edges, e.bits);
    forall j | 0 <= j < |n'.edges| ensures Leaves(n'.edges[j].node) != [] && Populated(n'.edges[j].node) {
      AddedEdge(n.edges, e, j);
    }
    SomeLeaf(n', i);
  }

  lemma SomeLeaf<V>(n: Node<V>, i: nat)
    requires i < |n.edges| && Leaves(n.edges[i].node) != []
    ensures Leaves(n) != []
  {
    LeafOfEdge(n.edges, i, Leaves(n.edges[i].node)[0]);
  }

  lemma SplitPopulated<V>(child: Node<V>, query: Key, common: nat, leaf: Leaf<V>)
    requires Populated(child) && Leaves(child) != [] && common < |child.prefix| && common <= |query|
    ensures Populated(Split(child, query, common, leaf)) && Leaves(Split(child, query, common, leaf)) != []
  {
    var split := Split(child, query, common, leaf);
    var moved := child.(prefix := child.prefix[common..]);
    assert Leaves(moved) == Leaves(child) && Populated(moved);
    var rest := query[common..];
    var lower := Edge(child.prefix[common], moved);
    if rest != [] {
      var other := Edge(rest[0], Node(Some(leaf), rest, []));
      assert Populated(other.node) && Leaves(other.node) == [leaf];
      forall j | 0 <= j < |split.edges| ensures split.edges[j] == lower || split.edges[j] == other {
        AddedEdge([lower], other, j);
      }
      SomeLeaf(split, 0);
    }
  }

  // ---------------------------------------------------------------- one child replaced

  /** What a child must be for its parent to be populated. */
  predicate Alive<V>(n: Node<V>) {
    Leaves(n) != [] && Populated(n)
  }

  lemma UpdatedPopulated<V>(n: Node<V>, bits: byte, child: Node<V>)
    requires Populated(n) && HasEdge(n.edges, bits)
    ensures
      var n' := n.(edges := UpdateEdge(n.edges, bits, child));
      (Populated(n') <==> Alive(child)) && (Alive(child) ==> Alive(n'))
  {
    var i := Position(n.edges, bits);
    var n' := n.(edges := UpdateEdge(n.edges, bits, child));
    assert n'.edges[i].node == child;
    if Alive(child) { SomeLeaf(n', i); }
  }

  /** A node takes over whatever its only child is. */
  lemma JoinedAlive<V>(n: Node<V>)
    requires |n.edges| == 1
    ensures Alive(Join(n)) <==> Alive(n.edges[0].node)
  {
    var child := n.edges[0].node;
    assert Leaves(Join(n)) == Leaves(child);
  }

  // ---------------------------------------------------------------- remove

  /**
   * Removing the key takes the last edge of a node that has no leaf and is not the root: the
   * removed node has no edges of its own, and its parent is neither the root nor a leaf and has
   * no other edge.
   */
  predicate LeavesStub<V>(n: Node<V>, query: Key, top: bool)
    decreases n
  {
    query != [] && HasEdge(n.edges, query[0]) &&
    var child := n.edges[Position(n.edges, query[0])].node;
    child.prefix <= query &&
    var rest := query[|child.prefix|..];
    if rest == [] then child.leaf.Some? && child.edges == [] && !top && n.leaf.None? && |n.edges| == 1
    else LeavesStub(child, rest, false)
  }

  lemma DroppedPopulated<V>(n: Node<V>, bits: byte)
    requires Populated(n) && HasEdge(n.edges, bits)
    ensures
      var n' := n.(edges := DelEdge(n.edges, bits));
      Populated(n') && (Leaves(n') == [] <==> n.leaf.None? && |n.edges| == 1)
  {
    var i := Position(n.edges, bits);
    var n' := n.(edges := DelEdge(n.edges, bits));
    forall j | 0 <= j < |n'.edges| ensures n'.edges[j] == n.edges[if j < i then j else j + 1] {}
    if |n.edges| > 1 { SomeLeaf(n', 0); }
  }

  lemma StrippedAlive<V>(child: Node<V>)
    requires Populated(child) && child.edges != []
    ensures
      var stripped := child.(leaf := None);
      Alive(if |child.edges| == 1 then Join(stripped) else stripped)
  {
    var stripped := child.(leaf := None);
    SomeLeaf(stripped, 0);
    if |child.edges| == 1 { JoinedAlive(stripped); }
  }

  lemma RemovedHere<V>(n: Node<V>, query: Key, top: bool)
    requires Populated(n) && query != [] && HasEdge(n.edges, query[0])
    requires n.edges[Position(n.edges, query[0])].node.prefix == query
    requires n.edges[Position(n.edges, query[0])].node.leaf.Some?
    ensures
      var n' := n.(edges := Strip(n.edges, query[0]));
      && Populated(n')
      && (top || (Leaves(n') != [] <==> !LeavesStub(n, query, top)))
  {
    var child := n.edges[Position(n.edges, query[0])].node;
    assert query[|child.prefix|..] == [];
    if child.edges == [] {
      DroppedPopulated(n, query[0]);
    } else {
      StrippedAlive(child);
      var stripped := child.(leaf := None);
      UpdatedPopulated(n, query[0], if |child.edges| == 1 then Join(stripped) else stripped);
    }
  }

  /** Below a node that is not the root, removal leaves it populated and with leaves, or a stub somewhere. */
  lemma {:induction false} RemoveBelowAlive<V>(n: Node<V>, query: Key, top: bool)
    requires Populated(n) && query != [] && (top || Leaves(n) != [])
    ensures
      var n' := RemoveBelow(n, query).0;
      (if top then Populated(n') else Alive(n')) <==> !LeavesStub(n, query, top)
    decreases n
  {
    if HasEdge(n.edges, query[0]) {
      var child := n.edges[Position(n.edges, query[0])].node;
      if child.prefix <= query {
        var rest := query[|child.prefix|..];
        if rest == [] {
          assert child.prefix == query;
          if child.leaf.Some? { RemovedHere(n, query, top); }
        } else {
          RemoveBelowAlive(child, rest, false);
          UpdatedPopulated(n, query[0], RemoveBelow(child, rest).0);
        }
      }
    }
  }

  /** Remove keeps a tree populated exactly unless it leaves such a stub. */
  lemma RemoveKeepsPopulatedIff<V>(root: Node<V>, s: Key)
    requires Populated(root)
    ensures Populated(RemoveAt(root, s).0) <==> !LeavesStub(root, s, true)
  {
    if s != [] { RemoveBelowAlive(root, s, true); }
  }

  // ---------------------------------------------------------------- removePrefix

  /** If nothing is under the prefix nothing changes; otherwise a stub is left. */
  lemma {:induction false} PrefixAlive<V>(n: Node<V>, prefix: Key, top: bool)
    requires Populated(n) && (top || Leaves(n) != []) && (top ==> prefix != [])
    ensures
      var (n', count) := RemovePrefixAt(n, prefix, top);
      if count == 0 then n' == n else if top then !Populated(n') else !Alive(n')
    decreases n
  {
    if prefix == [] {
      assert Leaves(Node<V>.Node(None, n.prefix, [])) == [];
    } else if HasEdge(n.edges, prefix[0]) {
      var bits := prefix[0];
      var child := n.edges[Position(n.edges, bits)].node;
      if prefix <= child.prefix || child.prefix <= prefix {
        var rest := if |child.prefix| > |prefix| then [] else prefix[|child.prefix|..];
        PrefixAlive(child, rest, false);
        var (child', count) := RemovePrefixAt(child, rest, false);
        UpdatedPopulated(n, bits, child');
        var n1 := n.(edges := UpdateEdge(n.edges, bits, child'));
        if |n1.edges| == 1 { JoinedAlive(n1); }
      }
    }
  }

  /** removePrefix keeps a tree populated exactly if it empties all of it or nothing is under the prefix. */
  lemma RemovePrefixKeepsPopulatedIff<V>(root: Node<V>, p: Key)
    requires WellFormed(root, []) && root.prefix == [] && Populated(root)
    ensures Populated(RemovePrefixAt(root, p, true).0) <==> p == [] || forall k :: k in Contents(root) ==> !(p <= k)
  {
    var (root', count) := RemovePrefixAt(root, p, true);
    RemovePrefixContents(root, p);
    if p != [] { PrefixAlive(root, p, true); }
    var m := Contents(root);
    if forall k :: k in m ==> !(p <= k) {
      assert Without(m, p) == m;
    } else {
      var k :| k in m && p <= k;
      assert Without(m, p).Keys <= m.Keys - {k};
      SubsetSize(Without(m, p).Keys, m.Keys - {k});
    }
  }

  // ---------------------------------------------------------------- whole sequences of updates

  ghost predicate CleanOp<V>(t: State<V>, op: Op<V>) {
    match op
    case Insert(s, v) => true
    case Remove(s) => !LeavesStub(t.root, s, true)
    case RemovePrefix(p) => p == [] || forall k :: k in Contents(t.root) ==> !(p <= k)
  }

  ghost predicate Clean<V>(t: State<V>, ops: seq<Op<V>>)
    decreases |ops|
  {
    ops == [] || (CleanOp(t, ops[0]) && Clean(Do(t, ops[0]).0, ops[1..]))
  }

  /** An update of a populated tree keeps it populated exactly if it is clean. */
  lemma CleanIff<V>(t: State<V>, op: Op<V>)
    requires Valid(t) && Populated(t.root)
    ensures Populated(Do(t, op).0.root) <==> CleanOp(t, op)
  {
    match op
    case Insert(s, v) => InsertKeepsPopulated(t.root, s, s, v);
    case Remove(s) => RemoveKeepsPopulatedIff(t.root, s);
    case RemovePrefix(p) => RemovePrefixKeepsPopulatedIff(t.root, p);
  }

  /** After any clean sequence of updates, inserts alone for one, Min and Max are the ends of the map. */
  lemma {:induction false} CleanRunsKeepTheEnds<V>(t: State<V>, ops: seq<Op<V>>)
    requires Valid(t) && Populated(t.root) && Clean(t, ops)
    ensures
      var root := Run(t, ops).0.root;
      Populated(root) && LeastOf(Contents(root), Leftmost(root)) && GreatestOf(Contents(root), Rightmost(root))
    decreases |ops|
  {
    if ops == [] {
      EndsOfPopulated(t.root);
    } else {
      UpdateRefines(t, ops[0]);
      CleanIff(t, ops[0]);
      CleanRunsKeepTheEnds(Do(t, ops[0]).0, ops[1..]);
    }
  }

  // ---------------------------------------------------------------- stubs from short sequences

  lemma {:induction false} RunSplit<V>(t: State<V>, a: seq<Op<V>>, op: Op<V>)
    ensures Run(t, a + [op]).0 == Do(Run(t, a).0, op).0
    decreases |a|
  {
    var ops := a + [op];
    if a == [] {
      assert ops[1..] == [];
    } else {
      assert ops[1..] == a[1..] + [op];
      RunSplit(Do(t, a[0]).0, a[1..], op);
    }
  }

  function Single(key: Key, prefix: Key, v: int): Node<int> {
    Node(Some(Leaf(key, v)), prefix, [])
  }

  const EMPTY: State<int> := State(Node(None, [], []), 0)

  /** "a" without a leaf or an edge, beside "b". */
  const STUB: Node<int> := Node(None, [], [Edge(97, Node(None, [97], [])), Edge(98, Single([98], [98], 2))])

  lemma StubHidesTheRest()
    ensures Leaves(STUB) == [Leaf([98], 2)] && Contents(STUB) == map[[98] := 2] && Leftmost(STUB) == None
  {
    var es := STUB.edges;
    var b := Single([98], [98], 2);
    assert Leaves(es[0].node) == [] && Leaves(b) == [Leaf([98], 2)];
    assert es[1..] == [Edge(98, b)] && |es[1..][1..]| == 0;
    assert EdgeLeaves(es[1..]) == LeavesBehind(Edge(98, b)) + EdgeLeaves(es[1..][1..]);
    assert EdgeLeaves(es) == LeavesBehind(es[0]) + EdgeLeaves(es[1..]);
    var ls := [Leaf([98], 2)];
    assert ls[..0] == [] && ToMap(ls) == ToMap(ls[..0])[[98] := 2];
  }

  /** Removing a prefix leaves one: with "a" cut away, Min of a tree that still holds "b" finds nothing. */
  lemma RemovePrefixHidesTheRest()
    ensures
      var ops := [Insert([97], 1), Insert([98], 2), RemovePrefix([97])];
      Run(EMPTY, ops).0.root == STUB
  {
    var a, b := Single([97], [97], 1), Single([98], [98], 2);
    var t2 := State(Node(None, [], [Edge(97, a), Edge(98, b)]), 2);
    assert Do(EMPTY, Insert([97], 1)).0 == State(Node(None, [], [Edge(97, a)]), 1);
    assert Do(State(Node(None, [], [Edge(97, a)]), 1), Insert([98], 2)).0 == t2;
    CuttingLeavesAStub();
    RunSplit(EMPTY, [], Insert([97], 1));
    RunSplit(EMPTY, [Insert([97], 1)], Insert([98], 2));
    RunSplit(EMPTY, [Insert([97], 1), Insert([98], 2)], RemovePrefix([97]));
    assert [] + [Insert([97], 1)] == [Insert([97], 1)];
  }

  lemma CuttingLeavesAStub()
    ensures
      var a, b := Single([97], [97], 1), Single([98], [98], 2);
      RemovePrefixAt(Node(None, [], [Edge(97, a), Edge(98, b)]), [97], true) == (STUB, 1)
  {
    var a, b := Single([97], [97], 1), Single([98], [98], 2);
    var es := [Edge(97, a), Edge(98, b)];
    var p: Key := [97];
    assert Leaves(a) == [Leaf([97], 1)];
    assert p[1..] == [] && RemovePrefixAt(a, [], false) == (Node(None, [97], []), 1);
    assert Position(es, 97) == 0 && HasEdge(es, 97);
    assert UpdateEdge(es, 97, Node(None, [97], [])) == STUB.edges;
  }

  // ------------------------------------------------------------ the same by removing single keys

  /** The tree of "ab", "ac" and "b", with as many of the first two as are left. */
  function Fork(below: seq<Edge<int>>): Node<int> {
    Node(None, [], [Edge(97, Node(None, [97], below)), Edge(98, Single([98], [98], 2))])
  }

  const AB: Edge<int> := Edge(98, Single([97, 98], [98], 1))
  const AC: Edge<int> := Edge(99, Single([97, 99], [99], 3))

  lemma BuildFork()
    ensures Run(EMPTY, [Insert([97, 98], 1), Insert([97, 99], 3), Insert([98], 2)]).0 == State(Fork([AB, AC]), 3)
  {
    var ab := Single([97, 98], [97, 98], 1);
    var t1 := State(Node(None, [], [Edge(97, ab)]), 1);
    var t2 := State(Node(None, [], [Edge(97, Node(None, [97], [AB, AC]))]), 2);
    assert Do(EMPTY, Insert([97, 98], 1)).0 == t1;
    ForkSplits();
    assert Do(t2, Insert([98], 2)).0 == State(Fork([AB, AC]), 3);
    RunSplit(EMPTY, [], Insert([97, 98], 1));
    RunSplit(EMPTY, [Insert([97, 98], 1)], Insert([97, 99], 3));
    RunSplit(EMPTY, [Insert([97, 98], 1), Insert([97, 99], 3)], Insert([98], 2));
    assert [] + [Insert([97, 98], 1)] == [Insert([97, 98], 1)];
  }

  lemma ForkSplits()
    ensures
      var ab := Single([97, 98], [97, 98], 1);
      InsertAt(Node(None, [], [Edge(97, ab)]), [97, 99], [97, 99], 3)
        == (Node(None, [], [Edge(97, Node(None, [97], [AB, AC]))]), None)
  {
    var ab := Single([97, 98], [97, 98], 1);
    var es := [Edge(97, ab)];
    var query: Key := [97, 99];
    assert Position(es, 97) == 0 && HasEdge(es, 97);
    assert query[1..] == [99] && query[..1] == [97] && ab.prefix[1..] == [98];
    assert Position([AB], 99) == 1;
    assert AddEdge([AB], AC) == [AB, AC];
    assert Split(ab, query, 1, Leaf(query, 3)) == Node(None, [97], [AB, AC]);
    assert UpdateEdge(es, 97, Node(None, [97], [AB, AC])) == [Edge(97, Node(None, [97], [AB, AC]))];
  }

  /** One key of the fork goes. */
  lemma ForkLoses(below: seq<Edge<int>>, last: byte, i: nat)
    requires i < |below| && Sorted(below) && below[i].bits == last && below[i].node.prefix == [last]
    requires below[i].node.leaf.Some? && below[i].node.edges == []
    ensures RemoveAt(Fork(below), [97, last]).0 == Fork(below[..i] + below[i + 1..])
    ensures RemoveAt(Fork(below), [97, last]).1.Some?
  {
    var query: Key := [97, last];
    var inner := Node(None, [97], below);
    var rest := query[1..];
    assert rest == [last] && rest[1..] == [];
    assert Strip(below, last) == below[..i] + below[i + 1..];
    assert RemoveBelow(inner, rest).0 == inner.(edges := below[..i] + below[i + 1..]);
    assert UpdateEdge(Fork(below).edges, 97, inner.(edges := below[..i] + below[i + 1..])) == Fork(below[..i] + below[i + 1..]).edges;
  }

  lemma ForkEmpties()
    ensures Do(State(Fork([AB, AC]), 3), Remove([97, 98])).0 == State(Fork([AC]), 2)
    ensures Do(State(Fork([AC]), 2), Remove([97, 99])).0 == State(STUB, 1)
  {
    ForkLoses([AB, AC], 98, 0);
    assert [AB, AC][..0] + [AB, AC][1..] == [AC];
    ForkLoses([AC], 99, 0);
    assert [AC][..0] + [AC][1..] == [];
    assert Fork([]) == STUB;
  }

  lemma RunTwoMore<V>(t: State<V>, a: seq<Op<V>>, x: Op<V>, y: Op<V>)
    ensures Run(t, a + [x, y]).0 == Do(Do(Run(t, a).0, x).0, y).0
  {
    RunSplit(t, a, x);
    RunSplit(t, a + [x], y);
    assert a + [x] + [y] == a + [x, y];
  }

  /** So does removing keys one by one: with "ab" and "ac" gone, "b" is hidden from Min in the same way. */
  lemma RemoveHidesTheRest()
    ensures
      var ops := [Insert([97, 98], 1), Insert([97, 99], 3), Insert([98], 2)] + [Remove([97, 98]), Remove([97, 99])];
      Run(EMPTY, ops).0 == State(STUB, 1)
  {
    BuildFork();
    ForkEmpties();
    RunTwoMore(EMPTY, [Insert([97, 98], 1), Insert([97, 99], 3), Insert([98], 2)], Remove([97, 98]), Remove([97, 99]));
  }
}
