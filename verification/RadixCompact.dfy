/**
 * Path compression: when every node below the top has a leaf or forks, the tree is small, and it
 * is the only such tree for its map. Which updates keep it that way.
 */
module RadixCompact {
  import opened Basics
  import opened RadixKeys
  import opened RadixEdges
  import opened RadixTree
  import opened RadixUpdate
  import opened RadixRemove
  import opened RadixWalk
  import opened RadixQueries
  import opened RadixMap
  import opened RadixPopulated

  /** A node that is worth its place: it has a leaf, or at least two edges. */
  predicate Needed<V>(n: Node<V>) {
    n.leaf.Some? || |n.edges| >= 2
  }

  /** Every node but the one at the top is needed. */
  predicate Compact<V>(n: Node<V>)
    decreases n
  {
    forall i :: 0 <= i < |n.edges| ==> Needed(n.edges[i].node) && Compact(n.edges[i].node)
  }

  // ---------------------------------------------------------------- size

  function NodesOf<V>(n: Node<V>): nat
    decreases n, 1
  {
    1 + NodesBehind(n.edges)
  }

  function NodesBehind<V>(es: seq<Edge<V>>): nat
    decreases es, 0
  {
    if es == [] then 0 else NodesAt(es[0]) + NodesBehind(es[1..])
  }

  function NodesAt<V>(e: Edge<V>): nat
    decreases e, 2
  {
    NodesOf(e.node)
  }

  /** Fewer nodes than twice its leaves. */
  ghost predicate Small<V>(n: Node<V>) {
    NodesOf(n) + 1 <= 2 * |Leaves(n)|
  }

  lemma {:induction false} EdgesAreSmall<V>(es: seq<Edge<V>>)
    requires forall i :: 0 <= i < |es| ==> Small(es[i].node)
    ensures NodesBehind(es) + |es| <= 2 * |EdgeLeaves(es)|
    decreases |es|
  {
    if es != [] { EdgesAreSmall(es[1..]); }
  }

  lemma {:induction false} NeededIsSmall<V>(n: Node<V>)
    requires Needed(n) && Compact(n)
    ensures Small(n)
    decreases n
  {
    forall i | 0 <= i < |n.edges| ensures Small(n.edges[i].node) { NeededIsSmall(n.edges[i].node); }
    EdgesAreSmall(n.edges);
  }

  /** A compact tree has, below its root, fewer than twice as many nodes as keys. */
  lemma CompactIsSmall<V>(root: Node<V>)
    requires WellFormed(root, []) && Compact(root)
    ensures NodesOf(root) <= 2 * |Contents(root)| + 1
  {
    forall i | 0 <= i < |root.edges| ensures Small(root.edges[i].node) { NeededIsSmall(root.edges[i].node); }
    EdgesAreSmall(root.edges);
    ContentsSize(root);
  }

  /** A needed node of a compact tree has a leaf below it. */
  lemma {:induction false} NeededHasLeaf<V>(n: Node<V>)
    requires Needed(n) && Compact(n)
    ensures Leaves(n) != [] && Populated(n)
    decreases n
  {
    CompactIsPopulated(n);
    if n.leaf.None? {
      NeededHasLeaf(n.edges[0].node);
      SomeLeaf(n, 0);
    }
  }

  lemma {:induction false} CompactIsPopulated<V>(n: Node<V>)
    requires Compact(n)
    ensures Populated(n)
    decreases n, 0
  {
    forall i | 0 <= i < |n.edges| ensures Leaves(n.edges[i].node) != [] && Populated(n.edges[i].node) {
      NeededHasLeaf(n.edges[i].node);
    }
  }

  // ---------------------------------------------------------------- one tree for a map

  /** Two nodes under the same path that no lookup can tell apart. */
  ghost predicate Alike<V>(a: Node<V>, b: Node<V>, path: Key) {
    && WellFormed(a, path) && WellFormed(b, path) && Compact(a) && Compact(b)
    && forall x :: Find(a, x) == Find(b, x)
  }

  /** Some key is found below a needed node, starting with a byte of its own below a fork. */
  lemma {:induction false} SomeKey<V>(n: Node<V>, path: Key) returns (x: Key)
    requires WellFormed(n, path) && Needed(n) && Compact(n)
    ensures Find(n, x).Some?
    ensures n.leaf.Some? ==> x == []
    decreases n
  {
    if n.leaf.Some? { return []; }
    x := KeyThrough(n, path, 0);
  }

  lemma {:induction false} KeyThrough<V>(n: Node<V>, path: Key, i: nat) returns (x: Key)
    requires WellFormed(n, path) && Compact(n) && i < |n.edges|
    ensures Find(n, x).Some? && n.edges[i].node.prefix <= x && x != [] && x[0] == n.edges[i].bits
    decreases n, 0
  {
    var child := n.edges[i].node;
    assert EdgeOk(n.edges[i]) && Needed(child) && Compact(child);
    var y := SomeKey(child, path + child.prefix);
    x := child.prefix + y;
    PositionUnique(n.edges, n.edges[i].bits, i);
    assert x[|child.prefix|..] == y;
  }

  /** What is behind an edge of one tree is behind an edge of the other, no deeper. */
  lemma {:induction false} PrefixWithin<V>(a: Node<V>, b: Node<V>, path: Key, i: nat)
    requires Alike(a, b, path) && i < |a.edges|
    ensures
      var bits := a.edges[i].bits;
      HasEdge(b.edges, bits) && b.edges[Position(b.edges, bits)].node.prefix <= a.edges[i].node.prefix
  {
    var bits, child := a.edges[i].bits, a.edges[i].node;
    var x := KeyThrough(a, path, i);
    assert Find(b, x) == Find(a, x);
    var other := b.edges[Position(b.edges, bits)].node;
    assert other.prefix <= x;
    if child.leaf.Some? {
      FoundAt(a, path, i, []);
      assert child.prefix + [] == child.prefix;
      assert Find(b, child.prefix) == Find(a, child.prefix);
    } else {
      var y := KeyThrough(child, path + child.prefix, 0);
      var z := KeyThrough(child, path + child.prefix, 1);
      FoundAt(a, path, i, y);
      FoundAt(a, path, i, z);
      assert Find(b, child.prefix + y) == Find(a, child.prefix + y) && Find(b, child.prefix + z) == Find(a, child.prefix + z);
      PrefixOfFork(other.prefix, child.prefix, y, z);
    }
  }

  /** What starts two keys that part after `p` ends no later than `p`. */
  lemma PrefixOfFork(q: Key, p: Key, y: Key, z: Key)
    requires q <= p + y && q <= p + z && y != [] && z != [] && y[0] != z[0]
    ensures q <= p
  {
    assert (p + y)[|p|] == y[0] && (p + z)[|p|] == z[0];
  }

  lemma {:induction false} FoundAt<V>(n: Node<V>, path: Key, i: nat, y: Key)
    requires WellFormed(n, path) && i < |n.edges|
    ensures
      var child := n.edges[i].node;
      HasEdge(n.edges, n.edges[i].bits) && Position(n.edges, n.edges[i].bits) == i && child.prefix != []
      && Find(n, child.prefix + y) == Find(child, y)
  {
    var child := n.edges[i].node;
    assert EdgeOk(n.edges[i]);
    PositionUnique(n.edges, n.edges[i].bits, i);
    assert (child.prefix + y)[|child.prefix|..] == y;
  }

  /** The two subtrees behind a byte have the same prefix and cannot be told apart either. */
  lemma {:induction false} ChildrenAlike<V>(a: Node<V>, b: Node<V>, path: Key, i: nat)
    requires Alike(a, b, path) && i < |a.edges|
    ensures
      var bits, child := a.edges[i].bits, a.edges[i].node;
      HasEdge(b.edges, bits) &&
      var other := b.edges[Position(b.edges, bits)].node;
      child.prefix == other.prefix && Alike(child, other, path + child.prefix)
  {
    var bits, child := a.edges[i].bits, a.edges[i].node;
    PrefixWithin(a, b, path, i);
    var j := Position(b.edges, bits);
    var other := b.edges[j].node;
    PrefixWithin(b, a, path, j);
    PositionUnique(a.edges, bits, i);
    assert child.prefix == other.prefix;
    forall y ensures Find(child, y) == Find(other, y) {
      FoundAt(a, path, i, y);
      FoundAt(b, path, j, y);
      assert Find(a, child.prefix + y) == Find(b, child.prefix + y);
    }
  }

  /** Sorted lists with the same edges are equal. */
  lemma {:induction false} SortedSame<V>(es: seq<Edge<V>>, fs: seq<Edge<V>>)
    requires Sorted(es) && Sorted(fs) && forall e :: e in es <==> e in fs
    ensures es == fs
    decreases |es|
  {
    assert forall i :: 0 <= i < |fs| ==> fs[i] in fs;
    if es != [] {
      assert es[0] in fs && fs != [] && fs[0] in es;
      assert es[0] == fs[0];
      forall e ensures e in es[1..] <==> e in fs[1..] { assert e in es <==> e in fs; }
      SortedSame(es[1..], fs[1..]);
      assert es == [es[0]] + es[1..] && fs == [fs[0]] + fs[1..];
    }
  }

  /** So they are the same. */
  lemma {:induction false} AlikeIsSame<V>(a: Node<V>, b: Node<V>, path: Key)
    requires Alike(a, b, path) && a.prefix == b.prefix
    ensures a == b
    decreases a
  {
    assert Find(a, []) == Find(b, []);
    assert a.leaf == b.leaf;
    forall e | e in a.edges ensures e in b.edges {
      var i :| 0 <= i < |a.edges| && a.edges[i] == e;
      ChildrenAlike(a, b, path, i);
      AlikeIsSame(e.node, b.edges[Position(b.edges, e.bits)].node, path + e.node.prefix);
    }
    forall e | e in b.edges ensures e in a.edges {
      var j :| 0 <= j < |b.edges| && b.edges[j] == e;
      ChildrenAlike(b, a, path, j);
      var i := Position(a.edges, e.bits);
      ChildrenAlike(a, b, path, i);
      PositionUnique(b.edges, e.bits, j);
      AlikeIsSame(a.edges[i].node, e.node, path + e.node.prefix);
    }
    SortedSame(a.edges, b.edges);
  }

  /** A map has one compact tree: whatever the order of the updates that led to it. */
  lemma CompactIsCanonical<V>(a: State<V>, b: State<V>)
    requires RadixMap.Valid(a) && RadixMap.Valid(b) && Compact(a.root) && Compact(b.root)
    ensures a == b <==> Contents(a.root) == Contents(b.root)
  {
    if Contents(a.root) == Contents(b.root) {
      forall x ensures Find(a.root, x) == Find(b.root, x) {
        FindIsContents(a.root, x);
        FindIsContents(b.root, x);
      }
      AlikeIsSame(a.root, b.root, []);
    }
  }

  // ---------------------------------------------------------------- insert

  /** Insert keeps a tree compact, and never makes a node less needed. */
  lemma {:induction false} InsertKeepsCompact<V>(n: Node<V>, query: Key, s: Key, v: V)
    requires Compact(n)
    ensures
      var n' := InsertAt(n, query, s, v).0;
      Compact(n') && (Needed(n) ==> Needed(n'))
    decreases n
  {
    if query != [] {
      if !HasEdge(n.edges, query[0]) {
        AddCompact(n, Edge(query[0], Node(Some(Leaf(s, v)), query, [])));
      } else {
        var child := n.edges[Position(n.edges, query[0])].node;
        var common := CommonLength(query, child.prefix);
        if common == |child.prefix| {
          InsertKeepsCompact(child, query[common..], s, v);
        } else {
          SplitCompact(child, query, common, Leaf(s, v));
        }
      }
    }
  }

  lemma AddCompact<V>(n: Node<V>, e: Edge<V>)
    requires Compact(n) && Needed(e.node) && Compact(e.node)
    ensures Compact(n.(edges := AddEdge(n.edges, e)))
  {
    var n' := n.(edges := AddEdge(n.edges, e));
    forall j | 0 <= j < |n'.edges| ensures Needed(n'.edges[j].node) && Compact(n'.edges[j].node) { AddedEdge(n.edges, e, j); }
  }

  lemma SplitCompact<V>(child: Node<V>, query: Key, common: nat, leaf: Leaf<V>)
    requires Compact(child) && Needed(child) && common < |child.prefix| && common <= |query|
    ensures Compact(Split(child, query, common, leaf)) && Needed(Split(child, query, common, leaf))
  {
    var lower := Edge(child.prefix[common], child.(prefix := child.prefix[common..]));
    var rest := query[common..];
    assert Needed(lower.node) && Compact(lower.node);
    if rest != [] { AddCompact(Node(None, query[..common], [lower]), Edge(rest[0], Node(Some(leaf), rest, []))); }
  }

  // ---------------------------------------------------------------- remove

  /** What a child must be for its parent to be compact. */
  predicate Kept<V>(n: Node<V>) {
    Needed(n) && Compact(n)
  }

  lemma UpdatedCompact<V>(n: Node<V>, bits: byte, child: Node<V>)
    requires Compact(n) && HasEdge(n.edges, bits)
    ensures
      var n' := n.(edges := UpdateEdge(n.edges, bits, child));
      (Compact(n') <==> Kept(child)) && (Needed(n') <==> Needed(n))
  {
    assert UpdateEdge(n.edges, bits, child)[Position(n.edges, bits)].node == child;
  }

  /**
   * Removing the key leaves a node below the root with one edge and no leaf: the removed node has
   * no edges, and its parent is neither the root nor a leaf and has two edges.
   */
  predicate LeavesChain<V>(n: Node<V>, query: Key, top: bool)
    decreases n
  {
    query != [] && HasEdge(n.edges, query[0]) &&
    var child := n.edges[Position(n.edges, query[0])].node;
    child.prefix <= query &&
    var rest := query[|child.prefix|..];
    if rest == [] then child.leaf.Some? && child.edges == [] && !top && n.leaf.None? && |n.edges| == 2
    else LeavesChain(child, rest, false)
  }

  lemma DroppedCompact<V>(n: Node<V>, bits: byte)
    requires Compact(n) && HasEdge(n.edges, bits)
    ensures Compact(n.(edges := DelEdge(n.edges, bits))) && |DelEdge(n.edges, bits)| == |n.edges| - 1
  {
    var i := Position(n.edges, bits);
    var n' := n.(edges := DelEdge(n.edges, bits));
    forall j | 0 <= j < |n'.edges| ensures n'.edges[j] == n.edges[if j < i then j else j + 1] {}
  }

  lemma StrippedKept<V>(child: Node<V>)
    requires Compact(child) && child.edges != []
    ensures
      var stripped := child.(leaf := None);
      Kept(if |child.edges| == 1 then Join(stripped) else stripped)
  {
    assert Needed(child.edges[0].node) && Compact(child.edges[0].node);
  }

  lemma StrippedHere<V>(n: Node<V>, query: Key, top: bool)
    requires Compact(n) && (top || Needed(n)) && query != [] && HasEdge(n.edges, query[0])
    requires n.edges[Position(n.edges, query[0])].node.prefix == query
    requires n.edges[Position(n.edges, query[0])].node.leaf.Some?
    ensures
      var n' := n.(edges := Strip(n.edges, query[0]));
      Compact(n') && (top || (Needed(n') <==> !LeavesChain(n, query, top)))
  {
    var child := n.edges[Position(n.edges, query[0])].node;
    assert query[|child.prefix|..] == [];
    if child.edges == [] {
      DroppedCompact(n, query[0]);
    } else {
      StrippedKept(child);
      var stripped := child.(leaf := None);
      UpdatedCompact(n, query[0], if |child.edges| == 1 then Join(stripped) else stripped);
    }
  }

  lemma {:induction false} RemoveBelowCompact<V>(n: Node<V>, query: Key, top: bool)
    requires Compact(n) && query != [] && (top || Needed(n))
    ensures
      var n' := RemoveBelow(n, query).0;
      (if top then Compact(n') else Kept(n')) <==> !LeavesChain(n, query, top)
    decreases n
  {
    if HasEdge(n.edges, query[0]) {
      var child := n.edges[Position(n.edges, query[0])].node;
      if child.prefix <= query {
        var rest := query[|child.prefix|..];
        if rest == [] {
          assert child.prefix == query;
          if child.leaf.Some? { StrippedHere(n, query, top); }
        } else {
          RemoveBelowCompact(child, rest, false);
          UpdatedCompact(n, query[0], RemoveBelow(child, rest).0);
        }
      }
    }
  }

  /** Remove keeps a tree compact exactly unless it takes one of two edges of a leafless inner node. */
  lemma RemoveKeepsCompactIff<V>(root: Node<V>, s: Key)
    requires Compact(root)
    ensures Compact(RemoveAt(root, s).0) <==> !LeavesChain(root, s, true)
  {
    if s != [] { RemoveBelowCompact(root, s, true); }
  }

  // ---------------------------------------------------------------- removePrefix

  lemma {:induction false} PrefixCompact<V>(n: Node<V>, prefix: Key, top: bool)
    requires Compact(n) && (top || Needed(n)) && (top ==> prefix != [])
    ensures
      var (n', count) := RemovePrefixAt(n, prefix, top);
      if count == 0 then n' == n else if top then !Compact(n') else !Kept(n')
    decreases n
  {
    if prefix == [] {
      NeededHasLeaf(n);
    } else if HasEdge(n.edges, prefix[0]) {
      var bits := prefix[0];
      var child := n.edges[Position(n.edges, bits)].node;
      if prefix <= child.prefix || child.prefix <= prefix {
        var rest := if |child.prefix| > |prefix| then [] else prefix[|child.prefix|..];
        PrefixCompact(child, rest, false);
        UpdatedCompact(n, bits, RemovePrefixAt(child, rest, false).0);
        if rest == [] { NeededHasLeaf(child); }
      }
    }
  }

  /** removePrefix keeps a tree compact exactly if it empties all of it or nothing is under the prefix. */
  lemma RemovePrefixKeepsCompactIff<V>(root: Node<V>, p: Key)
    requires WellFormed(root, []) && root.prefix == [] && Compact(root)
    ensures Compact(RemovePrefixAt(root, p, true).0) <==> p == [] || forall k :: k in Contents(root) ==> !(p <= k)
  {
    CompactIsPopulated(root);
    RemovePrefixKeepsPopulatedIff(root, p);
    if p != [] {
      PrefixCompact(root, p, true);
      PrefixAlive(root, p, true);
    }
  }

  // ---------------------------------------------------------------- whole sequences of updates

  ghost predicate TidyOp<V>(t: State<V>, op: Op<V>) {
    match op
    case Insert(s, v) => true
    case Remove(s) => !LeavesChain(t.root, s, true)
    case RemovePrefix(p) => p == [] || forall k :: k in Contents(t.root) ==> !(p <= k)
  }

  ghost predicate Tidy<V>(t: State<V>, ops: seq<Op<V>>)
    decreases |ops|
  {
    ops == [] || (TidyOp(t, ops[0]) && Tidy(Do(t, ops[0]).0, ops[1..]))
  }

  /** An update of a compact tree keeps it compact exactly if it is tidy. */
  lemma TidyIff<V>(t: State<V>, op: Op<V>)
    requires RadixMap.Valid(t) && Compact(t.root)
    ensures Compact(Do(t, op).0.root) <==> TidyOp(t, op)
  {
    match op
    case Insert(s, v) => InsertKeepsCompact(t.root, s, s, v);
    case Remove(s) => RemoveKeepsCompactIff(t.root, s);
    case RemovePrefix(p) => RemovePrefixKeepsCompactIff(t.root, p);
  }

  lemma {:induction false} TidyRun<V>(t: State<V>, ops: seq<Op<V>>)
    requires RadixMap.Valid(t) && Compact(t.root) && Tidy(t, ops)
    ensures
      var t' := Run(t, ops).0;
      RadixMap.Valid(t') && Compact(t'.root) && Contents(t'.root) == RunMap(Contents(t.root), ops).0
    decreases |ops|
  {
    TreeIsAMap(t, ops);
    if ops != [] {
      UpdateRefines(t, ops[0]);
      TidyIff(t, ops[0]);
      TidyRun(Do(t, ops[0]).0, ops[1..]);
    }
  }

  /**
   * The history does not show: two tidy sequences of updates, inserts in two orders for one, end
   * in the same tree exactly if they end in the same map.
   */
  lemma HistoryDoesNotShow<V>(t: State<V>, a: seq<Op<V>>, b: seq<Op<V>>)
    requires RadixMap.Valid(t) && Compact(t.root) && Tidy(t, a) && Tidy(t, b)
    ensures Run(t, a).0 == Run(t, b).0 <==> RunMap(Contents(t.root), a).0 == RunMap(Contents(t.root), b).0
  {
    TidyRun(t, a);
    TidyRun(t, b);
    CompactIsCanonical(Run(t, a).0, Run(t, b).0);
  }

  lemma {:induction false} InsertsAreTidy<V>(t: State<V>, ops: seq<Op<V>>)
    requires forall i :: 0 <= i < |ops| ==> ops[i].Insert?
    ensures Tidy(t, ops)
    decreases |ops|
  {
    if ops != [] { InsertsAreTidy(Do(t, ops[0]).0, ops[1..]); }
  }

  // ---------------------------------------------------------------- what removal leaves behind

  lemma ForkIsCompact()
    ensures Compact(Fork([AB, AC])) && !Compact(Fork([AC]))
  {
    assert Fork([AC]).edges[0].node == Node(None, [97], [AC]);
    var inner := Fork([AB, AC]).edges[0].node;
    forall i | 0 <= i < |inner.edges| ensures Needed(inner.edges[i].node) && Compact(inner.edges[i].node) {}
  }

  /** With "ab" gone from "ab", "ac" and "b", the node of "a" stays, with the one edge to "c". */
  lemma RemoveLeavesAChain()
    ensures Run(EMPTY, [Insert([97, 98], 1), Insert([97, 99], 3), Insert([98], 2)]).0 == State(Fork([AB, AC]), 3)
    ensures Do(State(Fork([AB, AC]), 3), Remove([97, 98])).0 == State(Fork([AC]), 2)
    ensures Compact(Fork([AB, AC])) && !Compact(Fork([AC]))
  {
    BuildFork();
    ForkEmpties();
    ForkIsCompact();
  }

  /** With "ac" cut away then, that node takes over what is left of it. */
  lemma CuttingJoins()
    ensures
      RemovePrefixAt(Fork([AC]), [97, 99], true)
        == (Node(None, [], [Edge(97, Node(None, [97, 99], [])), Edge(98, Single([98], [98], 2))]), 1)
  {
    var p: Key := [97, 99];
    var es := Fork([AC]).edges;
    assert p[1..] == [99] && Position(es, 97) == 0 && HasEdge(es, 97);
    CutBelow();
    assert UpdateEdge(es, 97, Node(None, [97, 99], [])) == [Edge(97, Node(None, [97, 99], [])), Edge(98, Single([98], [98], 2))];
  }

  lemma CutBelow()
    ensures RemovePrefixAt(Node(None, [97], [AC]), [99], false) == (Node(None, [97, 99], []), 1)
  {
    var inner := Node(None, [97], [AC]);
    var p: Key := [99];
    var gone: Node<int> := Node(None, [99], []);
    assert Leaves(AC.node) == [Leaf([97, 99], 3)];
    assert p[1..] == [] && Position([AC], 99) == 0 && HasEdge([AC], 99);
    assert RemovePrefixAt(AC.node, [], false) == (gone, 1);
    assert UpdateEdge([AC], 99, gone) == [Edge(99, gone)];
    assert Join(inner.(edges := [Edge(99, gone)])) == Node(None, [97, 99], []);
  }
}
