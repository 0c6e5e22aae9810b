/** What the read-only queries compute: longest prefix, minimum, maximum and the leaves under a prefix. */
module RadixQueries {
  import opened Basics
  import opened RadixKeys
  import opened RadixEdges
  import opened RadixTree
  import opened RadixUpdate
  import opened RadixWalk

  // ---------------------------------------------------------------- longest prefix

  /** The deepest leaf on the way down. */
  function Deepest<V>(n: Node<V>, query: Key): Option<Leaf<V>>
    decreases n
  {
    if query == [] || !HasEdge(n.edges, query[0]) then n.leaf
    else
      var child := n.edges[Position(n.edges, query[0])].node;
      if !(child.prefix <= query) then n.leaf
      else
        var below := Deepest(child, query[|child.prefix|..]);
        if below.Some? then below else n.leaf
  }

  /** It is a stored leaf whose key is a prefix of the query. */
  lemma {:induction false} DeepestIsLeaf<V>(n: Node<V>, path: Key, query: Key)
    requires WellFormed(n, path) && Deepest(n, query).Some?
    ensures Deepest(n, query).value in Leaves(n)
    ensures Deepest(n, query).value.key <= path + query
    decreases n
  {
    if query != [] && HasEdge(n.edges, query[0]) {
      var i := Position(n.edges, query[0]);
      var child := n.edges[i].node;
      if child.prefix <= query && Deepest(child, query[|child.prefix|..]).Some? {
        var rest := query[|child.prefix|..];
        ChildOk(n, path, query[0]);
        PathSplit(path, query, |child.prefix|);
        assert query[..|child.prefix|] == child.prefix;
        DeepestIsLeaf(child, path + child.prefix, rest);
        LeafOfEdge(n.edges, i, Deepest(child, rest).value);
      } else {
        assert Deepest(n, query) == n.leaf;
      }
    }
  }

  /** No stored prefix of the query is longer. */
  lemma {:induction false} DeepestIsLongest<V>(n: Node<V>, path: Key, query: Key, x: Key)
    requires WellFormed(n, path) && x <= query && Find(n, x).Some?
    ensures Deepest(n, query).Some? && |path| + |x| <= |Deepest(n, query).value.key|
    decreases n
  {
    if x == [] {
      if Deepest(n, query) != n.leaf {
        var child := n.edges[Position(n.edges, query[0])].node;
        ChildOk(n, path, query[0]);
        var rest := query[|child.prefix|..];
        DeepestIsLeaf(child, path + child.prefix, rest);
        LeavesUnderPath(child, path + child.prefix, Deepest(child, rest).value);
      }
    } else {
      FindIsBelow(n, x);
      ChildOk(n, path, x[0]);
      var child := n.edges[Position(n.edges, x[0])].node;
      assert child.prefix <= x <= query;
      DeepestIsLongest(child, path + child.prefix, query[|child.prefix|..], x[|child.prefix|..]);
    }
  }

  /** The longest key of a map that is a prefix of `s`, or none exactly when no key is one. */
  ghost predicate LongestOf<V>(m: map<Key, V>, s: Key, r: Option<Leaf<V>>) {
    && (r == None <==> forall k :: k in m ==> !(k <= s))
    && (r.Some? ==> r.value.key in m && r.value.key <= s && m[r.value.key] == r.value.val)
    && (r.Some? ==> forall k :: k in m && k <= s ==> |k| <= |r.value.key|)
  }

  lemma LongestMeaning<V>(root: Node<V>, s: Key)
    requires WellFormed(root, [])
    ensures LongestOf(Contents(root), s, Deepest(root, s))
  {
    var r := Deepest(root, s);
    if r.Some? { LongestIsStored(root, s); }
    forall k | k in Contents(root) && k <= s ensures r.Some? && |k| <= |r.value.key| {
      LongestCovers(root, s, k);
    }
  }

  lemma LongestIsStored<V>(root: Node<V>, s: Key)
    requires WellFormed(root, []) && Deepest(root, s).Some?
    ensures
      var l := Deepest(root, s).value;
      l.key in Contents(root) && l.key <= s && Contents(root)[l.key] == l.val
  {
    DeepestIsLeaf(root, [], s);
    LeavesIncrease(root, []);
    ToMapExact(Leaves(root));
    assert [] + s == s;
  }

  lemma LongestCovers<V>(root: Node<V>, s: Key, k: Key)
    requires WellFormed(root, []) && k in Contents(root) && k <= s
    ensures Deepest(root, s).Some? && |k| <= |Deepest(root, s).value.key|
  {
    FindIsContents(root, k);
    DeepestIsLongest(root, [], s, k);
  }

  // ---------------------------------------------------------------- minimum and maximum

  function Leftmost<V>(n: Node<V>): Option<Leaf<V>>
    decreases n
  {
    if n.leaf.Some? then n.leaf else if n.edges == [] then None else Leftmost(n.edges[0].node)
  }

  function Rightmost<V>(n: Node<V>): Option<Leaf<V>>
    decreases n
  {
    if n.edges != [] then Rightmost(n.edges[|n.edges| - 1].node) else n.leaf
  }

  function First<V>(ls: seq<Leaf<V>>): Option<Leaf<V>> {
    if ls == [] then None else Some(ls[0])
  }

  function Last<V>(ls: seq<Leaf<V>>): Option<Leaf<V>> {
    if ls == [] then None else Some(ls[|ls| - 1])
  }

  /** On the leftmost path, above any leaf, hangs a subtree without leaves. */
  predicate LeftStub<V>(n: Node<V>)
    decreases n
  {
    n.leaf.None? && n.edges != [] && (Leaves(n.edges[0].node) == [] || LeftStub(n.edges[0].node))
  }

  /** On the rightmost path hangs a subtree without leaves. */
  predicate RightStub<V>(n: Node<V>)
    decreases n
  {
    n.edges != [] && var last := n.edges[|n.edges| - 1].node;
    Leaves(last) == [] || RightStub(last)
  }

  lemma {:induction false} LeftmostIsFirst<V>(n: Node<V>)
    ensures Leftmost(n) == if LeftStub(n) then None else First(Leaves(n))
    decreases n
  {
    if n.leaf.None? && n.edges != [] {
      LeftmostIsFirst(n.edges[0].node);
      assert EdgeLeaves(n.edges) == LeavesBehind(n.edges[0]) + EdgeLeaves(n.edges[1..]);
    }
  }

  lemma {:induction false} RightmostIsLast<V>(n: Node<V>)
    ensures Rightmost(n) == if RightStub(n) then None else Last(Leaves(n))
    decreases n
  {
    if n.edges != [] {
      var m := |n.edges| - 1;
      RightmostIsLast(n.edges[m].node);
      LeavesSoFar(n, m);
      assert n.edges[m + 1..] == [];
    }
  }

  /** The leaf with the smallest key of the map; none for the empty map. */
  ghost predicate LeastOf<V>(m: map<Key, V>, r: Option<Leaf<V>>) {
    && (r == None <==> m == map[])
    && (r.Some? ==> r.value.key in m && m[r.value.key] == r.value.val)
    && (r.Some? ==> forall k :: k in m ==> k == r.value.key || Less(r.value.key, k))
  }

  /** The leaf with the largest key of the map; none for the empty map. */
  ghost predicate GreatestOf<V>(m: map<Key, V>, r: Option<Leaf<V>>) {
    && (r == None <==> m == map[])
    && (r.Some? ==> r.value.key in m && m[r.value.key] == r.value.val)
    && (r.Some? ==> forall k :: k in m ==> k == r.value.key || Less(k, r.value.key))
  }

  /** The ends of an increasing list are the smallest and the largest key. */
  lemma {:induction false} EndsOfList<V>(ls: seq<Leaf<V>>)
    requires Increasing(ls)
    ensures LeastOf(ToMap(ls), First(ls)) && GreatestOf(ToMap(ls), Last(ls))
  {
    ToMapExact(ls);
    var m := ToMap(ls);
    if ls != [] {
      assert ls[0] in ls && ls[|ls| - 1] in ls;
      forall k | k in m ensures (k == ls[0].key || Less(ls[0].key, k)) && (k == ls[|ls| - 1].key || Less(k, ls[|ls| - 1].key)) {
        assert Leaf(k, m[k]) in ls;
      }
    }
  }

  /** The ends of the walk are the smallest and the largest key of the map. */
  lemma {:induction false} EndsOfWalk<V>(root: Node<V>)
    requires WellFormed(root, [])
    ensures LeastOf(Contents(root), First(Leaves(root))) && GreatestOf(Contents(root), Last(Leaves(root)))
  {
    LeavesIncrease(root, []);
    EndsOfList(Leaves(root));
  }

  /** Min finds the smallest key exactly when the map is empty or no empty subtree is on its way. */
  lemma MinIsLeastIff<V>(root: Node<V>)
    requires WellFormed(root, [])
    ensures LeastOf(Contents(root), Leftmost(root)) <==> Contents(root) == map[] || !LeftStub(root)
  {
    EndsOfWalk(root);
    LeftmostIsFirst(root);
    ContentsSize(root);
  }

  /** Max finds the largest key exactly when the map is empty or no empty subtree is on its way. */
  lemma MaxIsGreatestIff<V>(root: Node<V>)
    requires WellFormed(root, [])
    ensures GreatestOf(Contents(root), Rightmost(root)) <==> Contents(root) == map[] || !RightStub(root)
  {
    EndsOfWalk(root);
    RightmostIsLast(root);
    ContentsSize(root);
  }

  /** Every node but the one at the top has a leaf below it. */
  predicate Populated<V>(n: Node<V>)
    decreases n
  {
    forall i :: 0 <= i < |n.edges| ==> Leaves(n.edges[i].node) != [] && Populated(n.edges[i].node)
  }

  lemma {:induction false} PopulatedHasNoStub<V>(n: Node<V>)
    requires Populated(n)
    ensures !LeftStub(n) && !RightStub(n)
    decreases n
  {
    if n.edges != [] {
      PopulatedHasNoStub(n.edges[0].node);
      PopulatedHasNoStub(n.edges[|n.edges| - 1].node);
    }
  }

  /** In a populated tree Min and Max are the smallest and the largest key. */
  lemma EndsOfPopulated<V>(root: Node<V>)
    requires WellFormed(root, []) && Populated(root)
    ensures LeastOf(Contents(root), Leftmost(root)) && GreatestOf(Contents(root), Rightmost(root))
  {
    PopulatedHasNoStub(root);
    MinIsLeastIff(root);
    MaxIsGreatestIff(root);
  }

  // ---------------------------------------------------------------- walking a prefix

  function Under<V>(ls: seq<Leaf<V>>, prefix: Key): seq<Leaf<V>> {
    if ls == [] then [] else (if prefix <= ls[0].key then [ls[0]] else []) + Under(ls[1..], prefix)
  }

  /** The leaves under a prefix are all of those with it and only those, still in order. */
  lemma {:induction false} UnderExact<V>(ls: seq<Leaf<V>>, prefix: Key)
    requires Increasing(ls)
    ensures Increasing(Under(ls, prefix))
    ensures forall l :: l in Under(ls, prefix) ==> l in ls && prefix <= l.key
    ensures forall l :: l in ls && prefix <= l.key ==> l in Under(ls, prefix)
    decreases |ls|
  {
    if ls != [] {
      var tail := ls[1..];
      var more := Under(tail, prefix);
      assert ls == [ls[0]] + tail;
      UnderExact(tail, prefix);
      forall l | l in more ensures Less(ls[0].key, l.key) {
        assert l in tail;
        var i :| 0 <= i < |tail| && tail[i] == l;
        assert ls[i + 1] == l;
      }
    }
  }

  lemma {:induction false} UnderSplit<V>(a: seq<Leaf<V>>, b: seq<Leaf<V>>, prefix: Key)
    ensures Under(a + b, prefix) == Under(a, prefix) + Under(b, prefix)
    decreases |a|
  {
    if a == [] {
      assert a + b == b;
    } else {
      assert (a + b)[1..] == a[1..] + b;
      UnderSplit(a[1..], b, prefix);
    }
  }

  lemma {:induction false} UnderAll<V>(ls: seq<Leaf<V>>, prefix: Key)
    requires forall l :: l in ls ==> prefix <= l.key
    ensures Under(ls, prefix) == ls
    decreases |ls|
  {
    if ls != [] {
      assert ls[0] in ls;
      UnderAll(ls[1..], prefix);
      assert ls == [ls[0]] + ls[1..];
    }
  }

  lemma {:induction false} UnderNone<V>(ls: seq<Leaf<V>>, prefix: Key)
    requires forall l :: l in ls ==> !(prefix <= l.key)
    ensures Under(ls, prefix) == []
    decreases |ls|
  {
    if ls != [] {
      assert ls[0] in ls;
      UnderNone(ls[1..], prefix);
    }
  }

  /** No leaf behind an edge with another first byte lies under the prefix. */
  lemma OtherEdge<V>(e: Edge<V>, path: Key, search: Key, l: Leaf<V>)
    requires EdgeOk(e) && WellFormed(e.node, path + e.node.prefix) && search != [] && e.bits != search[0]
    requires l in Leaves(e.node)
    ensures !(path + search <= l.key)
  {
    LeavesUnderPath(e.node, path + e.node.prefix, l);
    assert l.key[|path|] == (path + e.node.prefix)[|path|] == e.bits;
    assert (path + search)[|path|] == search[0];
  }

  /** Nor is anything behind edges with other first bytes. */
  lemma OthersAreNotUnder<V>(es: seq<Edge<V>>, path: Key, search: Key)
    requires EdgesOk(es, path) && search != []
    requires forall i :: 0 <= i < |es| ==> es[i].bits != search[0]
    ensures Under(EdgeLeaves(es), path + search) == []
  {
    forall l | l in EdgeLeaves(es) ensures !(path + search <= l.key) {
      var j := EdgeOfLeaf(es, l);
      OtherEdge(es[j], path, search, l);
    }
    UnderNone(EdgeLeaves(es), path + search);
  }

  lemma UnderFour<V>(a: seq<Leaf<V>>, b: seq<Leaf<V>>, c: seq<Leaf<V>>, d: seq<Leaf<V>>, prefix: Key)
    requires Under(a, prefix) == [] && Under(b, prefix) == [] && Under(d, prefix) == []
    ensures Under(a + b + c + d, prefix) == Under(c, prefix)
  {
    UnderSplit(a + b + c, d, prefix);
    UnderSplit(a + b, c, prefix);
    UnderSplit(a, b, prefix);
  }

  lemma UnderTwo<V>(a: seq<Leaf<V>>, b: seq<Leaf<V>>, prefix: Key)
    requires Under(a, prefix) == [] && Under(b, prefix) == []
    ensures Under(a + b, prefix) == []
  {
    UnderSplit(a, b, prefix);
  }

  lemma SidesAreNotUnder<V>(es: seq<Edge<V>>, path: Key, search: Key)
    requires EdgesOk(es, path) && search != [] && HasEdge(es, search[0])
    ensures
      var i := Position(es, search[0]);
      && Under(EdgeLeaves(es[..i]), path + search) == []
      && Under(EdgeLeaves(es[i + 1..]), path + search) == []
  {
    var i := Position(es, search[0]);
    OthersDiffer(es, search[0]);
    OthersAreNotUnder(es[..i], path, search);
    OthersAreNotUnder(es[i + 1..], path, search);
  }

  /** Only the child the first byte selects can hold leaves under the prefix. */
  lemma UnderIsBelowChild<V>(n: Node<V>, path: Key, search: Key)
    requires WellFormed(n, path) && search != [] && HasEdge(n.edges, search[0])
    ensures Under(Leaves(n), path + search)
            == Under(Leaves(n.edges[Position(n.edges, search[0])].node), path + search)
  {
    var i := Position(n.edges, search[0]);
    SidesAreNotUnder(n.edges, path, search);
    LeavesSoFar(n, i);
    var here := Leaves(n.edges[i].node);
    UnderFour(Own(n.leaf), EdgeLeaves(n.edges[..i]), here, EdgeLeaves(n.edges[i + 1..]), path + search);
    assert Under(Own(n.leaf), path + search) == [];
    assert Under(Leaves(n), path + search) == Under(here, path + search);
  }

  lemma UnderIsEmpty<V>(n: Node<V>, path: Key, search: Key)
    requires WellFormed(n, path) && search != [] && !HasEdge(n.edges, search[0])
    ensures Under(Leaves(n), path + search) == []
  {
    OthersAreNotUnder(n.edges, path, search);
    UnderTwo(Own(n.leaf), EdgeLeaves(n.edges), path + search);
  }

  lemma BothUnder(path: Key, a: Key, b: Key, x: Key)
    requires path + a <= x && path + b <= x
    ensures a <= b || b <= a
  {
    if path + a <= path + b { PrefixCancel(path, a, b); } else { PrefixCancel(path, b, a); }
  }

  /** A child whose prefix goes another way holds nothing under the search. */
  lemma Diverges<V>(child: Node<V>, path: Key, search: Key)
    requires WellFormed(child, path + child.prefix)
    requires !(child.prefix <= search) && !(search <= child.prefix)
    ensures Under(Leaves(child), path + search) == []
  {
    forall l | l in Leaves(child) ensures !(path + search <= l.key) {
      LeavesUnderPath(child, path + child.prefix, l);
      if path + search <= l.key { BothUnder(path, search, child.prefix, l.key); }
    }
    UnderNone(Leaves(child), path + search);
  }

  lemma Covers<V>(n: Node<V>, path: Key, prefix: Key)
    requires WellFormed(n, path) && prefix <= path
    ensures Under(Leaves(n), prefix) == Leaves(n)
  {
    forall l | l in Leaves(n) ensures prefix <= l.key { LeavesUnderPath(n, path, l); }
    UnderAll(Leaves(n), prefix);
  }

  /** What one step down the walk does to the part of the prefix that is left. */
  lemma StepDown<V>(n: Node<V>, path: Key, search: Key, prefix: Key)
    requires WellFormed(n, path) && search != [] && path + search == prefix && HasEdge(n.edges, search[0])
    ensures
      var child := n.edges[Position(n.edges, search[0])].node;
      && WellFormed(child, path + child.prefix)
      && (child.prefix <= search ==>
            && path + child.prefix + search[|child.prefix|..] == prefix
            && Under(Leaves(n), prefix) == Under(Leaves(child), prefix))
      && (!(child.prefix <= search) && search <= child.prefix ==> Under(Leaves(n), prefix) == Leaves(child))
      && (!(child.prefix <= search) && !(search <= child.prefix) ==> Under(Leaves(n), prefix) == [])
  {
    ChildOk(n, path, search[0]);
    UnderIsBelowChild(n, path, search);
    var child := n.edges[Position(n.edges, search[0])].node;
    if child.prefix <= search {
      assert search == child.prefix + search[|child.prefix|..];
    } else if search <= child.prefix {
      assert child.prefix == search + child.prefix[|search|..];
      assert path + child.prefix == prefix + child.prefix[|search|..];
      Covers(child, path + child.prefix, prefix);
    } else {
      Diverges(child, path, search);
    }
  }
}
