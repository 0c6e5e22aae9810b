/** The order of the leaves, the map they form, and the walks over them. */
module RadixWalk {
  import opened Basics
  import opened RadixKeys
  import opened RadixEdges
  import opened RadixTree

  // ---------------------------------------------------------------- order

  lemma {:induction false} LeavesIncrease<V>(n: Node<V>, path: Key)
    requires WellFormed(n, path)
    ensures Increasing(Leaves(n))
    decreases n, |n.edges| + 1
  {
    EdgeLeavesIncrease(n, path, 0);
    assert n.edges[0..] == n.edges;
    forall l | l in EdgeLeaves(n.edges) && n.leaf.Some? ensures Less(path, l.key) {
      var i := EdgeOfLeaf(n.edges, l);
      var child := n.edges[i].node;
      LeavesUnderPath(child, path + child.prefix, l);
      var rest := l.key[|path|..];
      assert l.key == path + rest && rest != [];
      LessUnderPrefix(path, [], rest);
      assert path + [] == path;
    }
  }

  lemma {:induction false} EdgeLeavesIncrease<V>(n: Node<V>, path: Key, i: nat)
    requires WellFormed(n, path) && i <= |n.edges|
    ensures Increasing(EdgeLeaves(n.edges[i..]))
    decreases n, |n.edges| - i
  {
    if i < |n.edges| {
      var es := n.edges[i..];
      assert es[1..] == n.edges[i + 1..] && es[0] == n.edges[i];
      LeavesIncrease(n.edges[i].node, path + n.edges[i].node.prefix);
      EdgeLeavesIncrease(n, path, i + 1);
      forall a, b | a in Leaves(n.edges[i].node) && b in EdgeLeaves(n.edges[i + 1..]) ensures Less(a.key, b.key) {
        var j := EdgeOfLeaf(n.edges[i + 1..], b);
        EarlierEdgeIsLess(n, path, i, i + 1 + j, a, b);
      }
      IncreasingConcat(Leaves(n.edges[i].node), EdgeLeaves(n.edges[i + 1..]));
    }
  }

  lemma IncreasingConcat<V>(a: seq<Leaf<V>>, b: seq<Leaf<V>>)
    requires Increasing(a) && Increasing(b) && forall x, y :: x in a && y in b ==> Less(x.key, y.key)
    ensures Increasing(a + b)
  {
    forall i, j | 0 <= i < j < |a + b| ensures Less((a + b)[i].key, (a + b)[j].key) {
      if i < |a| && |a| <= j { assert a[i] in a && b[j - |a|] in b; }
    }
  }

  lemma EarlierEdgeIsLess<V>(n: Node<V>, path: Key, i: nat, j: nat, a: Leaf<V>, b: Leaf<V>)
    requires WellFormed(n, path) && i < j < |n.edges|
    requires a in Leaves(n.edges[i].node) && b in Leaves(n.edges[j].node)
    ensures Less(a.key, b.key)
  {
    assert EdgeOk(n.edges[i]) && EdgeOk(n.edges[j]);
    LeavesUnderPath(n.edges[i].node, path + n.edges[i].node.prefix, a);
    LeavesUnderPath(n.edges[j].node, path + n.edges[j].node.prefix, b);
    var x, y := a.key[|path|..], b.key[|path|..];
    assert a.key == path + x && b.key == path + y;
    assert x[0] == a.key[|path|] == n.edges[i].bits && y[0] == b.key[|path|] == n.edges[j].bits;
    LessUnderPrefix(path, x, y);
  }

  // ---------------------------------------------------------------- the map

  function ToMap<V>(ls: seq<Leaf<V>>): map<Key, V> {
    if ls == [] then map[] else ToMap(ls[..|ls| - 1])[ls[|ls| - 1].key := ls[|ls| - 1].val]
  }

  /** The key of the last of increasing leaves is no other's. */
  lemma LastKeyIsNew<V>(front: seq<Leaf<V>>, last: Leaf<V>, l: Leaf<V>)
    requires Increasing(front + [last]) && l in front
    ensures l.key != last.key
  {
    var i :| 0 <= i < |front| && front[i] == l;
    assert (front + [last])[i] == l && (front + [last])[|front|] == last;
    LessIsIrreflexive(l.key);
  }

  lemma FrontIncreases<V>(front: seq<Leaf<V>>, last: Leaf<V>)
    requires Increasing(front + [last])
    ensures Increasing(front)
  {
    assert forall i :: 0 <= i < |front| ==> front[i] == (front + [last])[i];
  }

  /** Increasing leaves have distinct keys, so the map has one key per leaf. */
  lemma {:induction false} ToMapExact<V>(ls: seq<Leaf<V>>)
    requires Increasing(ls)
    ensures |ToMap(ls)| == |ls|
    ensures forall k :: k in ToMap(ls) ==> Leaf(k, ToMap(ls)[k]) in ls
    ensures forall l :: l in ls ==> l.key in ToMap(ls) && ToMap(ls)[l.key] == l.val
    decreases |ls|
  {
    if ls != [] {
      var front, last := ls[..|ls| - 1], ls[|ls| - 1];
      assert ls == front + [last];
      FrontIncreases(front, last);
      ToMapExact(front);
      forall l | l in front ensures l.key != last.key { LastKeyIsNew(front, last, l); }
      OneMoreKey(front, last, ToMap(front));
    }
  }

  /** The step: a map of the front and one new key. */
  lemma OneMoreKey<V>(front: seq<Leaf<V>>, last: Leaf<V>, m: map<Key, V>)
    requires |m| == |front| && forall l :: l in front ==> l.key != last.key
    requires forall k :: k in m ==> Leaf(k, m[k]) in front
    requires forall l :: l in front ==> l.key in m && m[l.key] == l.val
    ensures
      var m', ls := m[last.key := last.val], front + [last];
      && |m'| == |ls|
      && (forall k :: k in m' ==> Leaf(k, m'[k]) in ls)
      && (forall l :: l in ls ==> l.key in m' && m'[l.key] == l.val)
  {
    assert last.key !in m;
  }

  /** The finite map a tree stands for. */
  ghost function Contents<V>(n: Node<V>): map<Key, V> {
    ToMap(Leaves(n))
  }

  /** Under lookup the tree is its finite map. */
  lemma FindIsContents<V>(root: Node<V>, k: Key)
    requires WellFormed(root, [])
    ensures Find(root, k) == if k in Contents(root) then Some(Contents(root)[k]) else None
  {
    LeavesIncrease(root, []);
    ToMapExact(Leaves(root));
    assert [] + k == k;
    if k in Contents(root) {
      FindMeansLeaf(root, [], k, Contents(root)[k]);
    } else if Find(root, k).Some? {
      FindMeansLeaf(root, [], k, Find(root, k).value);
    }
  }

  lemma ContentsSize<V>(root: Node<V>)
    requires WellFormed(root, [])
    ensures |Contents(root)| == |Leaves(root)|
  {
    LeavesIncrease(root, []);
    ToMapExact(Leaves(root));
  }

  // ---------------------------------------------------------------- walking

  /** The leaves a walk visits before its callback stops it, and whether it did. */
  function Visit<V>(ls: seq<Leaf<V>>, stop: (Key, V) -> bool): (seq<Leaf<V>>, bool) {
    if ls == [] then ([], false)
    else if stop(ls[0].key, ls[0].val) then ([ls[0]], true)
    else
      var (more, stopped) := Visit(ls[1..], stop);
      ([ls[0]] + more, stopped)
  }

  lemma {:induction false} VisitSplit<V>(a: seq<Leaf<V>>, b: seq<Leaf<V>>, stop: (Key, V) -> bool)
    ensures Visit(a + b, stop)
         == if Visit(a, stop).1 then Visit(a, stop) else (a + Visit(b, stop).0, Visit(b, stop).1)
    ensures !Visit(a, stop).1 ==> Visit(a, stop).0 == a
    decreases |a|
  {
    if a == [] {
      assert a + b == b && a + Visit(b, stop).0 == Visit(b, stop).0;
    } else {
      assert (a + b)[1..] == a[1..] + b;
      VisitSplit(a[1..], b, stop);
      assert a == [a[0]] + a[1..];
      if !Visit(a, stop).1 {
        assert [a[0]] + (a[1..] + Visit(b, stop).0) == a + Visit(b, stop).0;
      }
    }
  }

  /** A visit is a prefix of the list, all of it unless the callback stopped it at the last one. */
  lemma {:induction false} VisitIsPrefix<V>(ls: seq<Leaf<V>>, stop: (Key, V) -> bool)
    ensures
      var (seen, stopped) := Visit(ls, stop);
      && seen <= ls
      && (stopped ==> seen != [] && stop(seen[|seen| - 1].key, seen[|seen| - 1].val))
      && (!stopped ==> seen == ls)
      && forall i :: 0 <= i < |seen| - (if stopped then 1 else 0) ==> !stop(seen[i].key, seen[i].val)
    decreases |ls|
  {
    if ls != [] { VisitIsPrefix(ls[1..], stop); }
  }

  /** The walk has passed the node's own leaf and the first `i` edges without being stopped. */
  ghost predicate SeenAll<V>(n: Node<V>, i: nat, seen: seq<Leaf<V>>, stop: (Key, V) -> bool)
    requires i <= |n.edges|
  {
    seen == Own(n.leaf) + EdgeLeaves(n.edges[..i]) && Visit(seen, stop) == (seen, false)
  }

  lemma {:induction false} WalkEdge<V>(n: Node<V>, i: nat, seen: seq<Leaf<V>>, stop: (Key, V) -> bool)
    requires i < |n.edges| && SeenAll(n, i, seen, stop)
    ensures
      var (more, halt) := Visit(Leaves(n.edges[i].node), stop);
      if halt then Visit(Leaves(n), stop) == (seen + more, true) else SeenAll(n, i + 1, seen + more, stop)
  {
    var here, after := Leaves(n.edges[i].node), EdgeLeaves(n.edges[i + 1..]);
    LeavesSoFar(n, i);
    VisitSplit(seen, here, stop);
    VisitSplit(here, [], stop);
    assert Leaves(n) == (seen + here) + after;
    VisitSplit(seen + here, after, stop);
    assert Own(n.leaf) + (EdgeLeaves(n.edges[..i]) + here) == seen + here;
  }

  lemma {:induction false} LeavesSoFar<V>(n: Node<V>, i: nat)
    requires i < |n.edges|
    ensures EdgeLeaves(n.edges[..i + 1]) == EdgeLeaves(n.edges[..i]) + Leaves(n.edges[i].node)
    ensures Leaves(n) == Own(n.leaf) + EdgeLeaves(n.edges[..i]) + Leaves(n.edges[i].node) + EdgeLeaves(n.edges[i + 1..])
  {
    var e := n.edges[i];
    assert n.edges[..i + 1] == n.edges[..i] + [e];
    EdgeLeavesSplit(n.edges[..i], [e]);
    assert [e][1..] == [] && EdgeLeaves([e]) == Leaves(e.node) + [] == Leaves(e.node);
    assert n.edges == n.edges[..i + 1] + n.edges[i + 1..];
    EdgeLeavesSplit(n.edges[..i + 1], n.edges[i + 1..]);
  }
}
