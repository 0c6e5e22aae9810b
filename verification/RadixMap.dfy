/** The tree as a mutable finite map, over every sequence of updates. */
module RadixMap {
  import opened Basics
  import opened RadixKeys
  import opened RadixEdges
  import opened RadixTree
  import opened RadixUpdate
  import opened RadixRemove
  import opened RadixWalk

  datatype State<+V> = State(root: Node<V>, size: int)

  datatype Op<+V> = Insert(key: Key, val: V) | Remove(key: Key) | RemovePrefix(prefix: Key)

  /** The previous value of the key, or the number of keys removed. */
  datatype Outcome<+V> = Was(previous: Option<V>) | Gone(count: int)

  ghost predicate Valid<V>(t: State<V>) {
    t.root.prefix == [] && WellFormed(t.root, []) && t.size == |Contents(t.root)|
  }

  function Do<V>(t: State<V>, op: Op<V>): (State<V>, Outcome<V>) {
    match op
    case Insert(s, v) =>
      var (root, was) := InsertAt(t.root, s, s, v);
      (State(root, if was.None? then t.size + 1 else t.size), Was(was))
    case Remove(s) =>
      var (root, was) := RemoveAt(t.root, s);
      (State(root, if was.Some? then t.size - 1 else t.size), Was(was))
    case RemovePrefix(p) =>
      var (root, count) := RemovePrefixAt(t.root, p, true);
      (State(root, t.size - count), Gone(count))
  }

  // ---------------------------------------------------------------- the same on finite maps

  function Get<V>(m: map<Key, V>, k: Key): Option<V> {
    if k in m then Some(m[k]) else None
  }

  function Without<V>(m: map<Key, V>, p: Key): map<Key, V> {
    map k | k in m && !(p <= k) :: m[k]
  }

  function DoMap<V>(m: map<Key, V>, op: Op<V>): (map<Key, V>, Outcome<V>) {
    match op
    case Insert(s, v) => (m[s := v], Was(Get(m, s)))
    case Remove(s) => (m - {s}, Was(Get(m, s)))
    case RemovePrefix(p) => (Without(m, p), Gone(|m| - |Without(m, p)|))
  }

  /** A well-formed tree is determined, as a map, by its lookups. */
  lemma ContentsByFind<V>(root: Node<V>, m: map<Key, V>)
    requires WellFormed(root, []) && forall k :: Find(root, k) == Get(m, k)
    ensures Contents(root) == m
  {
    forall k ensures Get(Contents(root), k) == Get(m, k) {
      FindIsContents(root, k);
      assert Find(root, k) == Get(m, k);
    }
    MapsByGet(Contents(root), m);
  }

  lemma MapsByGet<V>(a: map<Key, V>, b: map<Key, V>)
    requires forall k :: Get(a, k) == Get(b, k)
    ensures a == b
  {
    assert forall k :: k in a <==> Get(a, k).Some?;
    assert forall k :: k in b <==> Get(b, k).Some?;
    assert forall k :: k in a ==> Get(a, k) == Some(a[k]);
    assert forall k :: k in b ==> Get(b, k) == Some(b[k]);
    assert forall k :: k in a <==> k in b by { forall k ensures k in a <==> k in b { assert Get(a, k) == Get(b, k); } }
    forall k | k in a ensures a[k] == b[k] { assert Get(a, k) == Get(b, k); }
  }

  lemma InsertRefines<V>(t: State<V>, s: Key, v: V)
    requires Valid(t)
    ensures
      var (t', r) := Do(t, Insert(s, v));
      Valid(t') && (Contents(t'.root), r) == DoMap(Contents(t.root), Insert(s, v))
  {
    var m := Contents(t.root);
    var root := InsertAt(t.root, s, s, v).0;
    assert [] + s == s;
    InsertOk(t.root, [], s, s, v);
    InsertKeepsPrefix(t.root, s, s, v);
    forall k ensures Find(root, k) == Get(m[s := v], k) {
      InsertFind(t.root, [], s, s, v, k);
      FindIsContents(t.root, k);
    }
    ContentsByFind(root, m[s := v]);
    InsertFind(t.root, [], s, s, v, s);
    FindIsContents(t.root, s);
  }

  lemma RemoveAtIs<V>(root: Node<V>, s: Key, k: Key)
    requires WellFormed(root, [])
    ensures
      var (root', was) := RemoveAt(root, s);
      && WellFormed(root', []) && root'.prefix == root.prefix
      && Find(root', k) == (if k == s then None else Find(root, k)) && was == Find(root, s)
  {
    if s != [] {
      RemoveFind(root, [], s, k);
      RemoveOk(root, [], s);
      RemoveKeepsPrefix(root, s);
    }
  }

  lemma RemoveRefines<V>(t: State<V>, s: Key)
    requires Valid(t)
    ensures
      var (t', r) := Do(t, Op<V>.Remove(s));
      Valid(t') && (Contents(t'.root), r) == DoMap(Contents(t.root), Op<V>.Remove(s))
  {
    var m := Contents(t.root);
    var root := RemoveAt(t.root, s).0;
    RemoveAtIs(t.root, s, s);
    forall k ensures Find(root, k) == Get(m - {s}, k) {
      RemoveAtIs(t.root, s, k);
      FindIsContents(t.root, k);
    }
    ContentsByFind(root, m - {s});
    FindIsContents(t.root, s);
  }

  lemma RemovePrefixAtIs<V>(root: Node<V>, p: Key, k: Key)
    requires WellFormed(root, []) && root.prefix == []
    ensures Find(RemovePrefixAt(root, p, true).0, k) == if p <= k then None else Find(root, k)
  {
    var root' := RemovePrefixAt(root, p, true).0;
    assert [] + root.prefix == [];
    RemovePrefixOk(root, [], p, true);
    RemovePrefixFind(root, [], p, true, k);
    assert [] + p == p && k[0..] == k;
  }

  lemma RemovePrefixContents<V>(root: Node<V>, p: Key)
    requires WellFormed(root, []) && root.prefix == []
    ensures
      var (root', count) := RemovePrefixAt(root, p, true);
      && root'.prefix == [] && WellFormed(root', [])
      && Contents(root') == Without(Contents(root), p)
      && count == |Contents(root)| - |Contents(root')|
  {
    var root' := RemovePrefixAt(root, p, true).0;
    assert [] + root.prefix == [];
    RemovePrefixOk(root, [], p, true);
    assert [] + root'.prefix == [];
    forall k ensures Find(root', k) == Get(Without(Contents(root), p), k) {
      RemovePrefixAtIs(root, p, k);
      FindIsContents(root, k);
    }
    ContentsByFind(root', Without(Contents(root), p));
    RemovePrefixCount(root, p, true);
    ContentsSize(root);
    ContentsSize(root');
  }

  lemma RemovePrefixRefines<V>(t: State<V>, p: Key)
    requires Valid(t)
    ensures
      var (t', r) := Do(t, Op<V>.RemovePrefix(p));
      Valid(t') && (Contents(t'.root), r) == DoMap(Contents(t.root), Op<V>.RemovePrefix(p))
  {
    var (root', count) := RemovePrefixAt(t.root, p, true);
    RemovePrefixContents(t.root, p);
    var t' := State(root', t.size - count);
    assert Valid(t');
    assert Do(t, Op<V>.RemovePrefix(p)) == (t', Gone(count));
  }

  /** Every update of the tree is the update of its finite map, with the same answer. */
  lemma UpdateRefines<V>(t: State<V>, op: Op<V>)
    requires Valid(t)
    ensures Valid(Do(t, op).0)
    ensures (Contents(Do(t, op).0.root), Do(t, op).1) == DoMap(Contents(t.root), op)
  {
    match op
    case Insert(s, v) => InsertRefines(t, s, v);
    case Remove(s) => RemoveRefines(t, s);
    case RemovePrefix(p) => RemovePrefixRefines(t, p);
  }

  // ---------------------------------------------------------------- every sequence of updates

  function Run<V>(t: State<V>, ops: seq<Op<V>>): (State<V>, seq<Outcome<V>>)
    decreases |ops|
  {
    if ops == [] then (t, [])
    else
      var (t1, r) := Do(t, ops[0]);
      var (t2, rs) := Run(t1, ops[1..]);
      (t2, [r] + rs)
  }

  function RunMap<V>(m: map<Key, V>, ops: seq<Op<V>>): (map<Key, V>, seq<Outcome<V>>)
    decreases |ops|
  {
    if ops == [] then (m, [])
    else
      var (m1, r) := DoMap(m, ops[0]);
      var (m2, rs) := RunMap(m1, ops[1..]);
      (m2, [r] + rs)
  }

  /**
   * Over every sequence of inserts, removals and prefix removals the tree is a finite map: same
   * answers all along, same contents at the end, and a size that counts the keys.
   */
  lemma {:induction false} TreeIsAMap<V>(t: State<V>, ops: seq<Op<V>>)
    requires Valid(t)
    ensures
      var (t', rs) := Run(t, ops);
      Valid(t') && (Contents(t'.root), rs) == RunMap(Contents(t.root), ops)
    decreases |ops|
  {
    if ops != [] {
      UpdateRefines(t, ops[0]);
      TreeIsAMap(Do(t, ops[0]).0, ops[1..]);
    }
  }
}
