/** Nodes and their sorted edges as values, and the edges read as a map from bytes. */
module RadixEdges {
  import opened Basics
  import opened RadixKeys

  datatype Leaf<+V> = Leaf(key: Key, val: V)

  datatype Node<+V> = Node(leaf: Option<Leaf<V>>, prefix: Key, edges: seq<Edge<V>>)

  datatype Edge<+V> = Edge(bits: byte, node: Node<V>)

  predicate Sorted<V>(es: seq<Edge<V>>) {
    forall i, j :: 0 <= i < j < |es| ==> es[i].bits < es[j].bits
  }

  /** sort.Search on the labels: the first edge whose byte is at least `bits`. */
  function Position<V>(es: seq<Edge<V>>, bits: byte): (i: nat)
    ensures i <= |es|
    ensures forall j :: 0 <= j < i ==> es[j].bits < bits
    ensures i < |es| ==> es[i].bits >= bits
  {
    if es == [] || es[0].bits >= bits then 0 else 1 + Position(es[1..], bits)
  }

  predicate HasEdge<V>(es: seq<Edge<V>>, bits: byte) {
    var i := Position(es, bits);
    i < |es| && es[i].bits == bits
  }

  /** Append and sort, for a byte that is not there yet. */
  function AddEdge<V>(es: seq<Edge<V>>, e: Edge<V>): seq<Edge<V>> {
    var i := Position(es, e.bits);
    es[..i] + [e] + es[i..]
  }

  function UpdateEdge<V>(es: seq<Edge<V>>, bits: byte, node: Node<V>): seq<Edge<V>>
    requires HasEdge(es, bits)
  {
    var i := Position(es, bits);
    es[i := Edge(bits, node)]
  }

  function DelEdge<V>(es: seq<Edge<V>>, bits: byte): seq<Edge<V>> {
    var i := Position(es, bits);
    if HasEdge(es, bits) then es[..i] + es[i + 1..] else es
  }

  /** Every edge after an addition is the new one or an old one. */
  lemma AddedEdge<V>(es: seq<Edge<V>>, e: Edge<V>, j: nat)
    requires j < |AddEdge(es, e)|
    ensures AddEdge(es, e)[j] == e || (exists i :: 0 <= i < |es| && es[i] == AddEdge(es, e)[j])
  {
    var p := Position(es, e.bits);
    if j < p {
      assert AddEdge(es, e)[j] == es[j];
    } else if j > p {
      assert AddEdge(es, e)[j] == es[j - 1];
    }
  }

  lemma AddEdgeSorted<V>(es: seq<Edge<V>>, e: Edge<V>)
    requires Sorted(es) && !HasEdge(es, e.bits)
    ensures Sorted(AddEdge(es, e))
  {
  }

  /** There is only one sorted arrangement, so append-and-sort can only give AddEdge. */
  lemma {:induction false} SortedIsUnique<V>(a: seq<Edge<V>>, b: seq<Edge<V>>)
    requires Sorted(a) && Sorted(b) && multiset(a) == multiset(b)
    ensures a == b
    decreases |a|
  {
    if a == [] {
      assert |multiset(b)| == 0;
    } else {
      assert a[0] in multiset(a) && |multiset(a)| == |multiset(b)|;
      assert b[0] in multiset(b);
      assert a[0] == b[0];
      assert a == [a[0]] + a[1..] && b == [b[0]] + b[1..];
      assert multiset(a[1..]) == multiset(a) - multiset{a[0]};
      assert multiset(b[1..]) == multiset(b) - multiset{b[0]};
      SortedIsUnique(a[1..], b[1..]);
    }
  }

  lemma AppendAndSort<V>(es: seq<Edge<V>>, e: Edge<V>, arranged: seq<Edge<V>>)
    requires Sorted(es) && !HasEdge(es, e.bits)
    requires Sorted(arranged) && multiset(arranged) == multiset(es + [e])
    ensures arranged == AddEdge(es, e)
  {
    var i := Position(es, e.bits);
    assert es == es[..i] + es[i..];
    assert multiset(AddEdge(es, e)) == multiset(es + [e]);
    AddEdgeSorted(es, e);
    SortedIsUnique(arranged, AddEdge(es, e));
  }

  /** In a sorted list no other edge has the byte the search stops at. */
  lemma OthersDiffer<V>(es: seq<Edge<V>>, bits: byte)
    requires Sorted(es) && HasEdge(es, bits)
    ensures forall i :: 0 <= i < |es| && i != Position(es, bits) ==> es[i].bits != bits
  {
  }

  lemma PositionUnique<V>(es: seq<Edge<V>>, bits: byte, i: nat)
    requires Sorted(es) && i < |es| && es[i].bits == bits
    ensures HasEdge(es, bits) && Position(es, bits) == i
  {
  }

  // ---------------------------------------------------------------- edges as a map from bytes

  function Child<V>(es: seq<Edge<V>>, bits: byte): Option<Node<V>> {
    if HasEdge(es, bits) then Some(es[Position(es, bits)].node) else None
  }

  lemma ChildIs<V>(es: seq<Edge<V>>, i: nat)
    requires Sorted(es) && i < |es|
    ensures Child(es, es[i].bits) == Some(es[i].node)
  {
    PositionUnique(es, es[i].bits, i);
  }

  lemma ChildIsNone<V>(es: seq<Edge<V>>, bits: byte)
    requires forall i :: 0 <= i < |es| ==> es[i].bits != bits
    ensures Child(es, bits) == None
  {
  }

  lemma ChildAfterAdd<V>(es: seq<Edge<V>>, e: Edge<V>, bits: byte)
    requires Sorted(es) && !HasEdge(es, e.bits)
    ensures Child(AddEdge(es, e), bits) == if bits == e.bits then Some(e.node) else Child(es, bits)
  {
    var p := Position(es, e.bits);
    var es' := AddEdge(es, e);
    AddEdgeSorted(es, e);
    if bits == e.bits {
      ChildIs(es', p);
    } else if HasEdge(es, bits) {
      var i := Position(es, bits);
      assert es'[if i < p then i else i + 1] == es[i];
      ChildIs(es', if i < p then i else i + 1);
    } else {
      NoEdge(es, bits);
      ChildIsNone(es', bits);
    }
  }

  /** In a sorted list a byte the search does not find is not there at all. */
  lemma NoEdge<V>(es: seq<Edge<V>>, bits: byte)
    requires Sorted(es) && !HasEdge(es, bits)
    ensures forall i :: 0 <= i < |es| ==> es[i].bits != bits
  {
  }

  lemma ChildAfterUpdate<V>(es: seq<Edge<V>>, at: byte, node: Node<V>, bits: byte)
    requires Sorted(es) && HasEdge(es, at)
    ensures Sorted(UpdateEdge(es, at, node))
    ensures Child(UpdateEdge(es, at, node), bits) == if bits == at then Some(node) else Child(es, bits)
  {
    var es' := UpdateEdge(es, at, node);
    if HasEdge(es, bits) {
      ChildIs(es', Position(es, bits));
    } else {
      NoEdge(es, bits);
      ChildIsNone(es', bits);
    }
  }

  lemma ChildAfterDel<V>(es: seq<Edge<V>>, at: byte, bits: byte)
    requires Sorted(es)
    ensures Sorted(DelEdge(es, at))
    ensures Child(DelEdge(es, at), bits) == if bits == at then None else Child(es, bits)
  {
    var es' := DelEdge(es, at);
    var p := Position(es, at);
    if bits == at {
      DeletedIsGone(es, at);
      ChildIsNone(es', bits);
    } else if HasEdge(es, bits) {
      var i := Position(es, bits);
      if HasEdge(es, at) && i > p {
        assert es'[i - 1] == es[i];
        ChildIs(es', i - 1);
      } else {
        assert es'[i] == es[i];
        ChildIs(es', i);
      }
    } else {
      NoEdge(es, bits);
      ChildIsNone(es', bits);
    }
  }

  lemma DeletedIsGone<V>(es: seq<Edge<V>>, at: byte)
    requires Sorted(es)
    ensures forall i :: 0 <= i < |DelEdge(es, at)| ==> DelEdge(es, at)[i].bits != at
  {
    if !HasEdge(es, at) { NoEdge(es, at); }
  }
}
