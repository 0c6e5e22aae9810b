/** Keys of the radix tree: byte strings, their prefixes and their order. */
module RadixKeys {
  import opened Basics

  type Key = seq<byte>

  /** Byte-wise lexicographic order. */
  predicate Less(a: Key, b: Key) {
    b != [] && (a == [] || a[0] < b[0] || (a[0] == b[0] && Less(a[1..], b[1..])))
  }

  lemma {:induction false} LessIsIrreflexive(a: Key)
    ensures !Less(a, a)
    decreases |a|
  {
    if a != [] { LessIsIrreflexive(a[1..]); }
  }

  /** A common prefix does not matter for the order. */
  lemma {:induction false} LessUnderPrefix(p: Key, a: Key, b: Key)
    ensures Less(p + a, p + b) <==> Less(a, b)
    decreases |p|
  {
    if p == [] {
      assert p + a == a && p + b == b;
    } else {
      assert (p + a)[1..] == p[1..] + a && (p + b)[1..] == p[1..] + b;
      LessUnderPrefix(p[1..], a, b);
    }
  }

  lemma PrefixCancel(p: Key, a: Key, b: Key)
    requires p + a <= p + b
    ensures a <= b
  {
    assert a == (p + a)[|p|..] && b == (p + b)[|p|..];
  }

  /** longestMatch as a function: the length of the common prefix. */
  function CommonLength(a: Key, b: Key): (k: nat)
    ensures k <= |a| && k <= |b|
    ensures a[..k] == b[..k]
    ensures k < |a| && k < |b| ==> a[k] != b[k]
  {
    if a == [] || b == [] || a[0] != b[0] then 0
    else
      var k := CommonLength(a[1..], b[1..]);
      assert a[..k + 1] == [a[0]] + a[1..][..k] && b[..k + 1] == [b[0]] + b[1..][..k];
      k + 1
  }

  method LongestMatch(n: Key, m: Key) returns (i: nat)
    ensures i == CommonLength(n, m)
  {
    var max := |n|;
    if |m| < max { max := |m|; }
    i := 0;
    while i < max && n[i] == m[i]
      invariant 0 <= i <= max
      invariant forall j :: 0 <= j < i ==> n[j] == m[j]
    {
      i := i + 1;
    }
  }
}
