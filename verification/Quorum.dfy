/** Majorities of a fixed membership, and the fact every safety argument rests on. */
module Quorum {
  import opened Basics

  /** The test `count*2 > numberPeers+1`, where `numberPeers+1` is the cluster size. */
  predicate Majority<T>(part: set<T>, whole: set<T>) {
    part <= whole && 2 * |part| > |whole|
  }

  /** Any two majorities of the same membership share a member. */
  lemma MajoritiesMeet<T>(a: set<T>, b: set<T>, whole: set<T>) returns (x: T)
    requires Majority(a, whole) && Majority(b, whole)
    ensures x in a && x in b && x in whole
  {
    if a * b == {} {
      assert |a + b| == |a| + |b|;
      SubsetSize(a + b, whole);
    }
    x :| x in a * b;
  }

  /** Adding members never destroys a majority. */
  lemma MajorityGrows<T>(a: set<T>, b: set<T>, whole: set<T>)
    requires Majority(a, whole) && a <= b <= whole
    ensures Majority(b, whole)
  {
    SubsetSize(a, b);
  }
}
