/** Conflict truncation on two logs that satisfy log matching. */
module RaftMerge {
  import opened RaftNode

  ghost predicate MatchAt(a: Log, b: Log, i: int) {
    0 <= i < |a| && i < |b| && a[i].term == b[i].term ==> a[..i + 1] == b[..i + 1]
  }

  /** Same term at the same index means the same log up to there. */
  ghost predicate Matching(a: Log, b: Log) {
    forall i :: MatchAt(a, b, i)
  }

  /** `entries` is the part of `log` that starts at `next`, and `mine` fits `log` just before it. */
  ghost predicate Fits(mine: Log, log: Log, next: nat, entries: Log) {
    && next <= |mine|
    && next + |entries| <= |log|
    && (forall j :: 0 <= j < |entries| ==> entries[j] == log[next + j])
    && (next > 0 ==> mine[next - 1].term == log[next - 1].term)
  }

  /** Up to the first disagreement the two logs are equal. */
  lemma AgreeingPrefix(mine: Log, log: Log, next: nat, entries: Log)
    requires Matching(mine, log) && Fits(mine, log, next, entries)
    ensures
      var k := Agreeing(mine, next, entries);
      next + k <= |mine| && mine[..next + k] == log[..next + k]
  {
    var k := Agreeing(mine, next, entries);
    if next + k > 0 {
      assert MatchAt(mine, log, next + k - 1);
      if k > 0 { assert entries[k - 1] == log[next + k - 1]; }
    }
  }

  /** A merge ends as the sent part of the leader's log, or changes nothing because that was there. */
  lemma MergeResult(mine: Log, log: Log, next: nat, entries: Log)
    requires Matching(mine, log) && Fits(mine, log, next, entries)
    ensures
      var merged := Merge(mine, next, entries);
      var m := next + |entries|;
      && m <= |merged| && merged[..m] == log[..m]
      && (merged == mine || merged == log[..m])
  {
    AgreeingPrefix(mine, log, next, entries);
    var k := Agreeing(mine, next, entries);
    var m := next + |entries|;
    if k < |entries| {
      assert Merge(mine, next, entries) == log[..m] by {
        assert log[..m] == log[..next + k] + log[next + k..m];
        assert log[next + k..m] == entries[k..];
      }
    }
  }

  /** The scan finds no conflict, or only one beyond the first `count` entries. */
  predicate ConflictsBeyond(mine: Log, next: nat, entries: Log, count: nat) {
    var k := Agreeing(mine, next, entries);
    k == |entries| || next + k >= count
  }

  /** A merge of any entries keeps the first `count` exactly if the first conflict lies beyond them. */
  lemma MergeKeepsIff(mine: Log, next: nat, entries: Log, count: nat)
    requires next <= |mine| && count <= |mine|
    ensures mine[..count] <= Merge(mine, next, entries) <==> ConflictsBeyond(mine, next, entries, count)
  {
    var k := Agreeing(mine, next, entries);
    var merged := Merge(mine, next, entries);
    if k == |entries| {
      assert mine[..count] <= mine;
    } else if next + k >= count {
      assert mine[..next + k][..count] == mine[..count];
    } else {
      assert merged[next + k] == entries[k] != mine[next + k] == mine[..count][next + k];
    }
  }

  /** What follower and leader have in common survives the merge. */
  lemma MergeKeepsCommon(mine: Log, log: Log, next: nat, entries: Log, common: Log)
    requires Matching(mine, log) && Fits(mine, log, next, entries)
    requires common <= mine && common <= log
    ensures common <= Merge(mine, next, entries)
  {
    AgreeingPrefix(mine, log, next, entries);
    MergeResult(mine, log, next, entries);
    var k := Agreeing(mine, next, entries);
    if k < |entries| {
      assert entries[k] == log[next + k];
      assert forall i :: 0 <= i < |common| ==> mine[i] == log[i];
      assert |common| <= next + k;
    }
  }
}
