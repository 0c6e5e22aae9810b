/** How histories grow, and what that growth cannot undo. */
module RaftHistory {
  import opened Quorum
  import opened RaftNode
  import opened RaftCluster
  import opened RaftInvariant

  ghost predicate ElectionKept(h: History, h': History, u: nat) {
    u in h.elections ==>
    && u in h'.elections
    && var e, e' := h.elections[u], h'.elections[u];
    e'.leader == e.leader && e'.voters == e.voters && e'.base == e.base && e.log <= e'.log
  }

  ghost predicate Extends(h: History, h': History) {
    && (forall u :: ElectionKept(h, h', u))
    && (forall b :: b in h.ballots ==> b in h'.ballots)
    && (forall r :: r in h.requests ==> r in h'.requests && h'.requests[r] == h.requests[r])
    && (forall a :: a in h.acks ==> a in h'.acks && h.acks[a] <= h'.acks[a])
  }

  /** Members stay, terms never go back. */
  ghost predicate TermsGrow(c: Cluster, c': Cluster) {
    && c'.nodes.Keys == c.nodes.Keys
    && forall q :: q in c.nodes ==> c.nodes[q].currentTerm <= c'.nodes[q].currentTerm
  }

  /** A node acknowledges a chunk of term t only while its own term is at most t. */
  ghost predicate AcksInTime(c: Cluster, h: History, h': History) {
    forall q, t, k :: AckInTime(c, h, h', q, t, k)
  }

  ghost predicate AckInTime(c: Cluster, h: History, h': History, q: Id, t: nat, k: nat) {
    Acked(h', q, t, k) ==> Acked(h, q, t, k) || (q in c.nodes && c.nodes[q].currentTerm <= t)
  }

  /** What may be chosen later may already be chosen now. */
  lemma ChoosableBefore(c: Cluster, h: History, c': Cluster, h': History, t: nat, k: nat)
    requires TermsGrow(c, c') && AcksInTime(c, h, h')
    requires Choosable(c', h', t, k)
    ensures Choosable(c, h, t, k)
  {
    forall q | q in HoldSet(c', h', t, k) ensures q in HoldSet(c, h, t, k) {
      assert MayHold(c', h', q, t, k) && AckInTime(c, h, h', q, t, k);
      assert MayHold(c, h, q, t, k);
    }
    MajorityGrows(HoldSet(c', h', t, k), HoldSet(c, h, t, k), c.nodes.Keys);
  }

  lemma ChosenIsChoosable(c: Cluster, h: History, t: nat, k: nat)
    requires Chosen(c, h, t, k)
    ensures Choosable(c, h, t, k)
  {
    forall q | q in AckSet(c, h, t, k) ensures q in HoldSet(c, h, t, k) {
      assert MayHold(c, h, q, t, k);
    }
    MajorityGrows(AckSet(c, h, t, k), HoldSet(c, h, t, k), c.nodes.Keys);
  }

  lemma ChosenStays(c: Cluster, h: History, c': Cluster, h': History, t: nat, k: nat)
    requires c'.nodes.Keys == c.nodes.Keys && Extends(h, h')
    requires Chosen(c, h, t, k)
    ensures Chosen(c', h', t, k) && Chunk(h', t, k) == Chunk(h, t, k)
  {
    assert ElectionKept(h, h', t);
    forall q | q in AckSet(c, h, t, k) ensures q in AckSet(c', h', t, k) {
      assert Acked(h', q, t, k);
    }
    MajorityGrows(AckSet(c, h, t, k), AckSet(c', h', t, k), c.nodes.Keys);
  }

  lemma CommittedStays(c: Cluster, h: History, c': Cluster, h': History, log: Log, term: nat, term': nat)
    requires c'.nodes.Keys == c.nodes.Keys && Extends(h, h') && term <= term'
    requires CommittedLog(c, h, log, term)
    ensures CommittedLog(c', h', log, term')
  {
    if log != [] {
      var t: nat, k: nat :| t <= term && WithinChosen(c, h, log, t, k);
      ChosenStays(c, h, c', h', t, k);
      assert WithinChosen(c', h', log, t, k);
    }
  }

  lemma LogOkStays(h: History, h': History, log: Log)
    requires Extends(h, h') && LogOk(h, log)
    ensures LogOk(h', log)
  {
    forall i ensures EntryOk(h', log, i) {
      assert EntryOk(h, log, i);
      if 0 <= i < |log| {
        assert ElectionKept(h, h', log[i].term);
      }
    }
  }

  lemma ExtendsTransitive(h: History, h1: History, h2: History)
    requires Extends(h, h1) && Extends(h1, h2)
    ensures Extends(h, h2)
  {
    forall u ensures ElectionKept(h, h2, u) {
      assert ElectionKept(h, h1, u) && ElectionKept(h1, h2, u);
    }
  }

  /** Two well-formed logs with the same term at one position agree up to it. */
  lemma SameTermSamePrefix(h: History, a: Log, b: Log, i: int)
    requires LogOk(h, a) && LogOk(h, b)
    requires 0 <= i < |a| && i < |b| && a[i].term == b[i].term
    ensures a[..i + 1] == b[..i + 1]
  {
    assert EntryOk(h, a, i) && EntryOk(h, b, i);
    var l := h.elections[a[i].term].log;
    assert a[..i + 1] == l[..i + 1] == b[..i + 1];
  }

  /** A log that holds a chunk of term t ends at least as late as the chunk. */
  lemma HoldingIsUpToDate(h: History, log: Log, t: nat, k: nat)
    requires LogOk(h, log) && Proper(h, t, k) && Chunk(h, t, k) <= log
    requires forall u :: LeaderLogOk(h, u)
    ensures AtLeast(LastTerm(log), LastIndex(log), t, k - 1)
  {
    var i := |log| - 1;
    var w := log[i].term;
    assert EntryOk(h, log, i) && LeaderLogOk(h, w);
    assert log[..i + 1] == log;
    assert log[k - 1] == Chunk(h, t, k)[k - 1];
    assert h.elections[w].log[k - 1].term == t;
  }

  /** A log that claims as much as a possibly chosen chunk holds it. */
  lemma ClaimMeansHolding(c: Cluster, h: History, log: Log, t: nat, k: nat)
    requires LogOk(h, log) && Live(c, h, t, k)
    requires forall u :: LeaderLogOk(h, u)
    requires forall u :: Complete(c, h, u, t, k)
    requires forall u :: u in h.elections ==> h.elections[u].base <= h.elections[u].log
    requires AtLeast(LastTerm(log), LastIndex(log), t, k - 1)
    ensures Chunk(h, t, k) <= log
  {
    var i := |log| - 1;
    var w := log[i].term;
    assert EntryOk(h, log, i);
    var l := h.elections[w].log;
    assert log[..i + 1] == log;
    if w > t {
      assert Complete(c, h, w, t, k) && LeaderLogOk(h, t);
      assert Chunk(h, t, k) <= l;
      assert forall j :: 0 <= j < k ==> l[j].term <= t;
    }
  }
}
