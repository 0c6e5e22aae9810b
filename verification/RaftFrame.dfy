/** What a step cannot break because it does not touch it. */
module RaftFrame {
  import opened RaftNode
  import opened RaftCluster
  import opened RaftInvariant
  import opened RaftHistory

  /** One node may have moved; terms do not go back; the history grew. */
  ghost predicate OneNode(c: Cluster, h: History, c': Cluster, h': History, id: Id) {
    && id in c.nodes && id in c'.nodes
    && c'.nodes == c.nodes[id := c'.nodes[id]]
    && c.nodes[id].currentTerm <= c'.nodes[id].currentTerm
    && Extends(h, h')
  }

  /** Logs, elections and acknowledgements stay as they were. */
  ghost predicate Quiet(c: Cluster, h: History, c': Cluster, h': History, id: Id) {
    && OneNode(c, h, c', h', id)
    && c'.nodes[id].log == c.nodes[id].log
    && h'.elections == h.elections && h'.acks == h.acks
  }

  // ---------------------------------------------------------------- elections

  /** A node that did not vote: it moved to a later term, stood still, or gave up a lost election. */
  ghost predicate NoVote(h: History, id: Id, n: Node, n': Node) {
    || (n'.currentTerm > n.currentTerm && n'.role == Follower)
    || (&& n'.currentTerm == n.currentTerm && n'.role == n.role && n'.votedFor == n.votedFor
        && (n.role == Candidate ==>
              && n'.log == n.log && id in n'.votes
              && forall q :: q in n'.votes ==> Ballot(q, n.currentTerm, id) in h.ballots))
    || (&& n'.currentTerm == n.currentTerm && n.role == Candidate && n'.role == Follower
        && n.currentTerm in h.elections)
  }

  lemma NoVoteElections(c: Cluster, h: History, c': Cluster, id: Id)
    requires ElectionInv(c, h) && OneNode(c, h, c', h, id)
    requires NoVote(h, id, c.nodes[id], c'.nodes[id])
    requires forall m :: m in c'.msgs && m !in c.msgs ==> !m.RequestVote? && !m.VoteReply?
    ensures ElectionInv(c', h)
  {
    assert NodeElectionOk(c, h, id);
    forall v: nat ensures ElectionOk(c', h, v) {
      assert ElectionOk(c, h, v);
      if v in h.elections {
        var e := h.elections[v];
        assert VoterOk(c, h, v, e.leader, e.voters, e.leader);
        forall q ensures VoterOk(c', h, v, e.leader, e.voters, q) {
          assert VoterOk(c, h, v, e.leader, e.voters, q);
        }
      }
    }
    forall b ensures BallotOk(c', h, b) { assert BallotOk(c, h, b); }
    forall v, q ensures RequestOk(c', h, v, q) { assert RequestOk(c, h, v, q); }
    forall q ensures NodeElectionOk(c', h, q) { assert NodeElectionOk(c, h, q); }
    forall m ensures VoteMsgOk(c', h, m) { assert VoteMsgOk(c, h, m); }
  }

  // ---------------------------------------------------------------- logs

  lemma QuietLogs(c: Cluster, h: History, c': Cluster, h': History, id: Id)
    requires LogInv(c, h) && Quiet(c, h, c', h', id)
    requires c'.nodes[id].role == Leader ==>
               c.nodes[id].role == Leader && c'.nodes[id].currentTerm == c.nodes[id].currentTerm
    requires forall m :: m in c'.msgs && m !in c.msgs ==> AppendShape(h, m)
    ensures LogInv(c', h')
  {
    forall u ensures LeaderLogOk(h', u) {
      assert LeaderLogOk(h, u);
      if u in h.elections { LogOkStays(h, h', h.elections[u].log); }
    }
    forall q ensures NodeLogOk(c', h', q) {
      assert NodeLogOk(c, h, q);
      if q in c.nodes { LogOkStays(h, h', c.nodes[q].log); }
    }
    forall q, t ensures AckOk(c', h', q, t) {
      assert AckOk(c, h, q, t);
    }
    forall m ensures AppendMsgOk(c', h', m) {
      assert AppendMsgOk(c, h, m);
    }
  }

  /** An append message or reply stays well formed when the history grows. */
  lemma AppendShapeStays(h: History, h': History, m: Message)
    requires Extends(h, h') && AppendShape(h, m)
    ensures AppendShape(h', m)
  {
    if m.AppendEntries? {
      assert ElectionKept(h, h', m.term);
    } else if m.AppendReply? {
      assert ElectionKept(h, h', m.sentTerm);
    }
  }

  // ---------------------------------------------------------------- chosen chunks

  lemma LiveBefore(c: Cluster, h: History, c': Cluster, h': History, t: nat, k: nat)
    requires TermsGrow(c, c') && AcksInTime(c, h, h')
    requires Live(c', h', t, k) && t in h.elections && h'.elections[t] == h.elections[t]
    ensures Live(c, h, t, k) && Chunk(h, t, k) == Chunk(h', t, k)
  {
    ChoosableBefore(c, h, c', h', t, k);
  }

  /** Only a new ballot can endanger a live chunk in a quiet step. */
  lemma QuietSafe(c: Cluster, h: History, c': Cluster, h': History, id: Id)
    requires SafeInv(c, h) && Quiet(c, h, c', h', id)
    requires forall b, t, k :: b !in h.ballots ==> NewBallotInformed(c, h, h', b, t, k)
    ensures SafeInv(c', h')
  {
    forall q, t, k ensures AckInTime(c, h, h', q, t, k) {}
    forall q, t, k ensures Retained(c', h', q, t, k) {
      assert Retained(c, h, q, t, k);
      if Live(c', h', t, k) { LiveBefore(c, h, c', h', t, k); }
    }
    forall b, t, k ensures Informed(c', h', b, t, k) {
      assert Informed(c, h, b, t, k);
      if Live(c', h', t, k) { LiveBefore(c, h, c', h', t, k); }
      assert b !in h.ballots ==> NewBallotInformed(c, h, h', b, t, k);
    }
    forall u, t, k ensures Complete(c', h', u, t, k) {
      assert Complete(c, h, u, t, k);
      if Live(c', h', t, k) { LiveBefore(c, h, c', h', t, k); }
    }
  }

  ghost predicate NewBallotInformed(c: Cluster, h: History, h': History, b: Ballot, t: nat, k: nat) {
    b in h'.ballots && t < b.term && Acked(h, b.voter, t, k) && Live(c, h, t, k) ==> ClaimsAtLeast(h', b, t, k)
  }

  /** A ballot cast for somebody who claims at least the voter's own last entry. */
  lemma BallotInformed(c: Cluster, h: History, h': History, b: Ballot, t: nat, k: nat)
    requires LogInv(c, h) && SafeInv(c, h) && b.voter in c.nodes
    requires (b.term, b.candidate) in h'.requests
    requires
      var r := h'.requests[(b.term, b.candidate)];
      var log := c.nodes[b.voter].log;
      AtLeast(r.term, r.index, LastTerm(log), LastIndex(log))
    ensures NewBallotInformed(c, h, h', b, t, k)
  {
    assert Retained(c, h, b.voter, t, k) && NodeLogOk(c, h, b.voter);
    if Acked(h, b.voter, t, k) && Live(c, h, t, k) {
      HoldingIsUpToDate(h, c.nodes[b.voter].log, t, k);
    }
  }

  // ---------------------------------------------------------------- commits

  /** Commit state of the nodes a step does not touch, and of the messages already sent. */
  lemma OthersCommitted(c: Cluster, h: History, c': Cluster, h': History, id: Id, q: Id)
    requires CommitInv(c, h) && OneNode(c, h, c', h', id) && q != id
    ensures NodeCommitOk(c', h', q)
  {
    assert NodeCommitOk(c, h, q);
    if q in c.nodes {
      var n := c.nodes[q];
      CommittedStays(c, h, c', h', n.log[..n.commitIndex + 1], n.currentTerm, n.currentTerm);
    }
  }

  lemma MessageCommitted(c: Cluster, h: History, c': Cluster, h': History, id: Id, m: Message)
    requires CommitInv(c, h) && OneNode(c, h, c', h', id) && m in c.msgs
    ensures CommitMsgOk(c', h', m)
  {
    assert CommitMsgOk(c, h, m);
    if m.AppendEntries? {
      assert ElectionKept(h, h', m.term);
      var l := h.elections[m.term].log;
      assert h'.elections[m.term].log[..m.leaderCommit + 1] == l[..m.leaderCommit + 1];
      CommittedStays(c, h, c', h', l[..m.leaderCommit + 1], m.term, m.term);
    }
  }

  /** A node that only gained log entries or a later term keeps what it had committed. */
  lemma SameCommit(c: Cluster, h: History, c': Cluster, h': History, id: Id)
    requires CommitInv(c, h) && OneNode(c, h, c', h', id)
    requires
      var n, n' := c.nodes[id], c'.nodes[id];
      && n.log <= n'.log && n'.commitIndex == n.commitIndex && n'.lastApplied == n.lastApplied
      && n'.signals == n.signals && n'.pushed == n.pushed
      && (n'.role == Leader ==> PeersOk(h', n'))
    requires forall m :: m in c'.msgs && m !in c.msgs ==> !m.AppendEntries?
    ensures CommitInv(c', h')
  {
    var n, n' := c.nodes[id], c'.nodes[id];
    assert NodeCommitOk(c, h, id);
    assert n'.log[..n.commitIndex + 1] == n.log[..n.commitIndex + 1];
    CommittedStays(c, h, c', h', n.log[..n.commitIndex + 1], n.currentTerm, n'.currentTerm);
    forall q ensures NodeCommitOk(c', h', q) {
      if q != id { OthersCommitted(c, h, c', h', id, q); }
    }
    forall m ensures CommitMsgOk(c', h', m) {
      if m in c.msgs { MessageCommitted(c, h, c', h', id, m); }
    }
  }
}
