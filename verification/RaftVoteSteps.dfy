/** The invariant across elections: timing out, voting, and winning. */
module RaftVoteSteps {
  import opened Quorum
  import opened RaftNode
  import opened RaftCluster
  import opened RaftInvariant
  import opened RaftHistory
  import opened RaftFrame

  // ---------------------------------------------------------------- timing out

  ghost function AfterTimeout(h: History, id: Id, n: Node): History {
    var u := n.currentTerm + 1;
    h.(requests := h.requests[(u, id) := LastEntry(LastTerm(n.log), LastIndex(n.log))],
       ballots := h.ballots + {Ballot(id, u, id)})
  }

  lemma TimeoutStep(c: Cluster, h: History, id: Id) returns (h': History)
    requires Inv(c, h) && Enabled(c, Timeout(id))
    ensures Extends(h, h') && Inv(Apply(c, Timeout(id)), h')
  {
    var n := c.nodes[id];
    var c' := Apply(c, Timeout(id));
    h' := AfterTimeout(h, id, n);
    assert RequestOk(c, h, n.currentTerm + 1, id);
    assert Quiet(c, h, c', h', id);
    TimeoutElections(c, h, id, c');
    QuietLogs(c, h, c', h', id);
    forall b, t, k | b !in h.ballots ensures NewBallotInformed(c, h, h', b, t, k) {
      if b in h'.ballots { BallotInformed(c, h, h', b, t, k); }
    }
    QuietSafe(c, h, c', h', id);
    SameCommit(c, h, c', h', id);
  }

  lemma TimeoutElections(c: Cluster, h: History, id: Id, c': Cluster)
    requires ElectionInv(c, h) && id in c.nodes && c.nodes[id].role != Leader
    requires
      var n := c.nodes[id];
      var n' := StartElection(n, id);
      c' == c.SetAndSend(id, n', RequestVote(n'.currentTerm, id, LastIndex(n.log), LastTerm(n.log)))
    ensures ElectionInv(c', AfterTimeout(h, id, c.nodes[id]))
  {
    var u := c.nodes[id].currentTerm + 1;
    var h' := AfterTimeout(h, id, c.nodes[id]);
    assert RequestOk(c, h, u, id);
    forall v: nat ensures ElectionOk(c', h', v) {
      assert ElectionOk(c, h, v);
      if v in h.elections {
        var e := h.elections[v];
        assert VoterOk(c, h, v, e.leader, e.voters, e.leader);
        forall q ensures VoterOk(c', h', v, e.leader, e.voters, q) {
          assert VoterOk(c, h, v, e.leader, e.voters, q);
        }
      }
    }
    forall b ensures BallotOk(c', h', b) { assert BallotOk(c, h, b); }
    forall q, v, x, y ensures SingleBallot(h', q, v, x, y) {
      assert SingleBallot(h, q, v, x, y);
      assert BallotOk(c, h, Ballot(q, v, x)) && BallotOk(c, h, Ballot(q, v, y));
    }
    forall v, q ensures RequestOk(c', h', v, q) { assert RequestOk(c, h, v, q); }
    forall q ensures NodeElectionOk(c', h', q) { assert NodeElectionOk(c, h, q); }
    forall m ensures VoteMsgOk(c', h', m) { assert VoteMsgOk(c, h, m); }
  }

  // ---------------------------------------------------------------- voting

  ghost function AfterVoteRequest(h: History, id: Id, n: Node, m: Message): History
    requires m.RequestVote?
  {
    if Grants(AdoptTerm(n, m.term), m.term, m.candidate, m.lastLogIndex, m.lastLogTerm)
    then h.(ballots := h.ballots + {Ballot(id, m.term, m.candidate)})
    else h
  }

  lemma VoteRequestStep(c: Cluster, h: History, id: Id, m: Message) returns (h': History)
    requires Inv(c, h) && Enabled(c, ReceiveVoteRequest(id, m))
    ensures Extends(h, h') && Inv(Apply(c, ReceiveVoteRequest(id, m)), h')
  {
    var n := c.nodes[id];
    var c' := Apply(c, ReceiveVoteRequest(id, m));
    h' := AfterVoteRequest(h, id, n, m);
    assert Quiet(c, h, c', h', id);
    VoteElections(c, h, id, m, c');
    QuietLogs(c, h, c', h', id);
    assert VoteMsgOk(c, h, m);
    forall b, t, k | b !in h.ballots ensures NewBallotInformed(c, h, h', b, t, k) {
      if b in h'.ballots { BallotInformed(c, h, h', b, t, k); }
    }
    QuietSafe(c, h, c', h', id);
    assert NodeCommitOk(c, h, id);
    SameCommit(c, h, c', h', id);
  }

  lemma VoteElections(c: Cluster, h: History, id: Id, m: Message, c': Cluster)
    requires ElectionInv(c, h) && id in c.nodes && m in c.msgs && m.RequestVote?
    requires
      var (n', reply) := OnRequestVote(c.nodes[id], id, m);
      c' == c.SetAndSend(id, n', reply)
    ensures ElectionInv(c', AfterVoteRequest(h, id, c.nodes[id], m))
  {
    var n := c.nodes[id];
    var h' := AfterVoteRequest(h, id, n, m);
    assert VoteMsgOk(c, h, m);
    assert RequestOk(c, h, m.term, m.candidate);
    assert NodeElectionOk(c, h, id);
    assert BallotOk(c, h, Ballot(id, m.term, m.candidate));
    forall v: nat ensures ElectionOk(c', h', v) {
      assert ElectionOk(c, h, v);
      if v in h.elections {
        var e := h.elections[v];
        assert VoterOk(c, h, v, e.leader, e.voters, e.leader);
        forall q ensures VoterOk(c', h', v, e.leader, e.voters, q) {
          assert VoterOk(c, h, v, e.leader, e.voters, q);
        }
      }
    }
    forall b ensures BallotOk(c', h', b) { assert BallotOk(c, h, b); }
    forall q, v, x, y ensures SingleBallot(h', q, v, x, y) {
      assert SingleBallot(h, q, v, x, y);
      assert BallotOk(c, h, Ballot(q, v, x)) && BallotOk(c, h, Ballot(q, v, y));
    }
    forall v, q ensures RequestOk(c', h', v, q) { assert RequestOk(c, h, v, q); }
    forall q ensures NodeElectionOk(c', h', q) { assert NodeElectionOk(c, h, q); }
    forall x ensures VoteMsgOk(c', h', x) { assert VoteMsgOk(c, h, x); }
  }

  // ---------------------------------------------------------------- counting votes

  ghost function Wins(n: Node, m: Message, clusterSize: nat): bool
    requires m.VoteReply?
  {
    && n.role == Candidate && m.term == n.currentTerm && m.granted
    && 2 * |n.votes + {m.voter}| > clusterSize
  }

  lemma VoteReplyStep(c: Cluster, h: History, id: Id, m: Message) returns (h': History)
    requires Inv(c, h) && Enabled(c, ReceiveVoteReply(id, m))
    ensures Extends(h, h') && Inv(Apply(c, ReceiveVoteReply(id, m)), h')
  {
    var n := c.nodes[id];
    var c' := Apply(c, ReceiveVoteReply(id, m));
    if Wins(n, m, |c.nodes|) {
      h' := AfterWin(h, id, n, n.votes + {m.voter});
      WinStep(c, h, id, m, c');
    } else {
      h' := h;
      assert VoteMsgOk(c, h, m) && NodeElectionOk(c, h, id) && NodeCommitOk(c, h, id);
      assert Quiet(c, h, c', h, id);
      NoVoteElections(c, h, c', id);
      QuietLogs(c, h, c', h, id);
      QuietSafe(c, h, c', h, id);
      SameCommit(c, h, c', h, id);
    }
  }

  ghost function AfterWin(h: History, id: Id, n: Node, voters: set<Id>): History {
    h.(elections := h.elections[n.currentTerm := Election(id, voters, n.log, n.log)],
       acks := h.acks[(id, n.currentTerm) := |n.log|])
  }

  lemma WinStep(c: Cluster, h: History, id: Id, m: Message, c': Cluster)
    requires Inv(c, h) && Enabled(c, ReceiveVoteReply(id, m)) && Wins(c.nodes[id], m, |c.nodes|)
    requires c' == Apply(c, ReceiveVoteReply(id, m))
    ensures
      var h' := AfterWin(h, id, c.nodes[id], c.nodes[id].votes + {m.voter});
      Extends(h, h') && Inv(c', h')
  {
    var n := c.nodes[id];
    var voters := n.votes + {m.voter};
    var h' := AfterWin(h, id, n, voters);
    assert VoteMsgOk(c, h, m) && NodeElectionOk(c, h, id);
    forall q | q in voters ensures q in c.nodes { assert BallotOk(c, h, Ballot(q, n.currentTerm, id)); }
    FreshTerm(c, h, id, voters);
    assert AckOk(c, h, id, n.currentTerm);
    assert Extends(h, h') by { forall u ensures ElectionKept(h, h', u) {} }
    WinElections(c, h, id, voters, c');
    WinLogs(c, h, id, voters, c');
    WinSafe(c, h, id, voters, c');
    SameCommit(c, h, c', h', id);
  }

  /** Two candidates with a majority of the ballots of one term are the same candidate. */
  lemma OneWinner(c: Cluster, h: History, id: Id, voters: set<Id>, u: nat)
    requires ElectionInv(c, h) && u in h.elections
    requires Majority(voters, c.nodes.Keys)
    requires forall q :: q in voters ==> Ballot(q, u, id) in h.ballots
    ensures h.elections[u].leader == id
  {
    var e := h.elections[u];
    assert ElectionOk(c, h, u);
    var q := MajoritiesMeet(voters, e.voters, c.nodes.Keys);
    assert VoterOk(c, h, u, e.leader, e.voters, q);
  }

  /** The term an election is won in had no leader before. */
  lemma FreshTerm(c: Cluster, h: History, id: Id, voters: set<Id>)
    requires ElectionInv(c, h) && id in c.nodes && c.nodes[id].role == Candidate
    requires Majority(voters, c.nodes.Keys)
    requires forall q :: q in voters ==> Ballot(q, c.nodes[id].currentTerm, id) in h.ballots
    ensures c.nodes[id].currentTerm !in h.elections
  {
    var u := c.nodes[id].currentTerm;
    assert ElectionOk(c, h, u);
    if u in h.elections {
      OneWinner(c, h, id, voters, u);
    }
  }

  /** A candidate about to lead: a majority voted for it in a term nobody leads yet. */
  ghost predicate Winning(c: Cluster, h: History, id: Id, voters: set<Id>, c': Cluster) {
    && id in c.nodes && c.nodes[id].role == Candidate
    && Majority(voters, c.nodes.Keys)
    && c.nodes[id].currentTerm !in h.elections
    && (forall q :: q in voters ==> Ballot(q, c.nodes[id].currentTerm, id) in h.ballots)
    && c' == c.Set(id, StartLeader(c.nodes[id].(votes := voters)))
  }

  lemma WinElections(c: Cluster, h: History, id: Id, voters: set<Id>, c': Cluster)
    requires ElectionInv(c, h) && Winning(c, h, id, voters, c') && id in voters
    ensures ElectionInv(c', AfterWin(h, id, c.nodes[id], voters))
  {
    var n := c.nodes[id];
    var h' := AfterWin(h, id, n, voters);
    forall v: nat ensures ElectionOk(c', h', v) {
      assert ElectionOk(c, h, v);
      if v == n.currentTerm {
        forall q ensures VoterOk(c', h', v, id, voters, q) {
          if q in voters {
            assert BallotOk(c, h, Ballot(q, v, id));
            forall x | Ballot(q, v, x) in h.ballots ensures x == id {
              assert SingleBallot(h, q, v, x, id);
            }
          }
        }
      } else if v in h.elections {
        var e := h.elections[v];
        assert VoterOk(c, h, v, e.leader, e.voters, e.leader);
        forall q ensures VoterOk(c', h', v, e.leader, e.voters, q) {
          assert VoterOk(c, h, v, e.leader, e.voters, q);
        }
      }
    }
    forall b ensures BallotOk(c', h', b) { assert BallotOk(c, h, b); }
    forall q, v, x, y ensures SingleBallot(h', q, v, x, y) { assert SingleBallot(h, q, v, x, y); }
    forall v, q ensures RequestOk(c', h', v, q) { assert RequestOk(c, h, v, q); }
    forall q ensures NodeElectionOk(c', h', q) { assert NodeElectionOk(c, h, q); }
    forall x ensures VoteMsgOk(c', h', x) { assert VoteMsgOk(c, h, x); }
  }

  lemma WinLogs(c: Cluster, h: History, id: Id, voters: set<Id>, c': Cluster)
    requires LogInv(c, h) && Winning(c, h, id, voters, c')
    requires Extends(h, AfterWin(h, id, c.nodes[id], voters))
    ensures LogInv(c', AfterWin(h, id, c.nodes[id], voters))
  {
    var n := c.nodes[id];
    var h' := AfterWin(h, id, n, voters);
    assert NodeLogOk(c, h, id);
    forall u ensures LeaderLogOk(h', u) {
      assert LeaderLogOk(h, u);
      if u in h'.elections { LogOkStays(h, h', h'.elections[u].log); }
    }
    forall q ensures NodeLogOk(c', h', q) {
      assert NodeLogOk(c, h, q);
      if q in c.nodes { LogOkStays(h, h', c.nodes[q].log); }
    }
    forall q, t ensures AckOk(c', h', q, t) { assert AckOk(c, h, q, t); }
    forall m ensures AppendMsgOk(c', h', m) {
      assert AppendMsgOk(c, h, m);
      if m in c.msgs { AppendShapeStays(h, h', m); }
    }
  }

  /** The new leader's own log contains no entry of its term, so no chunk of that term exists yet. */
  lemma NothingProperYet(c: Cluster, h: History, id: Id, voters: set<Id>, k: nat)
    requires LogInv(c, h) && id in c.nodes && c.nodes[id].currentTerm !in h.elections
    ensures !Proper(AfterWin(h, id, c.nodes[id], voters), c.nodes[id].currentTerm, k)
  {
    var n := c.nodes[id];
    assert NodeLogOk(c, h, id);
    if 1 <= k <= |n.log| { assert EntryOk(h, n.log, k - 1); }
  }

  lemma WinSafe(c: Cluster, h: History, id: Id, voters: set<Id>, c': Cluster)
    requires Inv(c, h) && Winning(c, h, id, voters, c')
    requires Extends(h, AfterWin(h, id, c.nodes[id], voters))
    ensures SafeInv(c', AfterWin(h, id, c.nodes[id], voters))
  {
    var n := c.nodes[id];
    var h' := AfterWin(h, id, n, voters);
    forall q, t, k ensures AckInTime(c, h, h', q, t, k) {}
    forall t: nat, k: nat | Live(c', h', t, k) ensures t != n.currentTerm && Live(c, h, t, k) && Chunk(h', t, k) == Chunk(h, t, k) {
      if t == n.currentTerm {
        NothingProperYet(c, h, id, voters, k);
      } else {
        LiveBefore(c, h, c', h', t, k);
      }
    }
    forall q, t, k ensures Retained(c', h', q, t, k) { assert Retained(c, h, q, t, k); }
    forall b, t, k ensures Informed(c', h', b, t, k) { assert Informed(c, h, b, t, k); }
    forall u, t, k ensures Complete(c', h', u, t, k) {
      assert Complete(c, h, u, t, k);
      if u == n.currentTerm && t < u && Live(c', h', t, k) {
        WinnerHolds(c, h, id, voters, t, k);
      }
    }
  }

  /** The heart of leader completeness: some voter acknowledged the chunk and was told no less. */
  lemma WinnerHolds(c: Cluster, h: History, id: Id, voters: set<Id>, t: nat, k: nat)
    requires Inv(c, h) && id in c.nodes && c.nodes[id].role == Candidate
    requires Majority(voters, c.nodes.Keys)
    requires forall q :: q in voters ==> Ballot(q, c.nodes[id].currentTerm, id) in h.ballots
    requires t < c.nodes[id].currentTerm && Live(c, h, t, k)
    ensures Chunk(h, t, k) <= c.nodes[id].log
  {
    var n := c.nodes[id];
    var q := MajoritiesMeet(voters, HoldSet(c, h, t, k), c.nodes.Keys);
    var b := Ballot(q, n.currentTerm, id);
    assert MayHold(c, h, q, t, k);
    assert BallotOk(c, h, b) && Informed(c, h, b, t, k) && NodeElectionOk(c, h, id);
    assert NodeLogOk(c, h, id);
    forall u | u in h.elections ensures h.elections[u].base <= h.elections[u].log { assert ElectionOk(c, h, u); }
    ClaimMeansHolding(c, h, n.log, t, k);
  }
}
