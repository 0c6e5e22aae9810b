/** The invariant across replication: submitting, sending, merging, counting and applying. */
module RaftLogSteps {
  import opened Quorum
  import opened RaftNode
  import opened RaftCluster
  import opened RaftInvariant
  import opened RaftHistory
  import opened RaftFrame
  import opened RaftMerge

  // ---------------------------------------------------------------- submitting

  ghost function AfterSubmit(h: History, id: Id, n: Node, e: Entry): History
    requires n.currentTerm in h.elections
  {
    var t := n.currentTerm;
    h.(elections := h.elections[t := h.elections[t].(log := n.log + [e])],
       acks := h.acks[(id, t) := |n.log| + 1])
  }

  /** A leader about to append an entry of its own term. */
  ghost predicate Submitting(c: Cluster, h: History, id: Id, e: Entry, c': Cluster) {
    && id in c.nodes
    && var n := c.nodes[id];
    && n.role == Leader && e.term == n.currentTerm
    && n.currentTerm in h.elections && h.elections[n.currentTerm].leader == id
    && h.elections[n.currentTerm].log == n.log
    && (id, n.currentTerm) in h.acks && h.acks[(id, n.currentTerm)] == |n.log|
    && c' == c.Set(id, n.(log := n.log + [e]))
  }

  lemma SubmitStep(c: Cluster, h: History, id: Id, command: Command) returns (h': History)
    requires Inv(c, h) && Enabled(c, Submit(id, command))
    ensures Extends(h, h') && Inv(Apply(c, Submit(id, command)), h')
  {
    var n := c.nodes[id];
    var c' := Apply(c, Submit(id, command));
    if n.role == Leader {
      var e := Entry(n.currentTerm, command);
      assert NodeElectionOk(c, h, id) && NodeLogOk(c, h, id) && NodeCommitOk(c, h, id);
      assert Submitting(c, h, id, e, c');
      h' := AfterSubmit(h, id, n, e);
      assert Extends(h, h') by { forall u ensures ElectionKept(h, h', u) {} }
      SubmitElections(c, h, id, e, c');
      SubmitLogs(c, h, id, e, c');
      SubmitSafe(c, h, id, e, c');
      SameCommit(c, h, c', h', id);
    } else {
      h' := h;
      assert c'.nodes == c.nodes;
      assert c' == c;
    }
  }

  lemma SubmitElections(c: Cluster, h: History, id: Id, e: Entry, c': Cluster)
    requires ElectionInv(c, h) && Submitting(c, h, id, e, c')
    ensures ElectionInv(c', AfterSubmit(h, id, c.nodes[id], e))
  {
    var h' := AfterSubmit(h, id, c.nodes[id], e);
    forall v: nat ensures ElectionOk(c', h', v) {
      assert ElectionOk(c, h, v);
      if v in h.elections {
        var x := h.elections[v];
        forall q ensures VoterOk(c', h', v, x.leader, x.voters, q) {
          assert VoterOk(c, h, v, x.leader, x.voters, q);
        }
      }
    }
    forall b ensures BallotOk(c', h', b) { assert BallotOk(c, h, b); }
    forall q, v, x, y ensures SingleBallot(h', q, v, x, y) { assert SingleBallot(h, q, v, x, y); }
    forall v, q ensures RequestOk(c', h', v, q) { assert RequestOk(c, h, v, q); }
    forall q ensures NodeElectionOk(c', h', q) { assert NodeElectionOk(c, h, q); }
    forall x ensures VoteMsgOk(c', h', x) { assert VoteMsgOk(c, h, x); }
  }

  /** Appending an entry of term t to term t's leader log keeps that log well formed. */
  lemma AppendedLogOk(h: History, h': History, log: Log, e: Entry)
    requires LogOk(h', log) && e.term in h'.elections && h'.elections[e.term].log == log + [e]
    ensures LogOk(h', log + [e])
  {
    forall i ensures EntryOk(h', log + [e], i) {
      assert EntryOk(h', log, i);
      if 0 <= i < |log| { assert (log + [e])[..i + 1] == log[..i + 1]; }
    }
  }

  lemma SubmitLogs(c: Cluster, h: History, id: Id, e: Entry, c': Cluster)
    requires ElectionInv(c, h) && LogInv(c, h) && Submitting(c, h, id, e, c')
    requires Extends(h, AfterSubmit(h, id, c.nodes[id], e))
    ensures LogInv(c', AfterSubmit(h, id, c.nodes[id], e))
  {
    var n := c.nodes[id];
    var h' := AfterSubmit(h, id, n, e);
    assert NodeLogOk(c, h, id);
    LogOkStays(h, h', n.log);
    AppendedLogOk(h, h', n.log, e);
    forall u ensures LeaderLogOk(h', u) {
      assert LeaderLogOk(h, u);
      if u in h'.elections && u != n.currentTerm { LogOkStays(h, h', h.elections[u].log); }
    }
    forall q ensures NodeLogOk(c', h', q) {
      assert NodeLogOk(c, h, q) && NodeElectionOk(c, h, q);
      if q in c.nodes { LogOkStays(h, h', c.nodes[q].log); }
    }
    forall q, t ensures AckOk(c', h', q, t) { assert AckOk(c, h, q, t); }
    forall m ensures AppendMsgOk(c', h', m) {
      assert AppendMsgOk(c, h, m);
      if m in c.msgs { AppendShapeStays(h, h', m); }
    }
  }

  /** Once a later leader is elected, nothing the old leader still appends can be chosen. */
  lemma TooLate(c: Cluster, h: History, id: Id, e: Entry, c': Cluster, u: nat)
    requires ElectionInv(c, h) && LogInv(c, h) && Submitting(c, h, id, e, c')
    requires u in h.elections && c.nodes[id].currentTerm < u
    ensures !Choosable(c', AfterSubmit(h, id, c.nodes[id], e), c.nodes[id].currentTerm, |c.nodes[id].log| + 1)
  {
    var n := c.nodes[id];
    var t, k := n.currentTerm, |n.log| + 1;
    var h' := AfterSubmit(h, id, n, e);
    var x := h.elections[u];
    assert ElectionOk(c, h, u);
    assert forall q :: q in x.voters ==> q !in HoldSet(c', h', t, k) by {
      forall q | q in x.voters ensures q !in HoldSet(c', h', t, k) {
        assert VoterOk(c, h, u, x.leader, x.voters, q) && AckOk(c, h, q, t);
        assert q != id;
        assert !MayHold(c', h', q, t, k);
      }
    }
    if Choosable(c', h', t, k) {
      var q := MajoritiesMeet(x.voters, HoldSet(c', h', t, k), c.nodes.Keys);
    }
  }

  lemma SubmitSafe(c: Cluster, h: History, id: Id, e: Entry, c': Cluster)
    requires ElectionInv(c, h) && LogInv(c, h) && SafeInv(c, h) && Submitting(c, h, id, e, c')
    ensures SafeInv(c', AfterSubmit(h, id, c.nodes[id], e))
  {
    var n := c.nodes[id];
    var h' := AfterSubmit(h, id, n, e);
    var t0, k0 := n.currentTerm, |n.log| + 1;
    forall t: nat, k: nat ensures LiveOrNew(c, h, c', h', t, k, t0, k0) {
      SubmitLive(c, h, id, e, c', t, k);
    }
    forall q, t, k ensures Retained(c', h', q, t, k) {
      assert Retained(c, h, q, t, k) && AckOk(c, h, q, t);
      assert LiveOrNew(c, h, c', h', t, k, t0, k0);
    }
    forall b, t, k ensures Informed(c', h', b, t, k) {
      assert Informed(c, h, b, t, k) && BallotOk(c, h, b) && AckOk(c, h, b.voter, t);
      assert LiveOrNew(c, h, c', h', t, k, t0, k0);
    }
    forall u, t, k ensures Complete(c', h', u, t, k) {
      assert Complete(c, h, u, t, k);
      assert LiveOrNew(c, h, c', h', t, k, t0, k0);
      if u in h'.elections && t < u && t == t0 && k == k0 { TooLate(c, h, id, e, c', u); }
    }
  }

  /** Whatever may still be chosen could be chosen before, except the entry just appended. */
  ghost predicate LiveOrNew(c: Cluster, h: History, c': Cluster, h': History, t: nat, k: nat, t0: nat, k0: nat) {
    Live(c', h', t, k) && !(t == t0 && k == k0) ==> Live(c, h, t, k) && Chunk(h', t, k) == Chunk(h, t, k)
  }

  lemma SubmitLive(c: Cluster, h: History, id: Id, e: Entry, c': Cluster, t: nat, k: nat)
    requires ElectionInv(c, h) && LogInv(c, h) && SafeInv(c, h) && Submitting(c, h, id, e, c')
    ensures LiveOrNew(c, h, c', AfterSubmit(h, id, c.nodes[id], e), t, k, c.nodes[id].currentTerm, |c.nodes[id].log| + 1)
  {
    var n := c.nodes[id];
    var h' := AfterSubmit(h, id, n, e);
    forall q, u, l ensures AckInTime(c, h, h', q, u, l) {}
    if Live(c', h', t, k) && !(t == n.currentTerm && k == |n.log| + 1) {
      ChoosableBefore(c, h, c', h', t, k);
    }
  }

  // ---------------------------------------------------------------- sending

  lemma SendStep(c: Cluster, h: History, id: Id, peer: Id)
    requires Inv(c, h) && Enabled(c, Send(id, peer))
    ensures Inv(Apply(c, Send(id, peer)), h)
  {
    var n := c.nodes[id];
    var c' := Apply(c, Send(id, peer));
    var m := AppendFor(n, id, peer);
    assert NodeElectionOk(c, h, id) && NodeLogOk(c, h, id) && NodeCommitOk(c, h, id);
    assert c' == Cluster(c.nodes, c.msgs + {m});
    SentShape(c, h, id, peer);
    assert Extends(h, h);
    assert Quiet(c, h, c', h, id);
    NoVoteElections(c, h, c', id);
    QuietLogs(c, h, c', h, id);
    QuietSafe(c, h, c', h, id);
    SentCommitted(c, h, id, m, c');
  }

  /** What a leader builds is a slice of its log. */
  lemma BuiltFromLog(e: Election, n: Node, id: Id, peer: Id)
    requires n.log == e.log && id == e.leader && peer != id && 0 <= NextIndex(n, peer) <= |n.log| && n.commitIndex < |n.log|
    ensures SentBy(e, AppendFor(n, id, peer))
  {
    var m := AppendFor(n, id, peer);
    var next := NextIndex(n, peer);
    assert m.entries == n.log[next..] && m.prevLogIndex + 1 == next && |m.entries| == |n.log| - next;
    forall j | 0 <= j < |m.entries| ensures m.entries[j] == e.log[next + j] {}
  }

  lemma SentShape(c: Cluster, h: History, id: Id, peer: Id)
    requires Inv(c, h) && Enabled(c, Send(id, peer))
    ensures AppendShape(h, AppendFor(c.nodes[id], id, peer))
  {
    assert NodeElectionOk(c, h, id) && NodeLogOk(c, h, id) && NodeCommitOk(c, h, id);
    BuiltFromLog(h.elections[c.nodes[id].currentTerm], c.nodes[id], id, peer);
  }

  lemma SentCommitted(c: Cluster, h: History, id: Id, m: Message, c': Cluster)
    requires CommitInv(c, h) && id in c.nodes && m.AppendEntries?
    requires c'.nodes == c.nodes && c'.msgs == c.msgs + {m} && OneNode(c, h, c', h, id)
    requires m.term in h.elections && h.elections[m.term].log == c.nodes[id].log
    requires m.term == c.nodes[id].currentTerm && m.leaderCommit == c.nodes[id].commitIndex
    ensures CommitInv(c', h)
  {
    var n := c.nodes[id];
    assert NodeCommitOk(c, h, id);
    CommittedStays(c, h, c', h, n.log[..n.commitIndex + 1], n.currentTerm, n.currentTerm);
    forall q ensures NodeCommitOk(c', h, q) {
      if q != id { OthersCommitted(c, h, c', h, id, q); }
    }
    forall x ensures CommitMsgOk(c', h, x) {
      if x in c.msgs { MessageCommitted(c, h, c', h, id, x); }
    }
  }

  // ---------------------------------------------------------------- receiving entries

  lemma ReceiveAppendStep(c: Cluster, h: History, id: Id, m: Message) returns (h': History)
    requires Inv(c, h) && Enabled(c, ReceiveAppend(id, m))
    ensures Extends(h, h') && Inv(Apply(c, ReceiveAppend(id, m)), h')
  {
    var n := c.nodes[id];
    var c' := Apply(c, ReceiveAppend(id, m));
    assert AppendMsgOk(c, h, m);
    AppendElections(c, h, id, m);
    if m.term >= n.currentTerm && Accepts(n.log, m.prevLogIndex, m.prevLogTerm) {
      h' := AfterAppend(h, id, m);
      AcceptStep(c, h, id, m, c');
    } else {
      h' := h;
      RefusalShape(c, h, id, m);
      RejectStep(c, h, id, c');
    }
  }

  lemma AppendElections(c: Cluster, h: History, id: Id, m: Message)
    requires Inv(c, h) && Enabled(c, ReceiveAppend(id, m))
    ensures
      var c' := Apply(c, ReceiveAppend(id, m));
      OneNode(c, h, c', h, id) && ElectionInv(c', h)
  {
    var c' := Apply(c, ReceiveAppend(id, m));
    assert AppendMsgOk(c, h, m) && NodeElectionOk(c, h, id);
    assert NoVote(h, id, c.nodes[id], c'.nodes[id]);
    NoVoteElections(c, h, c', id);
  }

  /** A refused append leaves log and indexes alone, and a leader only where it was. */
  lemma RefusalShape(c: Cluster, h: History, id: Id, m: Message)
    requires Inv(c, h) && Enabled(c, ReceiveAppend(id, m))
    requires m.term < c.nodes[id].currentTerm || !Accepts(c.nodes[id].log, m.prevLogIndex, m.prevLogTerm)
    ensures
      var (n', reply) := OnAppendEntries(c.nodes[id], m);
      && Apply(c, ReceiveAppend(id, m)) == c.SetAndSend(id, n', reply) && reply.AppendReply? && AppendShape(h, reply)
      && Refused(c.nodes[id], n')
  {
    assert AppendMsgOk(c, h, m);
  }

  ghost predicate Refused(n: Node, n': Node) {
    && n'.log == n.log && n'.nextIndex == n.nextIndex && n'.matchIndex == n.matchIndex
    && n'.commitIndex == n.commitIndex && n'.lastApplied == n.lastApplied
    && n'.signals == n.signals && n'.pushed == n.pushed
    && (n'.role == Leader ==> n.role == Leader && n'.currentTerm == n.currentTerm)
  }

  lemma RejectStep(c: Cluster, h: History, id: Id, c': Cluster)
    requires LogInv(c, h) && SafeInv(c, h) && CommitInv(c, h) && ElectionInv(c, h) && ElectionInv(c', h)
    requires OneNode(c, h, c', h, id) && Refused(c.nodes[id], c'.nodes[id])
    requires forall x :: x in c'.msgs && x !in c.msgs ==> x.AppendReply? && AppendShape(h, x)
    ensures LogInv(c', h) && SafeInv(c', h) && CommitInv(c', h)
  {
    assert NodeCommitOk(c, h, id);
    assert Quiet(c, h, c', h, id);
    QuietLogs(c, h, c', h, id);
    QuietSafe(c, h, c', h, id);
    SameCommit(c, h, c', h, id);
  }

  ghost function AfterAppend(h: History, id: Id, m: Message): History
    requires m.AppendEntries? && m.prevLogIndex >= -1
  {
    var held := m.prevLogIndex + 1 + |m.entries|;
    var before := if (id, m.term) in h.acks then h.acks[(id, m.term)] else 0;
    h.(acks := h.acks[(id, m.term) := if before > held then before else held])
  }

  ghost predicate KeepsCommon(before: Log, leaders: Log, after: Log, common: Log) {
    common <= before && common <= leaders ==> common <= after
  }

  /** A follower taking over a slice of its leader's log, by what it means for the log. */
  ghost predicate Accepting(c: Cluster, h: History, id: Id, m: Message, n': Node) {
    && id in c.nodes
    && m.AppendEntries? && m.term in h.elections && SentBy(h.elections[m.term], m)
    && var n := c.nodes[id];
    var log := h.elections[m.term].log;
    var held := m.prevLogIndex + 1 + |m.entries|;
    && n.currentTerm <= m.term == n'.currentTerm
    && n'.role == Follower
    && LogOk(h, n'.log) && TermsUpTo(n'.log, m.term)
    && held <= |n'.log| && n'.log[..held] == log[..held]
    && (forall common :: KeepsCommon(n.log, log, n'.log, common))
  }

  ghost predicate CommitTaken(n: Node, m: Message, n': Node)
    requires m.AppendEntries?
  {
    && n'.lastApplied == n.lastApplied && n'.pushed == n.pushed
    && (if m.leaderCommit > n.commitIndex
        then n'.commitIndex == Min(m.leaderCommit, |n'.log| - 1) && n'.signals == n.signals + 1
        else n'.commitIndex == n.commitIndex && n'.signals == n.signals)
  }

  lemma MergedIsAccepted(c: Cluster, h: History, id: Id, m: Message, n': Node)
    requires LogInv(c, h) && id in c.nodes
    requires m.AppendEntries? && m.term in h.elections && SentBy(h.elections[m.term], m)
    requires c.nodes[id].currentTerm <= m.term == n'.currentTerm && n'.role == Follower
    requires Accepts(c.nodes[id].log, m.prevLogIndex, m.prevLogTerm)
    requires n'.log == Merge(c.nodes[id].log, m.prevLogIndex + 1, m.entries)
    ensures Accepting(c, h, id, m, n')
  {
    var mine, log := c.nodes[id].log, h.elections[m.term].log;
    var next := m.prevLogIndex + 1;
    assert NodeLogOk(c, h, id) && LeaderLogOk(h, m.term);
    assert Fits(mine, log, next, m.entries);
    WellFormedLogsMatch(h, mine, log);
    MergeIsWellFormed(h, mine, log, next, m.entries, m.term);
    forall common ensures KeepsCommon(mine, log, n'.log, common) {
      if common <= mine && common <= log { MergeKeepsCommon(mine, log, next, m.entries, common); }
    }
  }

  /** A merge holds the slice and stays a well-formed log of terms up to the leader's. */
  lemma MergeIsWellFormed(h: History, mine: Log, log: Log, next: nat, entries: Log, term: nat)
    requires Matching(mine, log) && Fits(mine, log, next, entries)
    requires LogOk(h, mine) && LogOk(h, log) && TermsUpTo(mine, term) && TermsUpTo(log, term)
    ensures
      var merged := Merge(mine, next, entries);
      var held := next + |entries|;
      && LogOk(h, merged) && TermsUpTo(merged, term)
      && held <= |merged| && merged[..held] == log[..held]
  {
    MergeResult(mine, log, next, entries);
    var merged := Merge(mine, next, entries);
    if merged != mine {
      PrefixLogOk(h, log, next + |entries|);
      assert LogOk(h, merged);
    }
  }

  lemma AcceptStep(c: Cluster, h: History, id: Id, m: Message, c': Cluster)
    requires Inv(c, h) && id in c.nodes && m in c.msgs && m.AppendEntries? && m.peer == id
    requires
      var (n', reply) := OnAppendEntries(c.nodes[id], m);
      c' == c.SetAndSend(id, n', reply)
    requires m.term >= c.nodes[id].currentTerm && Accepts(c.nodes[id].log, m.prevLogIndex, m.prevLogTerm)
    requires ElectionInv(c', h) && AppendShape(h, m) && OneNode(c, h, c', h, id)
    ensures Extends(h, AfterAppend(h, id, m)) && Inv(c', AfterAppend(h, id, m))
  {
    AcceptParts(c, h, id, m, c');
  }

  lemma AcceptParts(c: Cluster, h: History, id: Id, m: Message, c': Cluster)
    requires Inv(c, h) && ElectionInv(c', h) && OneNode(c, h, c', h, id)
    requires m in c.msgs && m.AppendEntries? && m.peer == id && AppendShape(h, m)
    requires c'.msgs == c.msgs + {AppendReply(m.term, true, m.peer, m.leader, m.term, m.prevLogIndex + 1, |m.entries|)}
    requires Accepts(c.nodes[id].log, m.prevLogIndex, m.prevLogTerm)
    requires
      var n, n' := c.nodes[id], c'.nodes[id];
      && n.currentTerm <= m.term == n'.currentTerm && n'.role == Follower
      && n'.log == Merge(n.log, m.prevLogIndex + 1, m.entries)
      && CommitTaken(n, m, n')
    ensures Extends(h, AfterAppend(h, id, m)) && Inv(c', AfterAppend(h, id, m))
  {
    var h' := AfterAppend(h, id, m);
    assert Extends(h, h');
    MergedIsAccepted(c, h, id, m, c'.nodes[id]);
    AckElections(c', h, h');
    AcceptLogs(c, h, id, m, c');
    AcceptSafe(c, h, id, m, c');
    AcceptCommits(c, h, id, m, c');
  }

  /** Acknowledgements play no part in elections. */
  lemma AckElections(c: Cluster, h: History, h': History)
    requires ElectionInv(c, h) && h' == h.(acks := h'.acks)
    ensures ElectionInv(c, h')
  {
    forall v: nat ensures ElectionOk(c, h', v) {
      assert ElectionOk(c, h, v);
      if v in h.elections {
        var x := h.elections[v];
        forall q ensures VoterOk(c, h', v, x.leader, x.voters, q) {
          assert VoterOk(c, h, v, x.leader, x.voters, q);
        }
      }
    }
    forall b ensures BallotOk(c, h', b) { assert BallotOk(c, h, b); }
    forall q, v, x, y ensures SingleBallot(h', q, v, x, y) { assert SingleBallot(h, q, v, x, y); }
    forall v, q ensures RequestOk(c, h', v, q) { assert RequestOk(c, h, v, q); }
    forall q ensures NodeElectionOk(c, h', q) { assert NodeElectionOk(c, h, q); }
    forall x ensures VoteMsgOk(c, h', x) { assert VoteMsgOk(c, h, x); }
  }

  lemma WellFormedLogsMatch(h: History, a: Log, b: Log)
    requires LogOk(h, a) && LogOk(h, b)
    ensures Matching(a, b)
  {
    forall i ensures MatchAt(a, b, i) {
      if 0 <= i < |a| && i < |b| && a[i].term == b[i].term { SameTermSamePrefix(h, a, b, i); }
    }
  }

  lemma PrefixLogOk(h: History, log: Log, m: nat)
    requires LogOk(h, log) && m <= |log|
    ensures LogOk(h, log[..m])
  {
    forall i ensures EntryOk(h, log[..m], i) {
      assert EntryOk(h, log, i);
      if 0 <= i < m { assert log[..m][..i + 1] == log[..i + 1]; }
    }
  }

  lemma AcceptLogs(c: Cluster, h: History, id: Id, m: Message, c': Cluster)
    requires LogInv(c, h) && OneNode(c, h, c', h, id) && Accepting(c, h, id, m, c'.nodes[id])
    requires c'.msgs == c.msgs + {AppendReply(m.term, true, m.peer, m.leader, m.term, m.prevLogIndex + 1, |m.entries|)}
    requires m.peer == id
    ensures LogInv(c', AfterAppend(h, id, m))
  {
    var h' := AfterAppend(h, id, m);
    forall u ensures LeaderLogOk(h', u) {
      assert LeaderLogOk(h, u);
      if u in h.elections { LogOkStays(h, h', h.elections[u].log); }
    }
    forall q ensures NodeLogOk(c', h', q) {
      assert NodeLogOk(c, h, q);
      if q in c.nodes { LogOkStays(h, h', c'.nodes[q].log); }
    }
    forall q, t ensures AckOk(c', h', q, t) { assert AckOk(c, h, q, t); }
    forall x ensures AppendMsgOk(c', h', x) {
      assert AppendMsgOk(c, h, x);
      if x in c.msgs { AppendShapeStays(h, h', x); }
    }
  }

  /** A live chunk that a node holds is also in the log of any leader it still listens to. */
  lemma LeaderHolds(c: Cluster, h: History, t: nat, k: nat, u: nat)
    requires ElectionInv(c, h) && SafeInv(c, h) && Live(c, h, t, k) && u in h.elections && t <= u
    ensures Chunk(h, t, k) <= h.elections[u].log
  {
    assert Complete(c, h, u, t, k) && ElectionOk(c, h, u);
  }

  lemma AcceptSafe(c: Cluster, h: History, id: Id, m: Message, c': Cluster)
    requires ElectionInv(c, h) && LogInv(c, h) && SafeInv(c, h)
    requires OneNode(c, h, c', h, id) && Accepting(c, h, id, m, c'.nodes[id])
    ensures SafeInv(c', AfterAppend(h, id, m))
  {
    var h' := AfterAppend(h, id, m);
    var n, n' := c.nodes[id], c'.nodes[id];
    var log := h.elections[m.term].log;
    forall q, t, k ensures AckInTime(c, h, h', q, t, k) {}
    forall t: nat, k: nat | Live(c', h', t, k) ensures Live(c, h, t, k) && Chunk(h', t, k) == Chunk(h, t, k) {
      LiveBefore(c, h, c', h', t, k);
    }
    forall q, t, k ensures Retained(c', h', q, t, k) {
      assert Retained(c, h, q, t, k) && AckOk(c, h, q, t);
      if q == id && Acked(h, q, t, k) && Live(c', h', t, k) {
        LeaderHolds(c, h, t, k, m.term);
        assert KeepsCommon(n.log, log, n'.log, Chunk(h, t, k));
      }
    }
    forall b, t, k ensures Informed(c', h', b, t, k) {
      assert Informed(c, h, b, t, k) && BallotOk(c, h, b);
    }
    forall u, t, k ensures Complete(c', h', u, t, k) { assert Complete(c, h, u, t, k); }
  }

  /** What a node has committed is in the log of any leader it still listens to. */
  lemma CommittedInLeader(c: Cluster, h: History, log: Log, term: nat, u: nat)
    requires ElectionInv(c, h) && SafeInv(c, h) && CommittedLog(c, h, log, term) && u in h.elections && term <= u
    ensures log <= h.elections[u].log
  {
    if log != [] {
      var t: nat, k: nat :| t <= term && WithinChosen(c, h, log, t, k);
      ChosenIsChoosable(c, h, t, k);
      LeaderHolds(c, h, t, k, u);
    }
  }

  /** The committed prefix survives the merge. */
  lemma AcceptKeepsCommitted(c: Cluster, h: History, id: Id, m: Message, n': Node)
    requires ElectionInv(c, h) && SafeInv(c, h) && Accepting(c, h, id, m, n') && NodeCommitOk(c, h, id)
    ensures var n := c.nodes[id]; n.log[..n.commitIndex + 1] <= n'.log
  {
    var n := c.nodes[id];
    var mine := n.log[..n.commitIndex + 1];
    CommittedInLeader(c, h, mine, n.currentTerm, m.term);
    assert KeepsCommon(n.log, h.elections[m.term].log, n'.log, mine);
  }

  lemma AcceptedNodeCommit(c: Cluster, h: History, id: Id, m: Message, c': Cluster, h': History)
    requires OneNode(c, h, c', h', id) && NodeCommitOk(c, h, id) && CommitMsgOk(c, h, m) && m in c.msgs
    requires m.AppendEntries? && m.leaderCommit <= m.prevLogIndex + |m.entries|
    requires CommitTaken(c.nodes[id], m, c'.nodes[id])
    requires
      var n, n' := c.nodes[id], c'.nodes[id];
      var held := m.prevLogIndex + 1 + |m.entries|;
      && n'.currentTerm == m.term && n'.role == Follower && m.prevLogIndex >= -1
      && n.log[..n.commitIndex + 1] <= n'.log
      && held <= |n'.log| && held <= |h.elections[m.term].log| && n'.log[..held] == h.elections[m.term].log[..held]
    ensures NodeCommitOk(c', h', id)
  {
    var n, n' := c.nodes[id], c'.nodes[id];
    var log := h.elections[m.term].log;
    var mine := n.log[..n.commitIndex + 1];
    if m.leaderCommit > n.commitIndex {
      var held := m.prevLogIndex + 1 + |m.entries|;
      assert n'.log[..held][..m.leaderCommit + 1] == n'.log[..m.leaderCommit + 1];
      assert log[..held][..m.leaderCommit + 1] == log[..m.leaderCommit + 1];
      CommittedStays(c, h, c', h', log[..m.leaderCommit + 1], m.term, m.term);
    } else {
      assert n'.log[..n.commitIndex + 1] == mine;
      CommittedStays(c, h, c', h', mine, n.currentTerm, m.term);
    }
  }

  lemma AcceptCommits(c: Cluster, h: History, id: Id, m: Message, c': Cluster)
    requires ElectionInv(c, h) && SafeInv(c, h) && CommitInv(c, h)
    requires OneNode(c, h, c', h, id) && Accepting(c, h, id, m, c'.nodes[id])
    requires CommitTaken(c.nodes[id], m, c'.nodes[id])
    requires m in c.msgs && forall x :: x in c'.msgs && x !in c.msgs ==> !x.AppendEntries?
    ensures CommitInv(c', AfterAppend(h, id, m))
  {
    var h' := AfterAppend(h, id, m);
    assert NodeCommitOk(c, h, id) && CommitMsgOk(c, h, m);
    AcceptKeepsCommitted(c, h, id, m, c'.nodes[id]);
    AcceptedNodeCommit(c, h, id, m, c', h');
    forall q ensures NodeCommitOk(c', h', q) {
      if q != id { OthersCommitted(c, h, c', h', id, q); }
    }
    forall x ensures CommitMsgOk(c', h', x) {
      if x in c.msgs { MessageCommitted(c, h, c', h', id, x); }
    }
  }

  // ---------------------------------------------------------------- replies and commit

  lemma ReceiveAppendReplyStep(c: Cluster, h: History, id: Id, m: Message)
    requires Inv(c, h) && Enabled(c, ReceiveAppendReply(id, m))
    ensures Inv(Apply(c, ReceiveAppendReply(id, m)), h)
  {
    var n := c.nodes[id];
    var c' := Apply(c, ReceiveAppendReply(id, m));
    var n' := c'.nodes[id];
    assert AppendMsgOk(c, h, m) && NodeElectionOk(c, h, id) && NodeLogOk(c, h, id) && NodeCommitOk(c, h, id);
    assert Extends(h, h) && Quiet(c, h, c', h, id);
    NoVoteElections(c, h, c', id);
    QuietLogs(c, h, c', h, id);
    QuietSafe(c, h, c', h, id);
    if n'.commitIndex == n.commitIndex {
      assert n'.role == Leader ==> PeersOk(h, n') by { assert AckOk(c, h, m.peer, m.sentTerm); }
      SameCommit(c, h, c', h, id);
    } else {
      ReplyCommits(c, h, id, m, c');
    }
  }

  /** The holders the leader counts have acknowledged the chunk it commits. */
  lemma HoldersChose(c: Cluster, h: History, id: Id, n: Node, index: nat)
    requires LogInv(c, h) && id in c.nodes && n.role == Leader && PeersOk(h, n)
    requires n.currentTerm in h.elections && n.log == h.elections[n.currentTerm].log
    requires Acked(h, id, n.currentTerm, |n.log|)
    requires Committable(n, id, c.nodes.Keys, index)
    ensures WithinChosen(c, h, n.log[..index + 1], n.currentTerm, index + 1)
  {
    var holders := Holders(n, id, c.nodes.Keys, index);
    forall p | p in holders ensures p in AckSet(c, h, n.currentTerm, index + 1) {
      assert Acked(h, p, n.currentTerm, index + 1);
    }
    MajorityGrows(holders, AckSet(c, h, n.currentTerm, index + 1), c.nodes.Keys);
  }

  lemma ReplyCommits(c: Cluster, h: History, id: Id, m: Message, c': Cluster)
    requires LogInv(c, h) && CommitInv(c, h) && id in c.nodes && m.AppendReply? && m in c.msgs
    requires c' == c.Set(id, OnAppendReply(c.nodes[id], id, c.nodes.Keys, m))
    requires OneNode(c, h, c', h, id) && c'.nodes[id].commitIndex != c.nodes[id].commitIndex
    ensures CommitInv(c', h)
  {
    var n, n' := c.nodes[id], c'.nodes[id];
    assert AppendMsgOk(c, h, m) && NodeLogOk(c, h, id) && NodeCommitOk(c, h, id) && AckOk(c, h, m.peer, m.sentTerm);
    assert PeersOk(h, n');
    HoldersSame(n', n.commitIndex, id, c.nodes.Keys, n'.commitIndex);
    HoldersChose(c, h, id, n', n'.commitIndex);
    CommittedStays(c, h, c', h, n'.log[..n'.commitIndex + 1], n.currentTerm, n.currentTerm);
    forall q ensures NodeCommitOk(c', h, q) {
      if q != id { OthersCommitted(c, h, c', h, id, q); }
    }
    forall x ensures CommitMsgOk(c', h, x) {
      if x in c.msgs { MessageCommitted(c, h, c', h, id, x); }
    }
  }

  /** Whether an index can be committed does not depend on the commit index. */
  lemma HoldersSame(n': Node, commitIndex: int, id: Id, ids: set<Id>, index: int)
    ensures forall s :: Committable(n'.(commitIndex := commitIndex, signals := s), id, ids, index)
                        == Committable(n', id, ids, index)
  {
    forall s ensures Holders(n'.(commitIndex := commitIndex, signals := s), id, ids, index) == Holders(n', id, ids, index) {}
  }

  // ---------------------------------------------------------------- applying

  lemma PumpStep(c: Cluster, h: History, id: Id)
    requires Inv(c, h) && Enabled(c, Pump(id))
    ensures Inv(Apply(c, Pump(id)), h)
  {
    var n := c.nodes[id];
    var c' := Apply(c, Pump(id));
    assert NodeElectionOk(c, h, id) && NodeCommitOk(c, h, id);
    assert Extends(h, h) && Quiet(c, h, c', h, id);
    NoVoteElections(c, h, c', id);
    QuietLogs(c, h, c', h, id);
    QuietSafe(c, h, c', h, id);
    PumpCommits(c, h, id, c');
  }

  lemma PumpCommits(c: Cluster, h: History, id: Id, c': Cluster)
    requires CommitInv(c, h) && Enabled(c, Pump(id)) && c' == Apply(c, Pump(id))
    requires OneNode(c, h, c', h, id)
    ensures CommitInv(c', h)
  {
    var n := c.nodes[id];
    assert NodeCommitOk(c, h, id);
    PumpPushes(n);
    CommittedStays(c, h, c', h, n.log[..n.commitIndex + 1], n.currentTerm, n.currentTerm);
    forall q ensures NodeCommitOk(c', h, q) {
      if q != id { OthersCommitted(c, h, c', h, id, q); }
    }
    forall m ensures CommitMsgOk(c', h, m) {
      if m in c.msgs { MessageCommitted(c, h, c', h, id, m); }
    }
  }

  lemma PumpPushes(n: Node)
    requires n.signals > 0 && -1 <= n.lastApplied <= n.commitIndex < |n.log| && PushedOk(n)
    ensures PushedOk(OnPump(n)) && OnPump(n).lastApplied == n.commitIndex
  {
  }
}
