/**
 * The inductive invariant. A history records what the run has forgotten: who was elected in
 * each term and with which log, every ballot cast, and how much of a term's log each node
 * acknowledged. No theorem over runs mentions it.
 */
module RaftInvariant {
  import opened Quorum
  import opened RaftNode
  import opened RaftCluster

  /** `base` is the leader's log when it was elected, `log` that log with all it appended since. */
  datatype Election = Election(leader: Id, voters: set<Id>, base: Log, log: Log)

  datatype Ballot = Ballot(voter: Id, term: nat, candidate: Id)

  datatype LastEntry = LastEntry(term: int, index: int)

  datatype History = History(
    elections: map<nat, Election>,
    ballots: set<Ballot>,
    requests: map<(nat, Id), LastEntry>,  // what a candidate claimed about its log
    acks: map<(Id, nat), nat>)            // length of the term's leader log a node has held

  // ---------------------------------------------------------------- elections

  ghost predicate ElectionOk(c: Cluster, h: History, u: nat) {
    u in h.elections ==>
    var e := h.elections[u];
    && e.leader in c.nodes
    && e.leader in e.voters
    && Majority(e.voters, c.nodes.Keys)
    && e.base <= e.log
    && (c.nodes[e.leader].currentTerm == u ==> c.nodes[e.leader].role == Leader)
    && forall q :: VoterOk(c, h, u, e.leader, e.voters, q)
  }

  ghost predicate VoterOk(c: Cluster, h: History, u: nat, leader: Id, voters: set<Id>, q: Id) {
    q in voters ==>
    && q in c.nodes
    && c.nodes[q].currentTerm >= u
    && (c.nodes[q].currentTerm == u ==> c.nodes[q].votedFor == leader)
    && forall candidate :: Ballot(q, u, candidate) in h.ballots ==> candidate == leader
  }

  ghost predicate BallotOk(c: Cluster, h: History, b: Ballot) {
    b in h.ballots ==>
    && b.voter in c.nodes && b.candidate in c.nodes
    && b.term <= c.nodes[b.voter].currentTerm
    && (b.term, b.candidate) in h.requests
    && (b.term !in h.elections && c.nodes[b.voter].currentTerm == b.term
        ==> c.nodes[b.voter].votedFor == b.candidate)
  }

  ghost predicate SingleBallot(h: History, q: Id, u: nat, a: Id, b: Id) {
    u !in h.elections && Ballot(q, u, a) in h.ballots && Ballot(q, u, b) in h.ballots ==> a == b
  }

  ghost predicate NodeElectionOk(c: Cluster, h: History, id: Id) {
    id in c.nodes ==>
    var n := c.nodes[id];
    && (n.role == Leader ==>
          n.currentTerm in h.elections && h.elections[n.currentTerm].leader == id)
    && (n.role == Candidate ==>
          && n.votedFor == id
          && (n.currentTerm, id) in h.requests
          && h.requests[(n.currentTerm, id)] == LastEntry(LastTerm(n.log), LastIndex(n.log))
          && id in n.votes
          && forall q :: q in n.votes ==> Ballot(q, n.currentTerm, id) in h.ballots)
  }

  ghost predicate RequestOk(c: Cluster, h: History, u: nat, id: Id) {
    (u, id) in h.requests ==> id in c.nodes && u <= c.nodes[id].currentTerm
  }

  ghost predicate VoteMsgOk(c: Cluster, h: History, m: Message) {
    m in c.msgs ==>
    match m
    case RequestVote(u, candidate, index, term) =>
      (u, candidate) in h.requests && h.requests[(u, candidate)] == LastEntry(term, index)
    case VoteReply(u, granted, voter, candidate) =>
      granted ==> Ballot(voter, u, candidate) in h.ballots
    case _ => true
  }

  ghost predicate ElectionInv(c: Cluster, h: History) {
    && c.WellFormed()
    && (forall u: nat :: ElectionOk(c, h, u))
    && (forall b :: BallotOk(c, h, b))
    && (forall q, u, a, b :: SingleBallot(h, q, u, a, b))
    && (forall u, id :: RequestOk(c, h, u, id))
    && (forall id :: NodeElectionOk(c, h, id))
    && (forall m :: VoteMsgOk(c, h, m))
  }

  // ---------------------------------------------------------------- logs

  /** Every entry's history up to it is the history its term's leader had. */
  ghost predicate LogOk(h: History, log: Log) {
    forall i :: EntryOk(h, log, i)
  }

  ghost predicate EntryOk(h: History, log: Log, i: int) {
    0 <= i < |log| ==>
      log[i].term in h.elections && log[..i + 1] <= h.elections[log[i].term].log
  }

  ghost predicate TermsUpTo(log: Log, term: nat) {
    forall i :: 0 <= i < |log| ==> log[i].term <= term
  }

  ghost predicate NodeLogOk(c: Cluster, h: History, id: Id) {
    id in c.nodes ==>
    var n := c.nodes[id];
    && LogOk(h, n.log)
    && TermsUpTo(n.log, n.currentTerm)
    && (n.role == Leader ==>
          && n.currentTerm in h.elections
          && n.log == h.elections[n.currentTerm].log
          && (id, n.currentTerm) in h.acks
          && h.acks[(id, n.currentTerm)] == |n.log|)
  }

  ghost predicate Acked(h: History, q: Id, t: nat, k: nat) {
    (q, t) in h.acks && k <= h.acks[(q, t)]
  }

  ghost predicate AckOk(c: Cluster, h: History, q: Id, t: nat) {
    (q, t) in h.acks ==>
    && q in c.nodes
    && t in h.elections
    && t <= c.nodes[q].currentTerm
    && h.acks[(q, t)] <= |h.elections[t].log|
  }

  ghost predicate LeaderLogOk(h: History, u: nat) {
    u in h.elections ==> LogOk(h, h.elections[u].log) && TermsUpTo(h.elections[u].log, u)
  }

  ghost predicate AppendMsgOk(c: Cluster, h: History, m: Message) {
    m in c.msgs ==> AppendShape(h, m)
  }

  ghost predicate AppendShape(h: History, m: Message) {
    && (m.AppendEntries? ==> m.term in h.elections && SentBy(h.elections[m.term], m))
    && (m.AppendReply? ==> m.sentTerm in h.elections && RepliedTo(h, m, |h.elections[m.sentTerm].log|))
  }

  /** An append message is a slice of its term's leader log. */
  ghost predicate SentBy(e: Election, m: Message)
    requires m.AppendEntries?
  {
    && m.leader == e.leader && m.peer != m.leader
    && -1 <= m.prevLogIndex < |e.log|
    && m.prevLogIndex + |m.entries| < |e.log|
    && (forall j :: 0 <= j < |m.entries| ==> m.entries[j] == e.log[m.prevLogIndex + 1 + j])
    && (m.prevLogIndex >= 0 ==> m.prevLogTerm == e.log[m.prevLogIndex].term)
    && m.leaderCommit <= m.prevLogIndex + |m.entries|
  }

  /** A success is backed by an acknowledgement; a failure is never about the empty prefix. */
  ghost predicate RepliedTo(h: History, m: Message, length: nat)
    requires m.AppendReply?
  {
    && 0 <= m.sentNext <= length
    && (m.success ==> m.term == m.sentTerm && Acked(h, m.peer, m.sentTerm, m.sentNext + m.sentCount))
    && (!m.success && m.term == m.sentTerm ==> m.sentNext >= 1)
  }

  ghost predicate LogInv(c: Cluster, h: History) {
    && (forall u :: LeaderLogOk(h, u))
    && (forall id :: NodeLogOk(c, h, id))
    && (forall q, t :: AckOk(c, h, q, t))
    && (forall m :: AppendMsgOk(c, h, m))
  }

  // ---------------------------------------------------------------- what may be committed

  /** The first `k` entries of term t's leader log, ending in an entry of term t itself. */
  ghost predicate Proper(h: History, t: nat, k: nat) {
    && t in h.elections
    && 1 <= k <= |h.elections[t].log|
    && h.elections[t].log[k - 1].term == t
  }

  ghost function Chunk(h: History, t: nat, k: nat): Log
    requires Proper(h, t, k)
  {
    h.elections[t].log[..k]
  }

  ghost function AckSet(c: Cluster, h: History, t: nat, k: nat): set<Id> {
    set q | q in c.nodes && Acked(h, q, t, k)
  }

  ghost predicate MayHold(c: Cluster, h: History, q: Id, t: nat, k: nat)
    requires q in c.nodes
  {
    Acked(h, q, t, k) || c.nodes[q].currentTerm <= t
  }

  ghost function HoldSet(c: Cluster, h: History, t: nat, k: nat): set<Id> {
    set q | q in c.nodes && MayHold(c, h, q, t, k)
  }

  /** A majority has acknowledged the chunk or could still do so. */
  ghost predicate Choosable(c: Cluster, h: History, t: nat, k: nat) {
    Majority(HoldSet(c, h, t, k), c.nodes.Keys)
  }

  ghost predicate Chosen(c: Cluster, h: History, t: nat, k: nat) {
    Proper(h, t, k) && Majority(AckSet(c, h, t, k), c.nodes.Keys)
  }

  /** A chunk that may still be chosen. */
  ghost predicate Live(c: Cluster, h: History, t: nat, k: nat) {
    Proper(h, t, k) && Choosable(c, h, t, k)
  }

  /** Whoever acknowledged a chunk that may still be chosen still holds it. */
  ghost predicate Retained(c: Cluster, h: History, q: Id, t: nat, k: nat) {
    q in c.nodes && Acked(h, q, t, k) && Live(c, h, t, k) ==> Chunk(h, t, k) <= c.nodes[q].log
  }

  /** Whoever acknowledged such a chunk voted later only for candidates that claimed as much. */
  ghost predicate Informed(c: Cluster, h: History, b: Ballot, t: nat, k: nat) {
    b in h.ballots && t < b.term && Acked(h, b.voter, t, k) && Live(c, h, t, k) ==> ClaimsAtLeast(h, b, t, k)
  }

  ghost predicate ClaimsAtLeast(h: History, b: Ballot, t: nat, k: nat) {
    && (b.term, b.candidate) in h.requests
    && var r := h.requests[(b.term, b.candidate)];
    AtLeast(r.term, r.index, t, k - 1)
  }

  /** Every leader elected later started with every chunk that may be chosen. */
  ghost predicate Complete(c: Cluster, h: History, u: nat, t: nat, k: nat) {
    u in h.elections && t < u && Live(c, h, t, k) ==> Chunk(h, t, k) <= h.elections[u].base
  }

  ghost predicate SafeInv(c: Cluster, h: History) {
    && (forall q, t, k :: Retained(c, h, q, t, k))
    && (forall b, t, k :: Informed(c, h, b, t, k))
    && (forall u, t, k :: Complete(c, h, u, t, k))
  }

  // ---------------------------------------------------------------- what is committed

  ghost predicate WithinChosen(c: Cluster, h: History, log: Log, t: nat, k: nat) {
    Chosen(c, h, t, k) && log <= Chunk(h, t, k)
  }

  /** `log` is a prefix of something chosen in a term up to `term`. */
  ghost predicate CommittedLog(c: Cluster, h: History, log: Log, term: nat) {
    log == [] || exists t: nat, k: nat :: t <= term && WithinChosen(c, h, log, t, k)
  }

  ghost predicate PushedOk(n: Node) {
    && |n.pushed| == n.lastApplied + 1
    && |n.pushed| <= |n.log|
    && forall i :: 0 <= i < |n.pushed| ==>
         n.pushed[i].index == i && n.pushed[i].command == n.log[i].command
  }

  ghost predicate NodeCommitOk(c: Cluster, h: History, id: Id) {
    id in c.nodes ==>
    var n := c.nodes[id];
    && -1 <= n.lastApplied <= n.commitIndex < |n.log|
    && CommittedLog(c, h, n.log[..n.commitIndex + 1], n.currentTerm)
    && PushedOk(n)
    && (n.commitIndex > n.lastApplied ==> n.signals > 0)
    && (n.role == Leader ==> PeersOk(h, n))
  }

  ghost predicate PeersOk(h: History, n: Node) {
    && (forall p :: p in n.nextIndex ==> 0 <= n.nextIndex[p] <= |n.log|)
    && (forall p :: p in n.matchIndex ==> n.matchIndex[p] >= -1 && Acked(h, p, n.currentTerm, n.matchIndex[p] + 1))
  }

  ghost predicate CommitMsgOk(c: Cluster, h: History, m: Message) {
    m in c.msgs && m.AppendEntries? ==>
      && m.leaderCommit >= -1
      && m.term in h.elections
      && m.leaderCommit < |h.elections[m.term].log|
      && CommittedLog(c, h, h.elections[m.term].log[..m.leaderCommit + 1], m.term)
  }

  ghost predicate CommitInv(c: Cluster, h: History) {
    && (forall id :: NodeCommitOk(c, h, id))
    && (forall m :: CommitMsgOk(c, h, m))
  }

  ghost predicate Inv(c: Cluster, h: History) {
    ElectionInv(c, h) && LogInv(c, h) && SafeInv(c, h) && CommitInv(c, h)
  }
}
