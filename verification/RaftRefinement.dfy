/**
 * How the 64-bit handlers relate to the integer ones of the cluster proof. Where the source
 * departs from the rule it states, the exact condition of agreement is given, with a concrete
 * case of disagreement and its consequence.
 */
module RaftRefinement {
  import opened Basics
  import opened RaftNode
  import opened RaftMerge
  import RaftCluster
  import opened RaftAsWritten

  /** MaxUint64 stands for -1. */
  function FromWord(x: u64): int {
    if x == MAX then -1 else x
  }

  function DecodeMap(m: map<u64, u64>): map<Id, int> {
    map p: int | p in m :: FromWord(m[p])
  }

  function Decode(r: Fields, votes: set<Id>): Node {
    Node(r.currentTerm, FromWord(r.votedFor), r.log, r.role, votes, DecodeMap(r.nextIndex), DecodeMap(r.matchIndex),
         FromWord(r.commitIndex), FromWord(r.lastApplied), r.signals, r.pushed)
  }

  lemma DecodeMapInjective(a: map<u64, u64>, b: map<u64, u64>)
    requires DecodeMap(a) == DecodeMap(b)
    ensures a == b
  {
    forall p: u64 ensures (p in a <==> p in b) && (p in a ==> a[p] == b[p]) {
      assert p in a <==> p as Id in DecodeMap(a);
      assert p in b <==> p as Id in DecodeMap(b);
      if p in a { assert FromWord(a[p]) == DecodeMap(a)[p] == DecodeMap(b)[p] == FromWord(b[p]); }
    }
  }

  /** Decoding loses nothing but the identity of the node. */
  lemma DecodeInjective(a: Fields, b: Fields, votes: set<Id>)
    requires Decode(a, votes) == Decode(b, votes) && a.id == b.id && a.peers == b.peers
    ensures a == b
  {
    DecodeMapInjective(a.nextIndex, b.nextIndex);
    DecodeMapInjective(a.matchIndex, b.matchIndex);
  }

  // ---------------------------------------------------------------- voting

  function DecodeVote(vote: Vote): Message {
    Message.RequestVote(vote.term, vote.candidate, FromWord(vote.lastLogIndex), FromWord(vote.lastLogTerm))
  }

  ghost predicate VoteAgrees(r: Fields, votes: set<Id>, vote: Vote)
    requires FitsWords(r)
  {
    var (r', reply) := AfterRequestVote(r, vote);
    (Decode(r', votes), Message.VoteReply(reply.term, reply.ok, r.id, vote.candidate))
      == OnRequestVote(Decode(r, votes), r.id, DecodeVote(vote))
  }

  /** The candidate's last term is newer, whatever the lengths, or equal and its log at least as long. */
  predicate UpToDate(r: Fields, vote: Vote) {
    var term, index := FromWord(vote.lastLogTerm), FromWord(vote.lastLogIndex);
    if r.log == [] then term > -1 || (term == -1 && index >= -1)
    else term > r.log[|r.log| - 1].term || (term == r.log[|r.log| - 1].term && index >= |r.log| - 1)
  }

  /** The candidate's log looks newer to the unsigned comparison. */
  predicate LooksNewer(r: Fields, vote: Vote)
    requires FitsWords(r)
  {
    var (lastIndex, lastTerm) := LastLog(r.log);
    || vote.lastLogTerm > lastTerm
    || (vote.lastLogTerm == lastTerm && vote.lastLogIndex >= lastIndex && lastIndex != MAX)
  }

  /**
   * The vote as written is the intended vote exactly when: for a newer term the candidate is up
   * to date; for the current term it is up to date and no other candidate has the vote; for an
   * older term its log does not look newer, and the current term is not MaxUint64, which counts
   * as older than every other.
   */
  lemma VoteAgreement(r: Fields, votes: set<Id>, vote: Vote)
    requires FitsWords(r) && vote.candidate < MAX
    ensures VoteAgrees(r, votes, vote) <==>
            (if vote.term > r.currentTerm then UpToDate(r, vote)
             else if vote.term == r.currentTerm then
               UpToDate(r, vote) && (r.votedFor == MAX || r.votedFor == vote.candidate)
             else !LooksNewer(r, vote) && r.currentTerm != MAX)
  {
    var n := Decode(r, votes);
    var n1 := AdoptTerm(n, vote.term);
    var r1 := Adopt(r, vote.term);
    if r.currentTerm != MAX || vote.term == MAX {
      assert Decode(r1, votes) == n1;
      assert Decode(r1.(votedFor := vote.candidate), votes) == n1.(votedFor := vote.candidate);
    } else {
      assert AfterRequestVote(r, vote).0.currentTerm == vote.term < OnRequestVote(n, r.id, DecodeVote(vote)).0.currentTerm;
    }
  }

  /** A candidate asks for votes in the term before the one it will lead. */
  lemma ElectionAsksForThePreviousTerm(r: Fields)
    requires FitsWords(r) && r.currentTerm < MAX && r.id < MAX
    ensures
      var (r', vote) := AfterStartElection(r);
      && r'.currentTerm == vote.term + 1
      && Decode(r', {r.id as Id}) == RaftNode.StartElection(Decode(r, {}), r.id)
      && DecodeVote(vote) == Message.RequestVote(r'.currentTerm - 1, r.id, LastIndex(r.log), LastTerm(r.log))
  {
  }

  // ---------------------------------------------------------------- counting votes

  /** The node after a vote reply, and its counter as the number of its votes, are what is meant. */
  ghost predicate VoteReplyAgrees(r: Fields, votes: set<Id>, electionTerm: u64, counter: nat, voter: u64, reply: Reply) {
    var (r', counter') := AfterVoteReply(r, electionTerm, counter, reply);
    var n' := RaftNode.OnVoteReply(Decode(r, votes), Message.VoteReply(reply.term, reply.ok, voter, r.id), |r.peers| + 1);
    Decode(r', n'.votes) == n' && (r.role == Candidate ==> counter' == |n'.votes|)
  }

  /** The votes that count after a reply: those of the current term. */
  function VotesAfter(r: Fields, votes: set<Id>, voter: u64, reply: Reply): set<Id> {
    if reply.term == r.currentTerm && reply.ok then votes + {voter as Id} else votes
  }

  /** This reply brings a majority of the current term to a node without indexes of an earlier leadership. */
  predicate WinsFresh(r: Fields, reply: Reply) {
    reply.term == r.currentTerm && reply.ok && r.nextIndex == map[] && r.matchIndex == map[]
  }

  /** The counter is the number of votes of the current term, and a majority is won fresh. */
  predicate CountsAsMeant(r: Fields, votes: set<Id>, electionTerm: u64, counter: nat, voter: u64, reply: Reply) {
    var after := VotesAfter(r, votes, voter, reply);
    && reply.term <= r.currentTerm && GotVote(electionTerm, counter, reply) == |after|
    && (2 * |after| > |r.peers| + 1 ==> WinsFresh(r, reply))
  }

  /**
   * A candidate handles a vote reply as meant exactly when: a reply newer than the election is
   * newer than the current term too; any other is not; the counter then is the number of votes of
   * the current term; and if that is a majority, this reply brought it and nothing is left of the
   * indexes of an earlier leadership.
   */
  lemma VoteReplyAgreement(r: Fields, votes: set<Id>, electionTerm: u64, counter: nat, voter: u64, reply: Reply)
    ensures VoteReplyAgrees(r, votes, electionTerm, counter, voter, reply) <==>
            (r.role == Candidate ==>
               if reply.term > electionTerm || electionTerm == MAX then reply.term > r.currentTerm && counter == |votes|
               else CountsAsMeant(r, votes, electionTerm, counter, voter, reply))
  {
    if DecodeMap(r.nextIndex) == map[] { DecodeMapInjective(r.nextIndex, map[]); }
    if DecodeMap(r.matchIndex) == map[] { DecodeMapInjective(r.matchIndex, map[]); }
  }

  /** So no vote of a running election is: it counts votes of the term before the node's own. */
  lemma RunningElectionCountsOtherVotes(r: Fields, votes: set<Id>, electionTerm: u64, voter: u64)
    requires r.role == Candidate && electionTerm < MAX && r.currentTerm == electionTerm + 1
    ensures !VoteReplyAgrees(r, votes, electionTerm, |votes|, voter, Reply(electionTerm, true))
  {
    VoteReplyAgreement(r, votes, electionTerm, |votes|, voter, Reply(electionTerm, true));
  }

  // ---------------------------------------------------------------- appending

  function DecodeAppend(req: Append, peer: u64): Message {
    Message.AppendEntries(req.term, req.leader, peer, FromWord(req.prevLogIndex), FromWord(req.prevLogTerm), req.entries,
                          FromWord(req.leaderCommit))
  }

  /** Where the entries of a message begin in the log. */
  function Begin(req: Append): nat {
    FromWord(req.prevLogIndex) + 1
  }

  ghost predicate AppendAgrees(r: Fields, votes: set<Id>, req: Append)
    requires FitsWords(r) && AppendFits(r, req)
  {
    var (r', reply) := AfterAppendEntries(r, req);
    (Decode(r', votes), Message.AppendReply(reply.term, reply.ok, r.id, req.leader, req.term,
                                            FromWord(req.prevLogIndex) + 1, |req.entries|))
      == RaftNode.OnAppendEntries(Decode(r, votes), DecodeAppend(req, r.id))
  }

  /** The append is for this node's term or a newer one and passes the consistency check. */
  predicate Taken(r: Fields, req: Append) {
    req.term >= r.currentTerm && AcceptsAsWritten(r.log, req.prevLogIndex, req.prevLogTerm)
  }

  /** "Nothing committed" sent to a node that has committed something. */
  predicate ForgetsCommit(r: Fields, req: Append) {
    req.leaderCommit == MAX && r.commitIndex != MAX
  }

  /** A newer commit index, but no entry on either side to commit. */
  predicate CommitsNothing(r: Fields, req: Append) {
    req.leaderCommit != MAX && FromWord(req.leaderCommit) > FromWord(r.commitIndex) && r.log == [] && req.entries == []
  }

  /**
   * Append handling as written is the integer handler exactly when an accepted message neither
   * carries "nothing committed" to a node that has committed something, nor a real commit index
   * that leaves the node with an empty log; and the current term is not MaxUint64, which counts
   * as older than every other.
   */
  lemma AppendAgreement(r: Fields, votes: set<Id>, req: Append)
    requires FitsWords(r) && AppendFits(r, req)
    ensures AppendAgrees(r, votes, req) <==>
            !(r.currentTerm == MAX && req.term != MAX) &&
            !(Taken(r, req) && (ForgetsCommit(r, req) || CommitsNothing(r, req)))
  {
    AcceptsDecodes(r, req);
    if r.currentTerm == MAX && req.term != MAX {
      assert AfterAppendEntries(r, req).0.currentTerm == req.term;
    } else if Taken(r, req) {
      TakenAgreement(r, votes, req);
    } else {
      assert DecodeMap(r.nextIndex) == DecodeMap(Adopt(r, req.term).nextIndex);
    }
  }

  /** The node right before an accepted append touches the commit index. */
  function MergedFields(r: Fields, term: u64, log: Log): Fields {
    var r2 := if term > r.currentTerm || r.role != Follower then ToFollower(r, term) else r;
    r2.(log := log)
  }

  lemma TakenAsWritten(r: Fields, req: Append)
    requires FitsWords(r) && AppendFits(r, req) && Taken(r, req)
    ensures
      var log := Merge(r.log, Wrap(req.prevLogIndex + 1), req.entries);
      AfterAppendEntries(r, req) == (TakeCommit(MergedFields(r, req.term, log), req.leaderCommit), Reply(req.term, true))
  {
  }

  /** The same point in the integer handler. */
  function MergedNode(n: Node, term: nat, log: Log): Node {
    var n2 := if term > n.currentTerm || n.role != Follower then MakeFollower(n, term) else n;
    n2.(log := log)
  }

  lemma TakenAsIntended(n: Node, m: Message)
    requires m.AppendEntries? && m.term >= n.currentTerm && Accepts(n.log, m.prevLogIndex, m.prevLogTerm)
    ensures
      var log := Merge(n.log, m.prevLogIndex + 1, m.entries);
      RaftNode.OnAppendEntries(n, m)
        == (IntendedCommit(MergedNode(n, m.term, log), m.leaderCommit),
            Message.AppendReply(m.term, true, m.peer, m.leader, m.term, m.prevLogIndex + 1, |m.entries|))
  {
  }

  lemma AcceptsDecodes(r: Fields, req: Append)
    requires FitsWords(r)
    ensures AcceptsAsWritten(r.log, req.prevLogIndex, req.prevLogTerm)
            <==> Accepts(r.log, FromWord(req.prevLogIndex), FromWord(req.prevLogTerm))
  {
  }

  lemma MergedDecodes(r: Fields, votes: set<Id>, term: u64, log: Log)
    ensures Decode(MergedFields(r, term, log), votes) == MergedNode(Decode(r, votes), term, log)
  {
  }

  lemma TakenAgreement(r: Fields, votes: set<Id>, req: Append)
    requires FitsWords(r) && AppendFits(r, req) && Taken(r, req)
    ensures AppendAgrees(r, votes, req) <==> !(ForgetsCommit(r, req) || CommitsNothing(r, req))
  {
    AcceptsDecodes(r, req);
    var log := Merge(r.log, FromWord(req.prevLogIndex) + 1, req.entries);
    assert Wrap(req.prevLogIndex + 1) == FromWord(req.prevLogIndex) + 1;
    TakenAsWritten(r, req);
    MergedDecodes(r, votes, req.term, log);
    TakenAsIntended(Decode(r, votes), DecodeAppend(req, r.id));
    EmptyMerge(r.log, FromWord(req.prevLogIndex) + 1, req.entries);
    TakeCommitAgreement(MergedFields(r, req.term, log), votes, req.leaderCommit);
  }

  /** A merge leaves an empty log only when there was nothing on either side. */
  lemma EmptyMerge(log: Log, at: nat, entries: Log)
    requires at <= |log|
    ensures Merge(log, at, entries) == [] <==> log == [] && entries == []
  {
  }

  /** The integer rule for the commit index after an accepted append. */
  function IntendedCommit(n: Node, leaderCommit: int): Node {
    if leaderCommit > n.commitIndex
    then n.(commitIndex := Min(leaderCommit, |n.log| - 1), signals := n.signals + 1)
    else n
  }

  /** Unsigned and signed comparison, wrapped and plain minimum. */
  lemma TakeCommitAgreement(r: Fields, votes: set<Id>, leaderCommit: u64)
    requires |r.log| < MAX
    ensures Decode(TakeCommit(r, leaderCommit), votes) == IntendedCommit(Decode(r, votes), FromWord(leaderCommit))
            <==> !(|| (leaderCommit == MAX && r.commitIndex != MAX)
                   || (leaderCommit != MAX && FromWord(leaderCommit) > FromWord(r.commitIndex) && r.log == []))
  {
    var r' := TakeCommit(r, leaderCommit);
    var n' := IntendedCommit(Decode(r, votes), FromWord(leaderCommit));
    assert Decode(r', votes) == n' <==> FromWord(r'.commitIndex) == n'.commitIndex && r'.signals == n'.signals;
  }

  /**
   * What the first disagreement does: a heartbeat from a leader that has committed nothing makes
   * a follower that has committed something commit its whole log.
   */
  lemma IdleLeaderCommitsEverything(r: Fields, req: Append)
    requires FitsWords(r) && AppendFits(r, req) && Taken(r, req)
    requires req.leaderCommit == MAX && r.commitIndex != MAX && r.log != []
    ensures
      var r' := AfterAppendEntries(r, req).0;
      FromWord(r'.commitIndex) == |r'.log| - 1
  {
    TakenAsWritten(r, req);
    EmptyMerge(r.log, Wrap(req.prevLogIndex + 1), req.entries);
  }

  /** A leader's log grows by one entry of its term and nothing else changes; nobody else takes the command. */
  lemma SubmitAgreement(r: Fields, votes: set<Id>, command: Command)
    ensures Decode(AfterSubmit(r, command), votes) == OnSubmit(Decode(r, votes), command)
    ensures
      var n := Decode(r, votes);
      var n' := OnSubmit(n, command);
      && n' == n.(log := n'.log)
      && (if n.role == Leader then |n'.log| == |n.log| + 1 && n.log <= n'.log && n'.log[|n.log|] == Entry(n.currentTerm, command)
          else n'.log == n.log)
  {
  }

  /** Some server of the cluster can take a step that sends the message. */
  ghost predicate SentByStep(c: RaftCluster.Cluster, m: Message) {
    exists id, peer :: RaftCluster.Enabled(c, RaftCluster.Send(id, peer)) && AppendFor(c.nodes[id], id, peer) == m
  }

  /**
   * The request built with wrap-around is one the cluster can send exactly if the node is still
   * leader and the term read earlier is still its own; the source checks neither.
   */
  lemma SendAgreement(c: RaftCluster.Cluster, r: Fields, votes: set<Id>, peer: u64, myTerm: u64)
    requires FitsWords(r) && NextIndexOf(r, peer) <= |r.log| && peer != r.id
    requires r.id as Id in c.nodes && peer as Id in c.nodes && c.nodes[r.id] == Decode(r, votes)
    ensures SentByStep(c, DecodeAppend(PrepareAppend(r, peer, myTerm), peer)) <==> r.role == Leader && myTerm == r.currentTerm
  {
    var m := DecodeAppend(PrepareAppend(r, peer, myTerm), peer);
    if r.role == Leader && myTerm == r.currentTerm {
      assert RaftCluster.Enabled(c, RaftCluster.Send(r.id, peer)) && AppendFor(c.nodes[r.id], r.id, peer) == m;
    }
  }

  /** An accepted append keeps what the node has committed exactly if its first conflict lies beyond that. */
  lemma AppendKeepsCommittedIff(r: Fields, req: Append)
    requires FitsWords(r) && AppendFits(r, req) && Taken(r, req) && FromWord(r.commitIndex) < |r.log|
    ensures r.log[..FromWord(r.commitIndex) + 1] <= AfterAppendEntries(r, req).0.log <==>
            ConflictsBeyond(r.log, Begin(req), req.entries, FromWord(r.commitIndex) + 1)
  {
    TakenLog(r, req);
    MergeKeepsIff(r.log, Begin(req), req.entries, FromWord(r.commitIndex) + 1);
  }

  lemma TakenLog(r: Fields, req: Append)
    requires FitsWords(r) && AppendFits(r, req) && Taken(r, req)
    ensures Begin(req) <= |r.log| && AfterAppendEntries(r, req).0.log == Merge(r.log, Begin(req), req.entries)
  {
    TakenAsWritten(r, req);
    assert Wrap(req.prevLogIndex + 1) == Begin(req);
  }

  /** A leader that has stepped down into term 2, with an entry of term 1. */
  function Deposed(x: Command): Fields {
    Fields(0, {1, 2}, 2, MAX, [Entry(1, x)], Follower, map[], map[], MAX, MAX, 0, [])
  }

  /** A node that has committed an entry of the leader of term 2. */
  function HasCommitted(y: Command): Fields {
    Fields(1, {0, 2}, 2, 2, [Entry(2, y)], Follower, map[], map[], 0, MAX, 1, [])
  }

  /**
   * What the missing check does: the deposed leader sends its log in the name of term 2, a message
   * no server of any cluster can send, and a node that has committed another entry under the
   * leader of that term takes it and loses the entry.
   */
  lemma DeposedLeaderErases(x: Command, y: Command, c: RaftCluster.Cluster, votes: set<Id>)
    requires 0 in c.nodes && 1 in c.nodes && c.nodes[0] == Decode(Deposed(x), votes)
    ensures
      var r := HasCommitted(y);
      var req := PrepareAppend(Deposed(x), 1, 2);
      var r' := AfterAppendEntries(r, req).0;
      && r.commitIndex == 0 == r'.commitIndex && r'.log == [Entry(1, x)]
      && !SentByStep(c, DecodeAppend(req, 1)) && !ConflictsBeyond(r.log, Begin(req), req.entries, 1)
  {
    var r := HasCommitted(y);
    SendAgreement(c, Deposed(x), votes, 1, 2);
    assert Agreeing(r.log, 0, [Entry(1, x)]) == 0;
    assert [Entry(1, x)][0..] == [Entry(1, x)] && r.log[..0] == [];
  }
}
