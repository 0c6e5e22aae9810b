/**
 * One server of the cluster at the integer level: the fields of RaftProtocol with -1 for
 * "none", and its handlers as functions from the old node to the new one.
 */
module RaftNode {
  import opened Basics

  type Id = int

  const NONE: int := -1

  datatype Command = Command(key: string, value: seq<byte>)

  datatype Entry = Entry(term: nat, command: Command)

  type Log = seq<Entry>

  /** What the pump hands to the key-value store. */
  datatype CommitEntry = CommitEntry(command: Command, index: nat, term: nat)

  datatype Role = Follower | Candidate | Leader

  datatype Node = Node(
    currentTerm: nat,
    votedFor: Id,
    log: Log,
    role: Role,
    votes: set<Id>,            // who voted for this node in its running election
    nextIndex: map<Id, int>,
    matchIndex: map<Id, int>,
    commitIndex: int,
    lastApplied: int,
    signals: nat,              // undelivered wake-ups of the pump
    pushed: seq<CommitEntry>)  // everything the pump ever handed over

  datatype Message =
    | RequestVote(term: nat, candidate: Id, lastLogIndex: int, lastLogTerm: int)
    | VoteReply(term: nat, granted: bool, voter: Id, candidate: Id)
    | AppendEntries(term: nat, leader: Id, peer: Id, prevLogIndex: int, prevLogTerm: int,
                    entries: Log, leaderCommit: int)
    | AppendReply(term: nat, success: bool, peer: Id, leader: Id,
                  sentTerm: nat, sentNext: int, sentCount: nat)

  const FRESH_NODE := Node(0, NONE, [], Follower, {}, map[], map[], -1, -1, 0, [])

  // ---------------------------------------------------------------- logs

  function LastIndex(log: Log): int {
    |log| - 1
  }

  function LastTerm(log: Log): int {
    if log == [] then NONE else log[|log| - 1].term
  }

  /** The up-to-date order of section 5.4.1 of the Raft paper on (term, index) pairs. */
  predicate AtLeast(term: int, index: int, otherTerm: int, otherIndex: int) {
    term > otherTerm || (term == otherTerm && index >= otherIndex)
  }

  /** How many leading entries of `entries` agree in term with `log` from position `at`. */
  function Agreeing(log: Log, at: nat, entries: Log): (k: nat)
    ensures k <= |entries|
    ensures at <= |log| ==> at + k <= |log|
    ensures forall j :: 0 <= j < k ==> at + j < |log| && log[at + j].term == entries[j].term
    ensures k < |entries| && at + k < |log| ==> log[at + k].term != entries[k].term
    decreases |entries|
  {
    if at >= |log| || entries == [] || log[at].term != entries[0].term then 0
    else
      var rest := Agreeing(log, at + 1, entries[1..]);
      assert forall j :: 1 <= j < |entries| ==> entries[j] == entries[1..][j - 1];
      1 + rest
  }

  /** The agreement ends at the first position where it can end. */
  lemma AgreeingUnique(log: Log, at: nat, entries: Log, k: nat)
    requires k <= |entries| && at + k <= |log|
    requires forall j :: 0 <= j < k ==> log[at + j].term == entries[j].term
    requires k < |entries| && at + k < |log| ==> log[at + k].term != entries[k].term
    ensures Agreeing(log, at, entries) == k
  {
  }

  /** Conflict truncation: keep what agrees, replace from the first disagreement on. */
  function Merge(log: Log, at: nat, entries: Log): (merged: Log)
    requires at <= |log|
    ensures |merged| <= |log| + |entries|
  {
    var k := Agreeing(log, at, entries);
    if k < |entries| then log[..at + k] + entries[k..] else log
  }

  predicate Accepts(log: Log, prevIndex: int, prevTerm: int) {
    prevIndex == -1 || (0 <= prevIndex < |log| && prevTerm == log[prevIndex].term)
  }

  // ---------------------------------------------------------------- role changes

  function MakeFollower(n: Node, term: nat): Node {
    n.(role := Follower, currentTerm := term, votedFor := NONE)
  }

  function StartElection(n: Node, id: Id): Node {
    n.(role := Candidate, currentTerm := n.currentTerm + 1, votedFor := id, votes := {id})
  }

  /** A new leader forgets what it knew about its peers in any earlier leadership. */
  function StartLeader(n: Node): Node {
    n.(role := Leader, nextIndex := map[], matchIndex := map[])
  }

  // ---------------------------------------------------------------- voting

  function AdoptTerm(n: Node, term: nat): Node {
    if term > n.currentTerm then MakeFollower(n, term) else n
  }

  predicate Grants(n: Node, term: nat, candidate: Id, lastIndex: int, lastTerm: int) {
    && n.currentTerm == term
    && (n.votedFor == NONE || n.votedFor == candidate)
    && AtLeast(lastTerm, lastIndex, LastTerm(n.log), LastIndex(n.log))
  }

  function OnRequestVote(n: Node, id: Id, m: Message): (Node, Message)
    requires m.RequestVote?
  {
    var n1 := AdoptTerm(n, m.term);
    if Grants(n1, m.term, m.candidate, m.lastLogIndex, m.lastLogTerm) then
      (n1.(votedFor := m.candidate), VoteReply(n1.currentTerm, true, id, m.candidate))
    else
      (n1, VoteReply(n1.currentTerm, false, id, m.candidate))
  }

  /**
   * The rule for granting: the request is of this term or a newer one, no other candidate has the
   * vote in its term, and the candidate's last entry is of a newer term, whatever the lengths, or
   * of the same term in a log at least as long.
   */
  lemma GrantsExactly(n: Node, id: Id, m: Message)
    requires m.RequestVote?
    ensures
      var (n', reply) := OnRequestVote(n, id, m);
      var lastTerm := if |n.log| == 0 then -1 else n.log[|n.log| - 1].term;
      var granted :=
        && m.term >= n.currentTerm
        && (m.term == n.currentTerm ==> n.votedFor == -1 || n.votedFor == m.candidate)
        && (m.lastLogTerm > lastTerm || (m.lastLogTerm == lastTerm && m.lastLogIndex + 1 >= |n.log|));
      var term := if m.term > n.currentTerm then m.term else n.currentTerm;
      && reply == VoteReply(term, granted, id, m.candidate)
      && n' == n.(currentTerm := term, votedFor := n'.votedFor, role := n'.role)
      && n'.votedFor == (if granted then m.candidate else if m.term > n.currentTerm then -1 else n.votedFor)
      && n'.role == (if m.term > n.currentTerm then Follower else n.role)
  {
  }

  /** Of two logs one is at least as up to date as the other, and each only if they end alike. */
  lemma UpToDateIsTotal(a: Log, b: Log)
    ensures AtLeast(LastTerm(a), LastIndex(a), LastTerm(b), LastIndex(b)) || AtLeast(LastTerm(b), LastIndex(b), LastTerm(a), LastIndex(a))
    ensures AtLeast(LastTerm(a), LastIndex(a), LastTerm(b), LastIndex(b)) && AtLeast(LastTerm(b), LastIndex(b), LastTerm(a), LastIndex(a))
            <==> |a| == |b| && (|a| > 0 ==> a[|a| - 1].term == b[|b| - 1].term)
  {
  }

  function OnVoteReply(n: Node, m: Message, clusterSize: nat): Node
    requires m.VoteReply?
  {
    if n.role != Candidate then n
    else if m.term > n.currentTerm then MakeFollower(n, m.term)
    else if m.term == n.currentTerm && m.granted then
      var n1 := n.(votes := n.votes + {m.voter});
      if 2 * |n1.votes| > clusterSize then StartLeader(n1) else n1
    else n
  }

  // ---------------------------------------------------------------- replication

  function OnSubmit(n: Node, command: Command): Node {
    if n.role == Leader then n.(log := n.log + [Entry(n.currentTerm, command)]) else n
  }

  function NextIndex(n: Node, peer: Id): int {
    if peer in n.nextIndex then n.nextIndex[peer] else 0
  }

  function MatchIndex(n: Node, peer: Id): int {
    if peer in n.matchIndex then n.matchIndex[peer] else -1
  }

  /** The append message for `peer`: everything from its nextIndex on. */
  function AppendFor(n: Node, id: Id, peer: Id): Message
    requires 0 <= NextIndex(n, peer) <= |n.log|
  {
    var next := NextIndex(n, peer);
    AppendEntries(n.currentTerm, id, peer, next - 1,
                  if next == 0 then NONE else n.log[next - 1].term,
                  n.log[next..], n.commitIndex)
  }

  function Min(a: int, b: int): int {
    if a < b then a else b
  }

  function OnAppendEntries(n: Node, m: Message): (Node, Message)
    requires m.AppendEntries?
  {
    var n1 := AdoptTerm(n, m.term);
    var next := m.prevLogIndex + 1;
    if m.term != n1.currentTerm then
      (n1, AppendReply(n1.currentTerm, false, m.peer, m.leader, m.term, next, |m.entries|))
    else
      var n2 := if n1.role != Follower then MakeFollower(n1, m.term) else n1;
      if Accepts(n2.log, m.prevLogIndex, m.prevLogTerm) then
        var n3 := n2.(log := Merge(n2.log, next, m.entries));
        var n4 := if m.leaderCommit > n3.commitIndex
                  then n3.(commitIndex := Min(m.leaderCommit, |n3.log| - 1), signals := n3.signals + 1)
                  else n3;
        (n4, AppendReply(n1.currentTerm, true, m.peer, m.leader, m.term, next, |m.entries|))
      else
        (n2, AppendReply(n1.currentTerm, false, m.peer, m.leader, m.term, next, |m.entries|))
  }

  /** The peers known to hold the log up to `index`, plus the leader itself. */
  function Holders(n: Node, id: Id, ids: set<Id>, index: int): set<Id> {
    set p | p in ids && (p == id || MatchIndex(n, p) >= index)
  }

  predicate Committable(n: Node, id: Id, ids: set<Id>, index: int)
  {
    && 0 <= index < |n.log|
    && n.log[index].term == n.currentTerm
    && 2 * |Holders(n, id, ids, index)| > |ids|
  }

  /** The greatest committable index in (commitIndex, bound), or commitIndex if there is none. */
  function AdvanceCommit(n: Node, id: Id, ids: set<Id>, bound: int): (r: int)
    ensures r == n.commitIndex || (n.commitIndex < r < bound && Committable(n, id, ids, r))
    ensures forall i :: r < i < bound && n.commitIndex < i ==> !Committable(n, id, ids, i)
    decreases bound - n.commitIndex
  {
    if bound <= n.commitIndex + 1 then n.commitIndex
    else if Committable(n, id, ids, bound - 1) then bound - 1
    else AdvanceCommit(n, id, ids, bound - 1)
  }

  function OnAppendReply(n: Node, id: Id, ids: set<Id>, m: Message): Node
    requires m.AppendReply?
  {
    if m.term > n.currentTerm then MakeFollower(n, m.term)
    else if n.role == Leader && m.sentTerm == n.currentTerm && m.term == n.currentTerm then
      if m.success then
        var next := m.sentNext + m.sentCount;
        var n1 := n.(nextIndex := n.nextIndex[m.peer := next],
                     matchIndex := n.matchIndex[m.peer := next - 1]);
        var commit := AdvanceCommit(n1, id, ids, |n1.log|);
        n1.(commitIndex := commit,
            signals := if commit != n1.commitIndex then n1.signals + 1 else n1.signals)
      else
        n.(nextIndex := n.nextIndex[m.peer := m.sentNext - 1])
    else n
  }

  // ---------------------------------------------------------------- pump

  function CommitEntries(log: Log, from: nat, to: nat, term: nat): (r: seq<CommitEntry>)
    requires from <= to <= |log|
    ensures |r| == to - from
    ensures forall i :: 0 <= i < |r| ==> r[i] == CommitEntry(log[from + i].command, from + i, term)
  {
    seq(to - from, i requires 0 <= i < to - from => CommitEntry(log[from + i].command, from + i, term))
  }

  /** One turn of the pump: consume a signal and push the newly committed entries. */
  function OnPump(n: Node): Node
    requires n.signals > 0
    requires -1 <= n.lastApplied && n.commitIndex < |n.log|
  {
    if n.commitIndex > n.lastApplied then
      n.(signals := n.signals - 1, lastApplied := n.commitIndex,
         pushed := n.pushed + CommitEntries(n.log, n.lastApplied + 1, n.commitIndex + 1, n.currentTerm))
    else n.(signals := n.signals - 1)
  }

  // ---------------------------------------------------------------- the rules that name terms

  /** Follower of a term it has just heard of, with no vote in it and all else as it was. */
  ghost predicate Joined(n: Node, n': Node, term: nat) {
    n' == n.(currentTerm := term, role := Follower, votedFor := -1)
  }

  /** Whatever brings a newer term makes the receiver a follower of it; only a candidate reads it in a vote reply. */
  lemma NewerTermIsJoined(n: Node, id: Id, ids: set<Id>, m: Message, clusterSize: nat)
    requires m.term > n.currentTerm
    ensures m.VoteReply? ==> if n.role == Candidate then Joined(n, OnVoteReply(n, m, clusterSize), m.term) else OnVoteReply(n, m, clusterSize) == n
    ensures m.AppendReply? ==> Joined(n, OnAppendReply(n, id, ids, m), m.term)
    ensures m.AppendEntries? && !(m.prevLogIndex == -1 || (0 <= m.prevLogIndex < |n.log| && n.log[m.prevLogIndex].term == m.prevLogTerm)) ==>
              Joined(n, OnAppendEntries(n, m).0, m.term)
              && OnAppendEntries(n, m).1 == AppendReply(m.term, false, m.peer, m.leader, m.term, m.prevLogIndex + 1, |m.entries|)
  {
  }

  /** Whatever is of an older term changes nothing; an append is answered with the newer one. */
  lemma OlderTermIsIgnored(n: Node, id: Id, ids: set<Id>, m: Message, clusterSize: nat)
    requires m.term < n.currentTerm
    ensures m.VoteReply? ==> OnVoteReply(n, m, clusterSize) == n
    ensures m.AppendReply? ==> OnAppendReply(n, id, ids, m) == n
    ensures m.AppendEntries? ==>
              OnAppendEntries(n, m)
              == (n, AppendReply(n.currentTerm, false, m.peer, m.leader, m.term, m.prevLogIndex + 1, |m.entries|))
  {
  }

  /** The append is accepted: it is of this term or a newer one, and what comes before its entries is there. */
  predicate Passes(n: Node, m: Message)
    requires m.AppendEntries?
  {
    m.term >= n.currentTerm
    && (m.prevLogIndex == -1 || (0 <= m.prevLogIndex < |n.log| && n.log[m.prevLogIndex].term == m.prevLogTerm))
  }

  /** What a merge must be, entry by entry, without a scan. */
  ghost predicate MergedTo(log: Log, start: nat, entries: Log, merged: Log) {
    && start <= |log| && start + |entries| <= |merged| && merged[..start] == log[..start]
    && (forall j :: 0 <= j < |entries| ==> merged[start + j].term == entries[j].term)
    && (forall j :: 0 <= j < |entries| ==> merged[start + j] == entries[j] || (start + j < |log| && merged[start + j] == log[start + j]))
    && (if NoConflict(log, start, entries) then merged == log else |merged| == start + |entries|)
  }

  /** All entries are there already, by their terms. */
  predicate NoConflict(log: Log, start: nat, entries: Log) {
    start + |entries| <= |log| && forall j :: 0 <= j < |entries| ==> log[start + j].term == entries[j].term
  }

  /** What was there stays unless something conflicts; from the start on the log has the terms sent. */
  lemma MergeMeaning(log: Log, start: nat, entries: Log)
    requires start <= |log|
    ensures MergedTo(log, start, entries, Merge(log, start, entries))
  {
    var k := Agreeing(log, start, entries);
    var merged := Merge(log, start, entries);
    if k < |entries| {
      forall j | 0 <= j < |entries|
        ensures merged[start + j].term == entries[j].term
        ensures merged[start + j] == entries[j] || (start + j < |log| && merged[start + j] == log[start + j])
      {
        if j >= k { assert merged[start + j] == entries[k..][j - k]; }
      }
    }
  }

  /** A refused append of the term itself only ends a candidacy. */
  lemma RefusedAppend(n: Node, m: Message)
    requires m.AppendEntries? && m.term == n.currentTerm && !Passes(n, m)
    ensures
      var (n', reply) := OnAppendEntries(n, m);
      && reply == AppendReply(m.term, false, m.peer, m.leader, m.term, m.prevLogIndex + 1, |m.entries|)
      && if n.role == Follower then n' == n else Joined(n, n', m.term)
  {
  }

  /**
   * An accepted append merges its entries; the commit index follows the leader's as far as the log
   * goes, with a signal, if the leader's is ahead.
   */
  lemma AcceptedAppend(n: Node, m: Message)
    requires m.AppendEntries? && Passes(n, m)
    ensures
      var (n', reply) := OnAppendEntries(n, m);
      && reply == AppendReply(m.term, true, m.peer, m.leader, m.term, m.prevLogIndex + 1, |m.entries|)
      && n'.currentTerm == m.term && n'.role == Follower && n'.log == Merge(n.log, m.prevLogIndex + 1, m.entries)
      && (if m.leaderCommit <= n.commitIndex then n'.commitIndex == n.commitIndex && n'.signals == n.signals
          else n'.signals == n.signals + 1 && n'.commitIndex == if m.leaderCommit < |n'.log| then m.leaderCommit else |n'.log| - 1)
  {
  }
}
