/**
 * The handlers of RaftProtocol exactly as written: unsigned 64-bit fields, MaxUint64 for "none",
 * wrap-around arithmetic and unsigned comparisons. The class below keeps the fields and updates
 * them in place; each of its methods is proved against a function of the old field values.
 */
module RaftAsWritten {
  import opened Basics
  import opened RaftNode

  /** math.MaxUint64, the source's stand-in for -1. */
  const MAX: u64 := 0xFFFF_FFFF_FFFF_FFFF

  /** Unsigned wrap-around of a single addition or subtraction. */
  function Wrap(x: int): (w: u64)
    requires -TWO64 <= x < 2 * TWO64
  {
    if x < 0 then x + TWO64 else if x < TWO64 then x else x - TWO64
  }

  datatype Vote = Vote(term: u64, candidate: u64, lastLogIndex: u64, lastLogTerm: u64)

  datatype Append = Append(term: u64, leader: u64, prevLogIndex: u64, prevLogTerm: u64,
                           entries: Log, leaderCommit: u64)

  datatype Reply = Reply(term: u64, ok: bool)

  /** The fields of RaftProtocol and of its RaftVolatileState. */
  datatype Fields = Fields(
    id: u64,
    peers: set<u64>,
    currentTerm: u64,
    votedFor: u64,
    log: Log,
    role: Role,
    nextIndex: map<u64, u64>,
    matchIndex: map<u64, u64>,
    commitIndex: u64,
    lastApplied: u64,
    signals: nat,
    pushed: seq<CommitEntry>)

  // ---------------------------------------------------------------- voting

  function ToFollower(r: Fields, term: u64): Fields {
    r.(role := Follower, currentTerm := term, votedFor := MAX)
  }

  function LastLog(log: Log): (u64, u64)
    requires |log| <= MAX && forall i :: 0 <= i < |log| ==> log[i].term <= MAX
  {
    if |log| == 0 then (MAX, MAX) else (|log| - 1, log[|log| - 1].term)
  }

  predicate OutOfDate(term: u64, mine: u64) {
    term > mine || (term != MAX && mine == MAX)
  }

  function Adopt(r: Fields, term: u64): Fields {
    if OutOfDate(term, r.currentTerm) then ToFollower(r, term) else r
  }

  /** The condition at the vote: an `||` where the comment asks for both, and no look at votedFor. */
  predicate GrantsAsWritten(r: Fields, vote: Vote)
    requires FitsWords(r)
  {
    var (lastIndex, lastTerm) := LastLog(r.log);
    || r.currentTerm == vote.term
    || vote.lastLogTerm > lastTerm
    || (vote.lastLogTerm == lastTerm && vote.lastLogIndex >= lastIndex && lastIndex != MAX)
  }

  function AfterRequestVote(r: Fields, vote: Vote): (Fields, Reply)
    requires FitsWords(r)
  {
    var r1 := Adopt(r, vote.term);
    if GrantsAsWritten(r1, vote) then (r1.(votedFor := vote.candidate), Reply(r1.currentTerm, true))
    else (r1, Reply(r1.currentTerm, false))
  }

  /** The request carries the term read before the increment. */
  function AfterStartElection(r: Fields): (Fields, Vote)
    requires FitsWords(r)
  {
    var (lastIndex, lastTerm) := LastLog(r.log);
    (r.(role := Candidate, currentTerm := Wrap(r.currentTerm + 1), votedFor := r.id),
     Vote(r.currentTerm, r.id, lastIndex, lastTerm))
  }

  /** The copy of the counter handed to gotVote, plus one if the reply is a vote in this term. */
  function GotVote(electionTerm: u64, votes: nat, reply: Reply): nat {
    if reply.term == electionTerm && reply.ok then votes + 1 else votes
  }

  /** One vote reply, with the counter value the goroutine works on. */
  function AfterVoteReply(r: Fields, electionTerm: u64, votes: nat, reply: Reply): (Fields, nat) {
    if r.role != Candidate then (r, votes)
    else if reply.term > electionTerm || electionTerm == MAX then (ToFollower(r, reply.term), votes)
    else
      var updated := GotVote(electionTerm, votes, reply);
      if 2 * updated > |r.peers| + 1 then (r.(role := Leader), updated) else (r, updated)
  }

  // ---------------------------------------------------------------- replication

  predicate AcceptsAsWritten(log: Log, prevIndex: u64, prevTerm: u64) {
    prevIndex == MAX || (prevIndex < |log| && prevTerm == log[prevIndex].term)
  }

  function UintMin(a: u64, b: u64): u64 {
    if a < b then a else b
  }

  /** Commit index and pump signal after an accepted append, with the unsigned comparisons. */
  function TakeCommit(r: Fields, leaderCommit: u64): Fields
    requires |r.log| <= MAX
  {
    if leaderCommit > r.commitIndex || (leaderCommit != MAX && r.commitIndex == MAX)
    then r.(commitIndex := UintMin(leaderCommit, Wrap(|r.log| - 1)), signals := r.signals + 1)
    else r
  }

  /** Lengths and terms a 64-bit machine can hold; every slice length in the source is one. */
  predicate FitsWords(r: Fields) {
    |r.log| < MAX && forall i :: 0 <= i < |r.log| ==> r.log[i].term < MAX
  }

  predicate AppendFits(r: Fields, req: Append) {
    |r.log| + |req.entries| < MAX
  }

  /** An append that passed the consistency check. */
  function Accept(r: Fields, req: Append): Fields
    requires FitsWords(r) && AppendFits(r, req)
    requires AcceptsAsWritten(r.log, req.prevLogIndex, req.prevLogTerm)
  {
    TakeCommit(r.(log := Merge(r.log, Wrap(req.prevLogIndex + 1), req.entries)), req.leaderCommit)
  }

  function AfterAppendEntries(r: Fields, req: Append): (Fields, Reply)
    requires FitsWords(r) && AppendFits(r, req)
  {
    var r1 := Adopt(r, req.term);
    if req.term != r1.currentTerm then (r1, Reply(r1.currentTerm, false))
    else
      var r2 := if r1.role != Follower then ToFollower(r1, req.term) else r1;
      if AcceptsAsWritten(r2.log, req.prevLogIndex, req.prevLogTerm) then
        (Accept(r2, req), Reply(r1.currentTerm, true))
      else (r2, Reply(r1.currentTerm, false))
  }

  function NextIndexOf(r: Fields, peer: u64): u64 {
    if peer in r.nextIndex then r.nextIndex[peer] else 0
  }

  /** A missing entry of the Go map reads as 0. */
  function MatchIndexOf(r: Fields, peer: u64): u64 {
    if peer in r.matchIndex then r.matchIndex[peer] else 0
  }

  function PrepareAppend(r: Fields, peer: u64, myTerm: u64): Append
    requires FitsWords(r) && NextIndexOf(r, peer) <= |r.log|
  {
    var next := NextIndexOf(r, peer);
    var prev := Wrap(next - 1);
    Append(myTerm, r.id, prev, if prev < MAX && prev < |r.log| then r.log[prev].term else MAX,
           r.log[next..], r.commitIndex)
  }

  function Matched(r: Fields, index: u64): set<u64> {
    set p | p in r.peers && MatchIndexOf(r, p) >= index
  }

  predicate CommittableAsWritten(r: Fields, index: nat)
    requires index < |r.log| <= MAX
  {
    r.log[index].term == r.currentTerm && 2 * (|Matched(r, index)| + 1) > |r.peers| + 1
  }

  /**
   * The commit loop over [from, bound): the greatest index there of the current term that a
   * strict majority has matched, or the old commit index if there is none.
   */
  function CommitLoop(r: Fields, from: nat, bound: nat): (c: u64)
    requires bound <= |r.log| <= MAX
    ensures (c == r.commitIndex && forall i :: from <= i < bound ==> !CommittableAsWritten(r, i))
         || (from <= c < bound && CommittableAsWritten(r, c)
             && forall i :: c < i < bound ==> !CommittableAsWritten(r, i))
    decreases bound
  {
    if bound <= from then r.commitIndex
    else if CommittableAsWritten(r, bound - 1) then bound - 1
    else CommitLoop(r, from, bound - 1)
  }

  function AfterAppendReply(r: Fields, peer: u64, myTerm: u64, next: u64, count: u64, reply: Reply): Fields
    requires FitsWords(r)
  {
    if myTerm < reply.term || myTerm == MAX then ToFollower(r, reply.term)
    else if r.role == Leader && myTerm == reply.term then
      if reply.ok then
        var r1 := r.(nextIndex := r.nextIndex[peer := Wrap(next + count)],
                     matchIndex := r.matchIndex[peer := Wrap(Wrap(next + count) - 1)]);
        var commit := CommitLoop(r1, Wrap(r1.commitIndex + 1), |r1.log|);
        r1.(commitIndex := commit, signals := if commit != r1.commitIndex then r1.signals + 1 else r1.signals)
      else r.(nextIndex := r.nextIndex[peer := Wrap(next - 1)])
    else r
  }

  /** Only a leader takes a command. */
  function AfterSubmit(r: Fields, command: Command): Fields {
    if r.role == Leader then r.(log := r.log + [Entry(r.currentTerm, command)]) else r
  }

  // ---------------------------------------------------------------- pump

  predicate PumpHasWork(r: Fields) {
    r.commitIndex > r.lastApplied || r.lastApplied == MAX
  }

  /** The slice of the pump is in range. */
  predicate PumpInRange(r: Fields) {
    PumpHasWork(r) ==> Wrap(r.lastApplied + 1) <= Wrap(r.commitIndex + 1) <= |r.log|
  }

  function NewlyApplied(r: Fields, count: nat): (es: seq<CommitEntry>)
    requires Wrap(r.lastApplied + 1) + count <= |r.log| <= MAX
    ensures |es| == count
  {
    var from := Wrap(r.lastApplied + 1);
    seq(count, i requires 0 <= i < count =>
      CommitEntry(r.log[from + i].command, Wrap(r.lastApplied + i + 1), r.currentTerm))
  }

  function AfterPump(r: Fields): Fields
    requires r.signals > 0 && PumpInRange(r) && |r.log| <= MAX
  {
    var r1 := r.(signals := r.signals - 1);
    if PumpHasWork(r) then
      r1.(lastApplied := r.commitIndex,
          pushed := r.pushed + NewlyApplied(r, Wrap(r.commitIndex + 1) - Wrap(r.lastApplied + 1)))
    else r1
  }

  // ---------------------------------------------------------------- the object

  class RaftProtocol {
    const id: u64
    const peers: set<u64>
    var currentTerm: u64
    var votedFor: u64
    var stateLog: Log
    var state: Role
    var nextIndex: map<u64, u64>
    var matchIndex: map<u64, u64>
    var commitIndex: u64
    var lastApplied: u64
    var signals: nat
    var pushed: seq<CommitEntry>

    ghost function Now(): Fields
      reads this
    {
      Fields(id, peers, currentTerm, votedFor, stateLog, state, nextIndex, matchIndex,
             commitIndex, lastApplied, signals, pushed)
    }

    constructor (id: u64, peers: set<u64>)
      ensures Now() == Fields(id, peers, 0, MAX, [], Follower, map[], map[], MAX, MAX, 0, [])
    {
      this.id, this.peers := id, peers;
      currentTerm, votedFor, stateLog, state := 0, MAX, [], Follower;
      nextIndex, matchIndex := map[], map[];
      commitIndex, lastApplied := MAX, MAX;
      signals, pushed := 0, [];
    }

    method MakeFollower(term: u64)
      modifies this
      ensures Now() == ToFollower(old(Now()), term)
    {
      state := Follower;
      currentTerm := term;
      votedFor := MAX;
    }

    method LastLogIndexAndTerm() returns (index: u64, term: u64)
      requires FitsWords(Now())
      ensures (index, term) == LastLog(stateLog)
    {
      if |stateLog| == 0 { return MAX, MAX; }
      var last := |stateLog| - 1;
      return last, stateLog[last].term;
    }

    method OnRequestVote(vote: Vote) returns (reply: Reply)
      requires FitsWords(Now())
      modifies this
      ensures (Now(), reply) == AfterRequestVote(old(Now()), vote)
    {
      var myLastTerm := currentTerm;
      if vote.term > myLastTerm || (vote.term != MAX && myLastTerm == MAX) {
        MakeFollower(vote.term);
      }
      var lastIndex, lastTerm := LastLogIndexAndTerm();
      if currentTerm == vote.term
         || (vote.lastLogTerm > lastTerm
             || (vote.lastLogTerm == lastTerm && vote.lastLogIndex >= lastIndex && lastIndex != MAX)) {
        votedFor := vote.candidate;
        reply := Reply(currentTerm, true);
      } else {
        reply := Reply(currentTerm, false);
      }
    }

    method BeginElection() returns (vote: Vote)
      requires FitsWords(Now())
      modifies this
      ensures (Now(), vote) == AfterStartElection(old(Now()))
    {
      var electionTerm := currentTerm;
      state := Candidate;
      currentTerm := Wrap(currentTerm + 1);
      votedFor := id;
      var lastIndex, lastTerm := LastLogIndexAndTerm();
      vote := Vote(electionTerm, id, lastIndex, lastTerm);
    }

    /** A reply to this node's vote request, and the new value of the election's counter. */
    method OnVoteReply(electionTerm: u64, votes: nat, reply: Reply) returns (updated: nat)
      modifies this
      ensures (Now(), updated) == AfterVoteReply(old(Now()), electionTerm, votes, reply)
    {
      updated := votes;
      if state != Candidate { return; }
      if reply.term > electionTerm || electionTerm == MAX {
        MakeFollower(reply.term);
        return;
      }
      updated := GotVote(electionTerm, votes, reply);
      if updated * 2 > |peers| + 1 { state := Leader; }
    }

    method OnAppendEntries(req: Append) returns (reply: Reply)
      requires FitsWords(Now()) && AppendFits(Now(), req)
      modifies this
      ensures (Now(), reply) == AfterAppendEntries(old(Now()), req)
    {
      if req.term > currentTerm || (req.term != MAX && currentTerm == MAX) {
        MakeFollower(req.term);
      }
      var success := false;
      if req.term == currentTerm {
        if state != Follower { MakeFollower(req.term); }
        if req.prevLogIndex == MAX
           || (req.prevLogIndex < |stateLog| && req.prevLogTerm == stateLog[req.prevLogIndex].term) {
          success := true;
          TakeEntries(req);
        }
      }
      reply := Reply(currentTerm, success);
    }

    method TakeEntries(req: Append)
      requires FitsWords(Now()) && AppendFits(Now(), req)
      requires AcceptsAsWritten(stateLog, req.prevLogIndex, req.prevLogTerm)
      modifies this`stateLog, this`commitIndex, this`signals
      ensures Now() == Accept(old(Now()), req)
    {
      MergeEntries(Wrap(req.prevLogIndex + 1), req.entries);
      FollowCommit(req.leaderCommit);
    }

    /** The commit index follows the leader's, with a signal to the pump. */
    method FollowCommit(leaderCommit: u64)
      requires |stateLog| <= MAX
      modifies this`commitIndex, this`signals
      ensures Now() == TakeCommit(old(Now()), leaderCommit)
    {
      if leaderCommit > commitIndex || (leaderCommit != MAX && commitIndex == MAX) {
        commitIndex := UintMin(leaderCommit, Wrap(|stateLog| - 1));
        signals := signals + 1;
      }
    }

    /** The scan for the first conflicting entry and the truncation that follows it. */
    method MergeEntries(at: nat, entries: Log)
      requires at <= |stateLog| && |stateLog| + |entries| < MAX
      modifies this`stateLog
      ensures stateLog == Merge(old(stateLog), at, entries)
    {
      var lowerBound, upperBound := at, 0;
      while lowerBound < |stateLog| && upperBound < |entries|
            && stateLog[lowerBound].term == entries[upperBound].term
        invariant stateLog == old(stateLog)
        invariant 0 <= upperBound <= |entries| && lowerBound == at + upperBound <= |stateLog|
        invariant forall j :: 0 <= j < upperBound ==> stateLog[at + j].term == entries[j].term
        decreases |entries| - upperBound
      {
        lowerBound := lowerBound + 1;
        upperBound := upperBound + 1;
      }
      AgreeingUnique(stateLog, at, entries, upperBound);
      if upperBound < |entries| {
        stateLog := stateLog[..lowerBound] + entries[upperBound..];
      }
    }

    method Submit(command: Command) returns (ok: bool)
      requires |stateLog| + 1 < MAX
      modifies this`stateLog
      ensures ok == (state == Leader) && Now() == AfterSubmit(old(Now()), command)
      ensures stateLog == if ok then old(stateLog) + [Entry(currentTerm, command)] else old(stateLog)
    {
      ok := state == Leader;
      if ok { stateLog := stateLog + [Entry(currentTerm, command)]; }
    }

    method CountMatchIndex(index: u64) returns (count: nat)
      ensures count == |Matched(Now(), index)|
    {
      count := 0;
      var rest := peers;
      while rest != {}
        invariant rest <= peers
        invariant count == |Matched(Now(), index) - rest|
        decreases |rest|
      {
        var peer :| peer in rest;
        var value := if peer in matchIndex then matchIndex[peer] else 0;
        if value >= index {
          assert Matched(Now(), index) - (rest - {peer}) == (Matched(Now(), index) - rest) + {peer};
          count := count + 1;
        } else {
          assert Matched(Now(), index) - (rest - {peer}) == Matched(Now(), index) - rest;
        }
        rest := rest - {peer};
      }
      assert Matched(Now(), index) - rest == Matched(Now(), index);
    }

    method BroadcastRequest(peer: u64, myTerm: u64) returns (req: Append)
      requires FitsWords(Now()) && NextIndexOf(Now(), peer) <= |stateLog|
      ensures req == PrepareAppend(Now(), peer, myTerm)
    {
      var next := if peer in nextIndex then nextIndex[peer] else 0;
      var prev := Wrap(next - 1);
      var prevTerm := MAX;
      if prev < MAX && prev < |stateLog| { prevTerm := stateLog[prev].term; }
      req := Append(myTerm, id, prev, prevTerm, stateLog[next..], commitIndex);
    }

    method OnAppendReply(peer: u64, myTerm: u64, next: u64, count: u64, reply: Reply)
      requires FitsWords(Now())
      modifies this
      ensures Now() == AfterAppendReply(old(Now()), peer, myTerm, next, count, reply)
    {
      if myTerm < reply.term || myTerm == MAX {
        MakeFollower(reply.term);
        return;
      }
      if state == Leader && myTerm == reply.term {
        if reply.ok {
          nextIndex := nextIndex[peer := Wrap(next + count)];
          matchIndex := matchIndex[peer := Wrap(nextIndex[peer] as int - 1)];
          AdvanceCommit();
        } else {
          nextIndex := nextIndex[peer := Wrap(next - 1)];
        }
      }
    }

    /** The commit loop and the signal to the pump. */
    method AdvanceCommit()
      requires FitsWords(Now())
      modifies this`commitIndex, this`signals
      ensures commitIndex == CommitLoop(old(Now()), Wrap(old(commitIndex) + 1), |stateLog|)
      ensures signals == if commitIndex != old(commitIndex) then old(signals) + 1 else old(signals)
    {
      ghost var start := Now();
      var saved: int := commitIndex;
      var from: int := Wrap(saved + 1);
      var i := from;
      while i < |stateLog|
        invariant from <= i && (i <= |stateLog| || i == from)
        invariant commitIndex == CommitLoop(start, from, if i <= |stateLog| then i else 0)
        invariant signals == old(signals)
        decreases |stateLog| - i
      {
        if stateLog[i].term == currentTerm {
          var count := CountMatchIndex(i);
          assert Matched(Now(), i) == Matched(start, i);
          if (count + 1) * 2 > |peers| + 1 { commitIndex := i; }
        }
        i := i + 1;
      }
      if commitIndex != saved { signals := signals + 1; }
    }

    /** One wake-up of the commit channel. */
    method CommitTurn()
      requires FitsWords(Now()) && signals > 0 && PumpInRange(Now())
      modifies this`lastApplied, this`signals, this`pushed
      ensures Now() == AfterPump(old(Now()))
    {
      signals := signals - 1;
      var oldLastApplied := lastApplied;
      if commitIndex > lastApplied || lastApplied == MAX {
        var committed := stateLog[Wrap(lastApplied + 1)..Wrap(commitIndex + 1)];
        lastApplied := commitIndex;
        var i := 0;
        while i < |committed|
          invariant 0 <= i <= |committed|
          invariant lastApplied == commitIndex && signals == old(signals) - 1
          invariant pushed == old(pushed) + NewlyApplied(old(Now()), i)
        {
          pushed := pushed + [CommitEntry(committed[i].command, Wrap(oldLastApplied + i + 1), currentTerm)];
          i := i + 1;
        }
        assert |committed| == Wrap(commitIndex + 1) - Wrap(oldLastApplied + 1);
      }
    }
  }

  /** A new node, or none when there are no peers. */
  method NewRaftProtocol(id: u64, peers: set<u64>) returns (raft: RaftProtocol?)
    ensures raft == null <==> peers == {}
    ensures raft != null ==>
      fresh(raft) && raft.Now() == Fields(id, peers, 0, MAX, [], Follower, map[], map[], MAX, MAX, 0, [])
  {
    if peers == {} { return null; }
    raft := new RaftProtocol(id, peers);
  }
}
