/** Replies, majority counting and the pump: the 64-bit handlers against the integer ones. */
module RaftCommitRefinement {
  import opened Quorum
  import opened Basics
  import opened RaftNode
  import opened RaftAsWritten
  import opened RaftRefinement

  function AsIds(s: set<u64>): set<Id> {
    set p: int | p in s
  }

  lemma AsIdsSize(s: set<u64>)
    ensures |AsIds(s)| == |s|
    decreases |s|
  {
    if s == {} {
      assert AsIds(s) == {};
    } else {
      var p :| p in s;
      AsIdsSize(s - {p});
      assert AsIds(s) == AsIds(s - {p}) + {p as int};
    }
  }

  function Members(r: Fields): set<Id> {
    AsIds(r.peers) + {r.id as Id}
  }

  /** Counted without having matched: never heard from (index 0), or matched "nothing". */
  predicate Phantom(r: Fields, p: u64, index: u64) {
    if p in r.matchIndex then r.matchIndex[p] == MAX else index == 0
  }

  /** Whoever has matched according to matchIndex, with -1 for what is missing and for MaxUint64. */
  function ReallyMatched(r: Fields, index: u64): set<u64> {
    set p | p in r.peers && MatchIndex(Decode(r, {}), p) >= index
  }

  /** The count as written is the count of peers that hold the entry iff no peer is a phantom. */
  lemma CountAgreement(r: Fields, index: u64)
    requires index < MAX
    ensures ReallyMatched(r, index) <= Matched(r, index)
    ensures |Matched(r, index)| == |ReallyMatched(r, index)| <==> forall p :: p in r.peers ==> !Phantom(r, p, index)
  {
    var holding, counted := ReallyMatched(r, index), Matched(r, index);
    forall p | p in r.peers ensures p in counted <==> p in holding || Phantom(r, p, index) {
      assert p in r.matchIndex ==> DecodeMap(r.matchIndex)[p] == FromWord(r.matchIndex[p]);
    }
    if forall p :: p in r.peers ==> !Phantom(r, p, index) {
      assert counted == holding;
    } else {
      var p :| p in r.peers && Phantom(r, p, index);
      assert p in counted && p !in holding;
      assert holding <= counted - {p};
      SubsetSize(holding, counted - {p});
    }
  }

  /** The consequence: with no phantom the commit loop is the integer one. */
  lemma CommitLoopAgreement(r: Fields, votes: set<Id>, bound: nat)
    requires FitsWords(r) && r.id !in r.peers && bound <= |r.log| && FromWord(r.commitIndex) < |r.log|
    requires forall p, i: u64 :: p in r.peers && FromWord(r.commitIndex) < i < |r.log| ==> !Phantom(r, p, i)
    ensures FromWord(CommitLoop(r, Wrap(r.commitIndex + 1), bound))
            == RaftNode.AdvanceCommit(Decode(r, votes), r.id, Members(r), bound)
    decreases bound
  {
    var n := Decode(r, votes);
    assert Wrap(r.commitIndex + 1) == FromWord(r.commitIndex) + 1;
    if bound > FromWord(r.commitIndex) + 1 {
      CommittableAgreement(r, votes, bound - 1);
      CommitLoopAgreement(r, votes, bound - 1);
    }
  }

  /** The integer holders are the peers that really matched, and the leader. */
  lemma HoldersAgreement(r: Fields, votes: set<Id>, index: u64)
    ensures Holders(Decode(r, votes), r.id, Members(r), index) == AsIds(ReallyMatched(r, index)) + {r.id as Id}
  {
    var n := Decode(r, votes);
    assert n.matchIndex == Decode(r, {}).matchIndex;
    assert forall p :: MatchIndex(n, p) == MatchIndex(Decode(r, {}), p);
  }

  lemma MembersSize(s: set<u64>, id: u64)
    requires id !in s
    ensures |AsIds(s) + {id as Id}| == |s| + 1
  {
    AsIdsSize(s);
  }

  lemma CommittableAgreement(r: Fields, votes: set<Id>, index: nat)
    requires FitsWords(r) && r.id !in r.peers && index < |r.log|
    requires forall p :: p in r.peers ==> !Phantom(r, p, index)
    ensures CommittableAsWritten(r, index) <==> RaftNode.Committable(Decode(r, votes), r.id, Members(r), index)
  {
    CountAgreement(r, index);
    HoldersAgreement(r, votes, index);
    MembersSize(ReallyMatched(r, index), r.id);
    MembersSize(r.peers, r.id);
  }

  /** Whatever a strict majority really holds, the count as written lets through. */
  lemma RealIsCounted(r: Fields, votes: set<Id>, index: nat)
    requires FitsWords(r) && r.id !in r.peers && index < |r.log|
    requires RaftNode.Committable(Decode(r, votes), r.id, Members(r), index)
    ensures CommittableAsWritten(r, index)
  {
    CountAgreement(r, index);
    HoldersAgreement(r, votes, index);
    SubsetSize(ReallyMatched(r, index), Matched(r, index));
    MembersSize(ReallyMatched(r, index), r.id);
    MembersSize(r.peers, r.id);
  }

  /** Every index the count as written lets through lies below one that a majority really holds. */
  ghost predicate Covered(r: Fields, votes: set<Id>)
    requires FitsWords(r)
  {
    forall i :: FromWord(r.commitIndex) < i < |r.log| && CommittableAsWritten(r, i) ==>
      exists j :: i <= j < |r.log| && RaftNode.Committable(Decode(r, votes), r.id, Members(r), j)
  }

  /** Exactly then the commit loop as written ends where the integer one does. */
  lemma CommitLoopAgreesIff(r: Fields, votes: set<Id>)
    requires FitsWords(r) && r.id !in r.peers && FromWord(r.commitIndex) < |r.log|
    ensures Covered(r, votes) <==>
            FromWord(CommitLoop(r, Wrap(r.commitIndex + 1), |r.log|))
            == RaftNode.AdvanceCommit(Decode(r, votes), r.id, Members(r), |r.log|)
  {
    var n := Decode(r, votes);
    var written: int := FromWord(CommitLoop(r, Wrap(r.commitIndex + 1), |r.log|));
    var meant := RaftNode.AdvanceCommit(n, r.id, Members(r), |r.log|);
    assert written == n.commitIndex || (n.commitIndex < written && CommittableAsWritten(r, written));
    if meant != n.commitIndex { RealIsCounted(r, votes, meant); }
    assert meant <= written;
    if written == meant {
      forall i | n.commitIndex < i < |r.log| && CommittableAsWritten(r, i)
        ensures exists j :: i <= j < |r.log| && RaftNode.Committable(n, r.id, Members(r), j)
      {
        assert i <= written;
        assert RaftNode.Committable(n, r.id, Members(r), meant);
      }
    }
  }

  /** With a phantom it is not: a leader of five commits an entry that only it holds. */
  lemma PhantomMajority(command: Command)
    ensures
      var r := Fields(0, {1, 2, 3, 4}, 1, 0, [Entry(1, command)], Leader, map[], map[], MAX, MAX, 0, []);
      var r' := AfterAppendReply(r, 1, 1, 0, 0, Reply(1, true));
      r'.commitIndex == 0 && ReallyMatched(r', 0) == {}
  {
    var r := Fields(0, {1, 2, 3, 4}, 1, 0, [Entry(1, command)], Leader, map[], map[], MAX, MAX, 0, []);
    var r1 := r.(nextIndex := map[1 := 0], matchIndex := map[1 := MAX]);
    assert Matched(r1, 0) == {1, 2, 3, 4};
    assert |{1 as u64, 2, 3, 4}| == 4;
    assert CommittableAsWritten(r1, 0);
    assert CommitLoop(r1, 0, 1) == 0;
    assert r.nextIndex[1 := 0] == map[1 := 0] && r.matchIndex[1 := MAX] == map[1 := MAX];
    var r' := AfterAppendReply(r, 1, 1, 0, 0, Reply(1, true));
    assert r'.matchIndex == map[1 := MAX];
    assert DecodeMap(r'.matchIndex) == map[1 := -1];
  }

  // ---------------------------------------------------------------- replies

  ghost predicate ReplyAgrees(r: Fields, votes: set<Id>, peer: u64, myTerm: u64, next: u64, count: u64, reply: Reply)
    requires FitsWords(r)
  {
    Decode(AfterAppendReply(r, peer, myTerm, next, count, reply), votes)
      == RaftNode.OnAppendReply(Decode(r, votes), r.id, Members(r),
           Message.AppendReply(reply.term, reply.ok, peer, r.id, myTerm, next, count))
  }

  /** What a success leaves behind before the commit loop runs. */
  function Noted(r: Fields, peer: u64, next: u64, count: u64): Fields
    requires next + count < MAX
  {
    r.(nextIndex := r.nextIndex[peer := next + count],
       matchIndex := r.matchIndex[peer := Wrap(next + count - 1)])
  }

  lemma NotedDecodes(r: Fields, votes: set<Id>, peer: u64, next: u64, count: u64)
    requires next + count < MAX
    ensures
      var n := Decode(r, votes);
      Decode(Noted(r, peer, next, count), votes)
        == n.(nextIndex := n.nextIndex[peer as Id := next + count],
              matchIndex := n.matchIndex[peer as Id := next + count - 1])
  {
  }

  /** A late reply of an older term leaves the leader's indexes and its commit index as they are. */
  predicate StoresNothingNew(r: Fields, peer: u64, next: u64, count: u64, ok: bool)
    requires FitsWords(r) && next + count < MAX
  {
    && peer in r.nextIndex
    && if ok then
         && r.nextIndex[peer] == next + count
         && peer in r.matchIndex && r.matchIndex[peer] == Wrap(next + count - 1)
         && CommitLoop(r, Wrap(r.commitIndex + 1), |r.log|) == r.commitIndex
       else r.nextIndex[peer] == Wrap(next - 1)
  }

  /**
   * When a reply to a request of any term is handled as meant. A reply that makes the node step
   * down must be of a newer term, unless the node is a follower of that term without a vote
   * already. A reply of the request's own term, to a leader, must in the current term leave no
   * index committed that peers counted for it do not hold, and in an older term change nothing.
   */
  lemma ReplyAgreement(r: Fields, votes: set<Id>, peer: u64, myTerm: u64, next: u64, count: u64, reply: Reply)
    requires FitsWords(r) && r.id !in r.peers && FromWord(r.commitIndex) < |r.log|
    requires next + count < MAX
    ensures ReplyAgrees(r, votes, peer, myTerm, next, count, reply) <==>
            (if myTerm < reply.term || myTerm == MAX then
               reply.term > r.currentTerm || (r.role == Follower && r.currentTerm == reply.term && r.votedFor == MAX)
             else if reply.term > r.currentTerm then false
             else if r.role != Leader || reply.term < myTerm then true
             else if reply.term < r.currentTerm then StoresNothingNew(r, peer, next, count, reply.ok)
             else reply.ok ==> Covered(Noted(r, peer, next, count), votes))
  {
    if myTerm < MAX && r.role == Leader && myTerm == reply.term {
      if reply.term < r.currentTerm {
        StaleAgreement(r, votes, peer, next, count, reply);
      } else if reply.term == r.currentTerm && reply.ok {
        SuccessAgreement(r, votes, peer, next, count);
      }
    }
  }

  lemma StaleAgreement(r: Fields, votes: set<Id>, peer: u64, next: u64, count: u64, reply: Reply)
    requires FitsWords(r) && next + count < MAX && r.role == Leader && reply.term < r.currentTerm
    ensures ReplyAgrees(r, votes, peer, reply.term, next, count, reply) <==> StoresNothingNew(r, peer, next, count, reply.ok)
  {
    var r' := AfterAppendReply(r, peer, reply.term, next, count, reply);
    if ReplyAgrees(r, votes, peer, reply.term, next, count, reply) {
      DecodeInjective(r', r, votes);
      assert peer in r'.nextIndex;
    }
    if StoresNothingNew(r, peer, next, count, reply.ok) {
      assert r.nextIndex[peer := r.nextIndex[peer]] == r.nextIndex;
      if reply.ok { assert Noted(r, peer, next, count) == r; }
    }
  }

  /**
   * What a stale success can do: node 0 leads term 3, and a success to a request it sent as leader
   * of term 1, for two entries of which it has since lost the second, commits an entry of term 3
   * that no other node holds.
   */
  lemma StaleSuccessCommits(x: Command, y: Command)
    ensures
      var r := Fields(0, {1, 2}, 3, 0, [Entry(1, x), Entry(3, y)], Leader, map[], map[], MAX, MAX, 0, []);
      var r' := AfterAppendReply(r, 1, 1, 0, 2, Reply(1, true));
      && r'.commitIndex == 1
      && RaftNode.OnAppendReply(Decode(r, {}), 0, {0, 1, 2}, Message.AppendReply(1, true, 1, 0, 1, 0, 2)).commitIndex == -1
  {
    var r := Fields(0, {1, 2}, 3, 0, [Entry(1, x), Entry(3, y)], Leader, map[], map[], MAX, MAX, 0, []);
    var r1 := r.(nextIndex := map[1 := 2], matchIndex := map[1 := 1]);
    assert Matched(r1, 1) == {1};
    assert |{1 as u64, 2}| == 2;
    assert CommittableAsWritten(r1, 1);
  }

  /** Node 0 wins term 3 with what it learned about peer 1 in an earlier leadership, then takes a command. */
  function KeptLeader(x: Command, y: Command): Fields {
    var r := Fields(0, {1, 2}, 3, 0, [Entry(1, x)], Candidate, map[1 := 2], map[1 := 1], MAX, MAX, 0, []);
    var leader := AfterVoteReply(r, 2, 1, Reply(2, true)).0;
    leader.(log := leader.log + [Entry(leader.currentTerm, y)])
  }

  /** The same with the indexes that startLeader is meant to leave. */
  function ResetLeader(x: Command, y: Command): Node {
    var r := Fields(0, {1, 2}, 3, 0, [Entry(1, x)], Candidate, map[1 := 2], map[1 := 1], MAX, MAX, 0, []);
    OnSubmit(StartLeader(Decode(r, {})), y)
  }

  /**
   * What the missing reset does: one success from peer 2, for the first entry alone, commits the
   * second entry, which only the leader holds. No peer is counted for a missing index here: the
   * one counted is peer 1, for the two entries it held in another term.
   */
  lemma KeptMatchIndexCommits(x: Command, y: Command)
    ensures
      var r := KeptLeader(x, y);
      var r' := AfterAppendReply(r, 2, 3, 0, 1, Reply(3, true));
      && r.role == Leader && r.currentTerm == 3 && r'.commitIndex == 1
      && (forall p :: p in r.peers ==> !Phantom(r', p, 1))
      && RaftNode.OnAppendReply(ResetLeader(x, y), 0, {0, 1, 2}, Message.AppendReply(3, true, 2, 0, 3, 0, 1)).commitIndex == -1
  {
    assert |{1 as u64, 2}| == 2;
    var r := KeptLeader(x, y);
    assert r.log == [Entry(1, x), Entry(3, y)];
    var r1 := r.(nextIndex := map[1 := 2, 2 := 1], matchIndex := map[1 := 1, 2 := 0]);
    assert Matched(r1, 1) == {1};
    assert CommittableAsWritten(r1, 1);
    ResetDoesNotCommit(x, y);
  }

  lemma ResetDoesNotCommit(x: Command, y: Command)
    ensures RaftNode.OnAppendReply(ResetLeader(x, y), 0, {0, 1, 2}, Message.AppendReply(3, true, 2, 0, 3, 0, 1)).commitIndex == -1
  {
    var n1 := ResetLeader(x, y).(nextIndex := map[2 := 1], matchIndex := map[2 := 0]);
    assert n1.log == [Entry(1, x), Entry(3, y)];
    assert Holders(n1, 0, {0, 1, 2}, 1) == {0};
    assert |{0 as Id, 1, 2}| == 3;
    assert !RaftNode.Committable(n1, 0, {0, 1, 2}, 1) && !RaftNode.Committable(n1, 0, {0, 1, 2}, 0);
  }

  /** A commit index and the signal that goes with a change of it, in both readings. */
  function Committed(r: Fields, commit: u64): Fields {
    r.(commitIndex := commit, signals := if commit != r.commitIndex then r.signals + 1 else r.signals)
  }

  function CommittedNode(n: Node, commit: int): Node {
    n.(commitIndex := commit, signals := if commit != n.commitIndex then n.signals + 1 else n.signals)
  }

  lemma SuccessAsWritten(r: Fields, peer: u64, next: u64, count: u64)
    requires FitsWords(r) && r.role == Leader && r.currentTerm < MAX && next + count < MAX
    ensures
      var r1 := Noted(r, peer, next, count);
      AfterAppendReply(r, peer, r.currentTerm, next, count, Reply(r.currentTerm, true))
        == Committed(r1, CommitLoop(r1, Wrap(r1.commitIndex + 1), |r1.log|))
  {
  }

  lemma SuccessAsMeant(r: Fields, votes: set<Id>, ids: set<Id>, peer: u64, next: u64, count: u64)
    requires r.role == Leader && next + count < MAX
    ensures
      var n1 := Decode(Noted(r, peer, next, count), votes);
      RaftNode.OnAppendReply(Decode(r, votes), r.id, ids,
          Message.AppendReply(r.currentTerm, true, peer, r.id, r.currentTerm, next, count))
        == CommittedNode(n1, RaftNode.AdvanceCommit(n1, r.id, ids, |n1.log|))
  {
    NotedDecodes(r, votes, peer, next, count);
  }

  lemma SuccessAgreement(r: Fields, votes: set<Id>, peer: u64, next: u64, count: u64)
    requires FitsWords(r) && r.id !in r.peers && FromWord(r.commitIndex) < |r.log| && r.role == Leader
    requires r.currentTerm < MAX && next + count < MAX
    ensures ReplyAgrees(r, votes, peer, r.currentTerm, next, count, Reply(r.currentTerm, true))
            <==> Covered(Noted(r, peer, next, count), votes)
  {
    var r1 := Noted(r, peer, next, count);
    var n1 := Decode(r1, votes);
    SuccessAsWritten(r, peer, next, count);
    SuccessAsMeant(r, votes, Members(r), peer, next, count);
    CommitLoopAgreesIff(r1, votes);
  }

  /**
   * A stale reply can set the term back: it does so exactly when its term lies between the term
   * of the request and the term the node has reached meanwhile.
   */
  lemma TermGoesBack(r: Fields, peer: u64, myTerm: u64, next: u64, count: u64, reply: Reply)
    requires FitsWords(r) && myTerm < MAX
    ensures AfterAppendReply(r, peer, myTerm, next, count, reply).currentTerm < r.currentTerm
            <==> myTerm < reply.term < r.currentTerm
  {
  }

  /** The same for a vote reply and the saved election term. */
  lemma TermGoesBackOnVote(r: Fields, electionTerm: u64, votes: nat, reply: Reply)
    requires electionTerm < MAX && r.role == Candidate
    ensures AfterVoteReply(r, electionTerm, votes, reply).0.currentTerm < r.currentTerm
            <==> electionTerm < reply.term < r.currentTerm
  {
  }

  // ---------------------------------------------------------------- pump

  /** In every state with ordered indices the pump as written is the integer pump. */
  lemma PumpAgreement(r: Fields, votes: set<Id>)
    requires FitsWords(r) && r.signals > 0
    requires FromWord(r.lastApplied) <= FromWord(r.commitIndex) < |r.log|
    ensures PumpInRange(r)
    ensures Decode(AfterPump(r), votes) == OnPump(Decode(r, votes))
  {
    assert Wrap(r.lastApplied + 1) == FromWord(r.lastApplied) + 1 && Wrap(r.commitIndex + 1) == FromWord(r.commitIndex) + 1;
    var from, to := FromWord(r.lastApplied) + 1, FromWord(r.commitIndex) + 1;
    if PumpHasWork(r) {
      var es := NewlyApplied(r, to - from);
      forall i: int | 0 <= i < |es| ensures es[i] == CommitEntries(r.log, from, to, r.currentTerm)[i] {
        assert Wrap(r.lastApplied as int + i + 1) == from + i;
      }
    }
  }
}
