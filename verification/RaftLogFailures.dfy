/**
 * What sound elections do not give: a run as written of three fresh nodes in which every step is
 * sound, every vote and every reply is handled as meant and every append is that of a leader in
 * its own term, and two leaders commit different commands at index 0. The vote a candidate gets is
 * one of the term before the term it will lead, so the voter stays in the old term and goes on
 * taking entries from the old leader: the one step that is not careful.
 */
module RaftLogFailures {
  import opened Basics
  import opened RaftNode
  import opened RaftAsWritten
  import opened RaftRefinement
  import opened RaftCommitRefinement
  import opened RaftElection
  import opened RaftLogMatching
  import opened RaftCompleteness
  import opened RaftAgreement
  import opened RaftElectionFailures

  /** Node 0 leads term 1 by the vote of node 1, and both others have heard of it. */
  lemma FirstLeader(flaw: Flaw) returns (run: seq<Servers>, steps: seq<ElectionStep>, s: Servers)
    ensures SoundBut(run, steps, flaw, s) && |steps| == 5 && |s.contests| == 1
    ensures s.nodes == map[
      0 := Stood(0, {1, 2}, 0).(role := Leader),
      1 := FreshFields(1, {0, 2}).(currentTerm := 1),
      2 := FreshFields(2, {0, 1}).(currentTerm := 1)]
  {
    assert |{1 as u64, 2}| == 2;
    run, steps, s := OneVoteGiven(flaw);
    run, steps, s := Elect(run, steps, flaw, s, 0, 1);
    run, steps, s := Heartbeat(run, steps, flaw, s, 1, 0, 1);
    run, steps, s := Heartbeat(run, steps, flaw, s, 2, 0, 1);
  }

  /** Node 2 stands and gets the vote of node 1 in term 1, up to date and the first of that term. */
  lemma VoteInTheOldTerm(flaw: Flaw) returns (run: seq<Servers>, steps: seq<ElectionStep>, s: Servers)
    ensures SoundBut(run, steps, flaw, s) && |steps| == 7 && |s.contests| == 2
    ensures s.contests[1] == Contest(2, 1, 1, map[1 := Reply(1, true)], {})
    ensures s.nodes == map[
      0 := Stood(0, {1, 2}, 0).(role := Leader),
      1 := FreshFields(1, {0, 2}).(currentTerm := 1, votedFor := 2),
      2 := Stood(2, {0, 1}, 1)]
  {
    run, steps, s := FirstLeader(flaw);
    run, steps, s := Stand(run, steps, flaw, s, 2);
    assert s.contests[1] == Contest(2, 1, 1, map[], {});
    run, steps, s := Grant(run, steps, flaw, s, 1, 1);
  }

  // ---------------------------------------------------------------- one entry replicated

  /** The first entry of a leader that has not heard from anybody. */
  function WithEntry(leader: Fields, command: Command): Fields {
    leader.(log := [Entry(leader.currentTerm, command)])
  }

  lemma FirstSend(l: Fields, peer: u64)
    requires FitsWords(l) && l.nextIndex == map[] && l.commitIndex == MAX && |l.log| == 1
    ensures PrepareAppend(l, peer, l.currentTerm) == Append(l.currentTerm, l.id, MAX, MAX, l.log, MAX)
  {
    assert l.log[0..] == l.log;
  }

  /** A follower without that entry takes it, in place of what it may have. */
  lemma TakesEntry(r: Fields, leader: u64, term: u64, log: Log)
    requires r.role == Follower && r.commitIndex == MAX && r.currentTerm <= term < MAX
    requires |log| == 1 && log[0].term == term && (r.log == [] || (|r.log| == 1 && r.log[0].term < term))
    ensures AfterAppendEntries(r, Append(term, leader, MAX, MAX, log, MAX))
            == ((if term > r.currentTerm then ToFollower(r, term) else r).(log := log), Reply(term, true))
  {
    assert Agreeing(r.log, 0, log) == 0;
    assert r.log[..0] + log[0..] == log;
  }

  /** With the answer of one of its two peers the leader commits it. */
  lemma CommitsEntry(leader: Fields, peer: u64)
    requires FirstEntry(leader, peer)
    ensures AfterAppendReply(leader, peer, leader.currentTerm, 0, 1, Reply(leader.currentTerm, true)) == HasConfirmed(leader, peer)
  {
    var r := leader.(nextIndex := map[peer := 1], matchIndex := map[peer := 0]);
    assert Matched(r, 0) == r.peers;
    assert CommittableAsWritten(r, 0);
  }

  /** It does so rightly: the peer that answered holds the entry. */
  lemma EntryIsHeld(leader: Fields, peer: u64)
    requires FirstEntry(leader, peer)
    ensures ReplyAgrees(leader, {}, peer, leader.currentTerm, 0, 1, Reply(leader.currentTerm, true))
  {
    var r := Noted(leader, peer, 0, 1);
    assert r.matchIndex[peer] == 0;
    HoldersAgreement(r, {}, 0);
    assert peer in ReallyMatched(r, 0);
    SubsetSize({peer}, ReallyMatched(r, 0));
    MembersSize(ReallyMatched(r, 0), r.id);
    MembersSize(r.peers, r.id);
    assert RaftNode.Committable(Decode(r, {}), r.id, Members(r), 0);
    assert Covered(r, {});
    ReplyAgreement(leader, {}, peer, leader.currentTerm, 0, 1, Reply(leader.currentTerm, true));
  }

  /** A leader with one entry and a peer that can take it. */
  predicate CanSend(s: Servers, id: u64, peer: u64) {
    && id in s.nodes && peer in s.nodes && peer != id
    && var l := s.nodes[id];
    && l.id == id && l.role == Leader && l.nextIndex == map[] && l.commitIndex == MAX
    && |l.log| == 1 && l.log[0].term == l.currentTerm < MAX && CanTake(s.nodes[peer], l.currentTerm)
  }

  predicate CanTake(r: Fields, term: u64) {
    && r.role == Follower && r.commitIndex == MAX && r.currentTerm <= term
    && (r.log == [] || (|r.log| == 1 && r.log[0].term < term))
  }

  /** The peer takes a leader's only entry. */
  function Sending(l: Fields, peer: u64): ElectionStep {
    TakeAppend(peer, Append(l.currentTerm, l.id, MAX, MAX, l.log, MAX))
  }

  function WithLog(r: Fields, l: Fields): Fields {
    (if l.currentTerm > r.currentTerm then ToFollower(r, l.currentTerm) else r).(log := l.log)
  }

  lemma SentFirst(s: Servers, id: u64, peer: u64)
    requires CanSend(s, id, peer)
    ensures CanDo(s, Sending(s.nodes[id], peer)) && Builds(s, peer, Sending(s.nodes[id], peer).req)
  {
    FirstSend(s.nodes[id], peer);
  }

  lemma SendStep(s: Servers, id: u64, peer: u64)
    requires CanSend(s, id, peer)
    ensures
      var l, step := s.nodes[id], Sending(s.nodes[id], peer);
      && CanDo(s, step) && Sound(s, step) && Led(s, step) && (!Closed(s.nodes[peer], l.currentTerm) ==> Meant(s, step))
      && Do(s, step) == s.(nodes := s.nodes[peer := WithLog(s.nodes[peer], l)])
      && AfterAppendEntries(s.nodes[peer], step.req).1 == Reply(l.currentTerm, true)
  {
    SentFirst(s, id, peer);
    TakesEntry(s.nodes[peer], id, s.nodes[id].currentTerm, s.nodes[id].log);
  }

  /** A leader's only entry sent to one peer, which answers. */
  lemma Send(run: seq<Servers>, steps: seq<ElectionStep>, flaw: Flaw, s: Servers, id: u64, peer: u64)
    returns (run': seq<Servers>, steps': seq<ElectionStep>, s': Servers)
    requires SoundBut(run, steps, flaw, s) && CanSend(s, id, peer) && flaw.Careless?
    requires |steps| == flaw.at || !Closed(s.nodes[peer], s.nodes[id].currentTerm)
    ensures SoundBut(run', steps', flaw, s') && s' == s.(nodes := s.nodes[peer := WithLog(s.nodes[peer], s.nodes[id])])
    ensures steps' == steps + [Sending(s.nodes[id], peer)]
    ensures RepliedAt(run', steps' + [Confirmed(s.nodes[id], peer)], |steps'|, |steps|)
  {
    SendStep(s, id, peer);
    var step := Sending(s.nodes[id], peer);
    run', steps' := Go(run, steps, flaw, step, s);
    s' := Do(s, step);
  }

  /** The leader hears of a success for its first entry. */
  function Confirmed(l: Fields, peer: u64): ElectionStep {
    TakeAppendReply(l.id, peer, l.currentTerm, 0, 1, Reply(l.currentTerm, true))
  }

  function HasConfirmed(l: Fields, peer: u64): Fields {
    l.(nextIndex := map[peer := 1], matchIndex := map[peer := 0], commitIndex := 0, signals := l.signals + 1)
  }

  /** A leader with one entry that has heard nothing yet from its two peers. */
  predicate FirstEntry(l: Fields, peer: u64) {
    && l.role == Leader && l.currentTerm < MAX && l.commitIndex == MAX
    && |l.log| == 1 && l.log[0].term == l.currentTerm && l.id !in l.peers
    && l.matchIndex == map[] && l.nextIndex == map[] && |l.peers| == 2 && peer in l.peers
  }

  /** The answer of the peer that took the entry. */
  lemma CommitWith(run: seq<Servers>, steps: seq<ElectionStep>, flaw: Flaw, s: Servers, id: u64, peer: u64, at: nat)
    returns (run': seq<Servers>, steps': seq<ElectionStep>, s': Servers)
    requires SoundBut(run, steps, flaw, s) && id in s.nodes && s.nodes[id].id == id && FirstEntry(s.nodes[id], peer)
    requires |steps| != flaw.at && RepliedAt(run, steps + [Confirmed(s.nodes[id], peer)], |steps|, at)
    ensures SoundBut(run', steps', flaw, s') && steps' == steps + [Confirmed(s.nodes[id], peer)]
    ensures s' == s.(nodes := s.nodes[id := HasConfirmed(s.nodes[id], peer)])
  {
    var l := s.nodes[id];
    CommitsEntry(l, peer);
    EntryIsHeld(l, peer);
    run', steps' := Go(run, steps, flaw, Confirmed(l, peer), s);
    s' := Do(s, Confirmed(l, peer));
  }

  predicate NewLeader(r: Fields, id: u64) {
    && r.id == id && id !in r.peers && r.role == Leader && r.currentTerm < MAX && r.log == [] && r.commitIndex == MAX
    && r.nextIndex == map[] && r.matchIndex == map[] && |r.peers| == 2
  }

  /** A leader without entries takes a command. */
  lemma TakeCommand(run: seq<Servers>, steps: seq<ElectionStep>, flaw: Flaw, s: Servers, id: u64, command: Command)
    returns (run': seq<Servers>, steps': seq<ElectionStep>, s': Servers)
    requires SoundBut(run, steps, flaw, s) && id in s.nodes && NewLeader(s.nodes[id], id)
    ensures SoundBut(run', steps', flaw, s') && steps' == steps + [Submit(id, command)]
    ensures s' == s.(nodes := s.nodes[id := WithEntry(s.nodes[id], command)])
  {
    assert s.nodes[id].log + [Entry(s.nodes[id].currentTerm, command)] == WithEntry(s.nodes[id], command).log;
    run', steps' := Go(run, steps, flaw, Submit(id, command), s);
    s' := Do(s, Submit(id, command));
  }

  /** A command submitted, sent to one peer and committed with its answer. */
  lemma Replicate(run: seq<Servers>, steps: seq<ElectionStep>, flaw: Flaw, s: Servers, id: u64, peer: u64, command: Command)
    returns (run': seq<Servers>, steps': seq<ElectionStep>, s': Servers)
    requires SoundBut(run, steps, flaw, s) && flaw.Careless? && id in s.nodes && peer in s.nodes && peer in s.nodes[id].peers && peer != id
    requires NewLeader(s.nodes[id], id) && CanTake(s.nodes[peer], s.nodes[id].currentTerm)
    requires |steps| + 1 == flaw.at || (|steps| + 2 != flaw.at && !Closed(s.nodes[peer], s.nodes[id].currentTerm))
    ensures SoundBut(run', steps', flaw, s') && steps <= steps' && |steps'| == |steps| + 3 && steps'[|steps| + 1].TakeAppend?
    ensures
      var l := WithEntry(s.nodes[id], command);
      s' == s.(nodes := s.nodes[peer := WithLog(s.nodes[peer], l)][id := HasConfirmed(l, peer)])
  {
    run', steps', s' := TakeCommand(run, steps, flaw, s, id, command);
    run', steps', s' := Send(run', steps', flaw, s', id, peer);
    run', steps', s' := CommitWith(run', steps', flaw, s', id, peer, |steps| + 1);
  }

  // ---------------------------------------------------------------- two commands at one index

  /** A run that is sound and genuine, and careful but for one step, which handles commit indexes carefully too. */
  ghost predicate CarefulBut(run: seq<Servers>, steps: seq<ElectionStep>, at: nat) {
    && ElectionRun(run, steps) && at < |steps| && (forall k :: SoundAt(run, steps, k) && GenuineAt(run, steps, k))
    && (forall k :: k != at ==> CarefulAt(run, steps, k))
    && CanDo(run[at], steps[at]) && CommitsCarefully(run[at], steps[at])
  }

  /** Two leaders have committed different commands at index 0. */
  ghost predicate CommittedTwice(s: Servers, x: Command, y: Command) {
    && 0 in s.nodes && s.nodes[0].commitIndex == 0 && s.nodes[0].log == [Entry(1, x)]
    && 2 in s.nodes && s.nodes[2].commitIndex == 0 && s.nodes[2].log == [Entry(2, y)]
  }

  lemma OneCareless(run: seq<Servers>, steps: seq<ElectionStep>, at: nat, s: Servers)
    requires SoundBut(run, steps, Careless(at), s) && at < |steps| && (steps[at].TakeAppend? || steps[at].Ask?)
    ensures CarefulBut(run, steps, at) && (steps[at].Ask? ==> Truthful(run[at], steps[at].contest, steps[at].vote))
  {
    forall k: nat ensures SoundAt(run, steps, k) && GenuineAt(run, steps, k) && (k != at ==> CarefulAt(run, steps, k)) {
      assert LedAt(run, steps, k) && FlawlessAt(run, steps, Careless(at), k);
    }
    assert LedAt(run, steps, at);
  }

  /**
   * Node 1 takes and acknowledges an entry of the leader of term 1 after it has voted for the
   * leader of term 2, which is elected without the entry and commits its own in its place.
   */
  lemma CommittedTwiceInATermLeft(x: Command, y: Command) returns (run: seq<Servers>, steps: seq<ElectionStep>)
    ensures CarefulBut(run, steps, 8) && steps[8].TakeAppend? && CommittedTwice(run[|steps|], x, y)
  {
    var s;
    var flaw := Careless(8);
    assert |{1 as u64, 2}| == 2 && |{0 as u64, 1}| == 2;
    run, steps, s := VoteInTheOldTerm(flaw);
    run, steps, s := Replicate(run, steps, flaw, s, 0, 1, x);
    assert s.contests[1] == Contest(2, 1, 1, map[1 := Reply(1, true)], {}) && s.nodes[2] == Stood(2, {0, 1}, 1);
    run, steps, s := Elect(run, steps, flaw, s, 1, 1);
    run, steps, s := Replicate(run, steps, flaw, s, 2, 1, y);
    OneCareless(run, steps, 8, s);
  }

  /** A node votes in its own term without a look at the logs. */
  lemma GrantAnyway(run: seq<Servers>, steps: seq<ElectionStep>, s: Servers, k: nat, peer: u64)
    returns (run': seq<Servers>, steps': seq<ElectionStep>, s': Servers)
    requires SoundBut(run, steps, Careless(|steps|), s) && k < |s.contests| && peer in s.nodes && FitsWords(s.nodes[peer])
    requires s.nodes[peer].currentTerm == s.contests[k].term && s.nodes[peer].votedFor == MAX
    requires peer != s.contests[k].candidate && peer !in s.contests[k].answers
    requires s.contests[k].candidate in s.nodes && s.nodes[s.contests[k].candidate].log == []
    ensures steps' == steps + [Ask(k, peer, Vote(s.contests[k].term, s.contests[k].candidate, MAX, MAX))]
    ensures SoundBut(run', steps', Careless(|steps|), s')
    ensures
      var c := s.contests[k];
      s' == Servers(s.nodes[peer := s.nodes[peer].(votedFor := c.candidate)],
                    s.contests[k := c.(answers := c.answers[peer := Reply(c.term, true)])])
  {
    var step := Ask(k, peer, Vote(s.contests[k].term, s.contests[k].candidate, MAX, MAX));
    run', steps' := Go(run, steps, Careless(|steps|), step, s);
    s' := Do(s, step);
  }

  /** Node 0 has committed an entry that node 1 holds too, and node 2, without it, stands. */
  lemma StandsWithout(x: Command) returns (run: seq<Servers>, steps: seq<ElectionStep>, s: Servers)
    ensures SoundBut(run, steps, Careless(9), s) && |steps| == 9 && |s.contests| == 2
    ensures s.contests[1] == Contest(2, 1, 1, map[], {})
    ensures s.nodes == map[
      0 := HasConfirmed(WithEntry(Stood(0, {1, 2}, 0).(role := Leader), x), 1),
      1 := FreshFields(1, {0, 2}).(currentTerm := 1, log := [Entry(1, x)]),
      2 := Stood(2, {0, 1}, 1)]
  {
    assert |{1 as u64, 2}| == 2;
    run, steps, s := FirstLeader(Careless(9));
    run, steps, s := Replicate(run, steps, Careless(9), s, 0, 1, x);
    run, steps, s := Stand(run, steps, Careless(9), s, 2);
  }

  /**
   * Node 1, which holds the entry committed by the leader of term 1, votes in that term for node 2,
   * which does not, leads term 2 and commits its own in its place.
   */
  lemma CommittedTwiceByAnOldLog(x: Command, y: Command) returns (run: seq<Servers>, steps: seq<ElectionStep>)
    ensures CarefulBut(run, steps, 9) && steps[9].Ask? && Truthful(run[9], steps[9].contest, steps[9].vote)
    ensures CommittedTwice(run[|steps|], x, y)
  {
    var s;
    assert |{0 as u64, 1}| == 2;
    run, steps, s := StandsWithout(x);
    run, steps, s := GrantAnyway(run, steps, s, 1, 1);
    assert s.contests[1] == Contest(2, 1, 1, map[1 := Reply(1, true)], {}) && steps[9].Ask?;
    run, steps, s := Elect(run, steps, Careless(9), s, 1, 1);
    run, steps, s := Replicate(run, steps, Careless(9), s, 2, 1, y);
    OneCareless(run, steps, 9, s);
  }

  /** Careful runs do commit: the same run as far as node 0 has its entry committed. */
  lemma CarefulRunCommits(x: Command) returns (run: seq<Servers>, steps: seq<ElectionStep>)
    ensures CarefulRun(run, steps) && 0 in run[|steps|].nodes
    ensures Count(run[|steps|].nodes[0]) == 1 && run[|steps|].nodes[0].log == [Entry(1, x)]
  {
    var s;
    assert |{1 as u64, 2}| == 2;
    run, steps, s := FirstLeader(Careless(9));
    run, steps, s := Replicate(run, steps, Careless(9), s, 0, 1, x);
    forall k: nat ensures SoundAt(run, steps, k) && CarefulAt(run, steps, k) && GenuineAt(run, steps, k) {
      assert LedAt(run, steps, k) && FlawlessAt(run, steps, Careless(9), k);
    }
  }
}
