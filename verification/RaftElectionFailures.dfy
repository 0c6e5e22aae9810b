/**
 * What goes wrong in an election as written when a single step is not sound: runs of three fresh
 * nodes in which every other step is, and which end with two leaders of one term.
 */
module RaftElectionFailures {
  import opened Basics
  import opened RaftNode
  import opened RaftAsWritten
  import opened RaftRefinement
  import opened RaftCommitRefinement
  import opened RaftElection
  import opened RaftLogMatching
  import opened RaftCompleteness
  import opened RaftAgreement

  /** A vote handled as intended overwrites no vote. */
  lemma AgreedVoteIsKept(r: Fields, votes: set<Id>, vote: Vote)
    requires FitsWords(r) && vote.candidate < MAX && VoteAgrees(r, votes, vote)
    ensures KeepsVote(r, vote)
  {
    VoteAgreement(r, votes, vote);
  }

  // ---------------------------------------------------------------- single steps with empty logs

  const THREE: Servers :=
    Servers(map[0 := FreshFields(0, {1, 2}), 1 := FreshFields(1, {0, 2}), 2 := FreshFields(2, {0, 1})], [])

  /** Besides being careful, votes and append replies are handled as meant. */
  ghost predicate Meant(s: Servers, step: ElectionStep)
    requires CanDo(s, step)
  {
    && Careful(s, step) && CommitsCarefully(s, step)
    && match step
       case Ask(k, peer, vote) => VoteAgrees(s.nodes[peer], {}, vote)
       case TakeAppendReply(id, peer, myTerm, next, count, reply) => ReplyAgrees(s.nodes[id], {}, peer, myTerm, next, count, reply)
       case _ => true
  }

  /**
   * An append comes from a node that leads its term, built from what it has at that moment, and
   * makes nobody forget a commit; a request for a vote tells where the candidate's log ends.
   */
  ghost predicate Led(s: Servers, step: ElectionStep)
    requires CanDo(s, step)
  {
    match step
    case Ask(k, peer, vote) => Truthful(s, k, vote)
    case TakeAppend(id, req) =>
      Builds(s, id, req) && s.nodes[req.leader].commitIndex == req.leaderCommit && CommitsCarefully(s, step)
    case _ => true
  }

  ghost predicate MeantAt(run: seq<Servers>, steps: seq<ElectionStep>, i: nat) {
    i < |steps| && i < |run| ==> CanDo(run[i], steps[i]) && Meant(run[i], steps[i])
  }

  ghost predicate LedAt(run: seq<Servers>, steps: seq<ElectionStep>, i: nat) {
    i < |steps| && i < |run| ==> CanDo(run[i], steps[i]) && Led(run[i], steps[i]) && GenuineAt(run, steps, i)
  }

  /** The one step of a run that is not sound, or is sound and not as meant. */
  datatype Flaw = Unsound(at: nat) | Careless(at: nat)

  ghost predicate FlawlessAt(run: seq<Servers>, steps: seq<ElectionStep>, flaw: Flaw, k: nat) {
    (flaw != Unsound(k) ==> SoundAt(run, steps, k)) && (k != flaw.at ==> MeantAt(run, steps, k))
  }

  /**
   * A run from three fresh nodes to `s` in which every step but the flawed one is sound and as
   * meant, and every append and every success comes from a leader and a follower of the run.
   */
  ghost predicate SoundBut(run: seq<Servers>, steps: seq<ElectionStep>, flaw: Flaw, s: Servers) {
    && ElectionRun(run, steps) && run[0] == THREE && run[|steps|] == s
    && (forall k :: FlawlessAt(run, steps, flaw, k)) && forall k :: LedAt(run, steps, k)
  }

  lemma Begin(flaw: Flaw)
    ensures SoundBut([THREE], [], flaw, THREE)
  {
    assert THREE.nodes.Keys == {0, 1, 2};
    assert {0, 1, 2} - {0 as u64} == {1, 2} && {0, 1, 2} - {1 as u64} == {0, 2} && {0, 1, 2} - {2 as u64} == {0, 1};
  }

  lemma Go(run: seq<Servers>, steps: seq<ElectionStep>, flaw: Flaw, step: ElectionStep, s: Servers)
    returns (run': seq<Servers>, steps': seq<ElectionStep>)
    requires SoundBut(run, steps, flaw, s) && CanDo(s, step) && Led(s, step)
    requires (flaw == Unsound(|steps|) || Sound(s, step)) && (flaw.at == |steps| || Meant(s, step))
    requires step.TakeAppendReply? && step.reply.ok ==> exists j :: RepliedAt(run, steps + [step], |steps|, j)
    ensures run' == run + [Do(s, step)] && steps' == steps + [step] && SoundBut(run', steps', flaw, Do(s, step))
  {
    run', steps' := run + [Do(s, step)], steps + [step];
    forall k ensures DoneAt(run', steps', k) { assert DoneAt(run, steps, k); }
    forall k ensures FlawlessAt(run', steps', flaw, k) { assert FlawlessAt(run, steps, flaw, k); }
    forall k: nat ensures LedAt(run', steps', k) {
      assert LedAt(run, steps, k);
      if k < |steps| { GenuineStays(run, steps, run', steps', k); }
      if k == |steps| { GenuineNow(run, steps, step, s, run'); }
    }
  }

  lemma GenuineNow(run: seq<Servers>, steps: seq<ElectionStep>, step: ElectionStep, s: Servers, run': seq<Servers>)
    requires CanDo(s, step) && Led(s, step) && |run| == |steps| + 1 && run[|steps|] == s && run <= run'
    requires step.TakeAppendReply? && step.reply.ok ==> exists j :: RepliedAt(run, steps + [step], |steps|, j)
    ensures GenuineAt(run', steps + [step], |steps|)
  {
    var k := |steps|;
    if step.TakeAppend? { assert BuiltAt(run', steps + [step], k, k); }
    if step.TakeAppendReply? && step.reply.ok {
      var j: nat :| RepliedAt(run, steps + [step], k, j);
      assert RepliedAt(run', steps + [step], k, j);
    }
  }

  lemma GenuineStays(run: seq<Servers>, steps: seq<ElectionStep>, run': seq<Servers>, steps': seq<ElectionStep>, k: nat)
    requires GenuineAt(run, steps, k) && run <= run' && steps <= steps' && k < |steps|
    ensures GenuineAt(run', steps', k)
  {
    if steps[k].TakeAppend? {
      var j: nat :| BuiltAt(run, steps, k, j);
      assert BuiltAt(run', steps', k, j);
    }
    if steps[k].TakeAppendReply? && steps[k].reply.ok {
      var j: nat :| RepliedAt(run, steps, k, j);
      assert RepliedAt(run', steps', k, j);
    }
  }

  /** A node with an empty log stands. */
  lemma Stand(run: seq<Servers>, steps: seq<ElectionStep>, flaw: Flaw, s: Servers, id: u64)
    returns (run': seq<Servers>, steps': seq<ElectionStep>, s': Servers)
    requires SoundBut(run, steps, flaw, s) && id in s.nodes
    requires s.nodes[id].log == [] && s.nodes[id].role != Leader && s.nodes[id].currentTerm + 1 < MAX
    requires flaw == Unsound(|steps|) || s.nodes[id].votedFor == MAX || s.nodes[id].votedFor == s.nodes[id].id
    ensures steps' == steps + [TimeOut(id)] && SoundBut(run', steps', flaw, s')
    ensures
      var r := s.nodes[id];
      s' == Servers(s.nodes[id := r.(role := Candidate, currentTerm := r.currentTerm + 1, votedFor := r.id)],
                    s.contests + [Contest(id, r.currentTerm, 1, map[], {})])
  {
    run', steps' := Go(run, steps, flaw, TimeOut(id), s);
    s' := Do(s, TimeOut(id));
  }

  /** It stands several times in a row. */
  lemma {:induction false} StandTimes(run: seq<Servers>, steps: seq<ElectionStep>, flaw: Flaw, s: Servers, id: u64, times: nat)
    returns (run': seq<Servers>, steps': seq<ElectionStep>, s': Servers)
    requires SoundBut(run, steps, flaw, s) && id in s.nodes && s.nodes[id].id == id && times > 0
    requires s.nodes[id].log == [] && s.nodes[id].role != Leader && s.nodes[id].currentTerm + times < MAX
    requires s.nodes[id].votedFor == MAX || s.nodes[id].votedFor == id
    ensures SoundBut(run', steps', flaw, s') && steps <= steps' && |steps'| == |steps| + times
    ensures
      var r := s.nodes[id];
      s'.nodes == s.nodes[id := r.(role := Candidate, currentTerm := r.currentTerm + times, votedFor := id)]
    ensures |s'.contests| == |s.contests| + times && s.contests <= s'.contests
    ensures s'.contests[|s.contests| + times - 1] == Contest(id, s.nodes[id].currentTerm + times - 1, 1, map[], {})
    decreases times
  {
    run', steps', s' := Stand(run, steps, flaw, s, id);
    if times > 1 {
      var s1, steps1 := s', steps';
      run', steps', s' := StandTimes(run', steps1, flaw, s1, id, times - 1);
    }
  }

  /** A node with an empty log votes for whoever asks in its term or a newer one. */
  lemma Grant(run: seq<Servers>, steps: seq<ElectionStep>, flaw: Flaw, s: Servers, k: nat, peer: u64)
    returns (run': seq<Servers>, steps': seq<ElectionStep>, s': Servers)
    requires SoundBut(run, steps, flaw, s) && k < |s.contests| && peer in s.nodes && s.nodes[peer].log == []
    requires s.nodes[peer].currentTerm <= s.contests[k].term < MAX
    requires peer != s.contests[k].candidate < MAX && peer !in s.contests[k].answers
    requires flaw == Unsound(|steps|) || s.nodes[peer].votedFor == MAX || s.nodes[peer].currentTerm < s.contests[k].term
    requires Running(s, k) ==> s.nodes[s.contests[k].candidate].log == []
    ensures steps' == steps + [Ask(k, peer, Vote(s.contests[k].term, s.contests[k].candidate, MAX, MAX))]
    ensures SoundBut(run', steps', flaw, s')
    ensures
      var r, c := s.nodes[peer], s.contests[k];
      s' == Servers(
        s.nodes[peer := (if c.term > r.currentTerm then ToFollower(r, c.term) else r).(votedFor := c.candidate)],
        s.contests[k := c.(answers := c.answers[peer := Reply(c.term, true)])])
  {
    var step := Ask(k, peer, Vote(s.contests[k].term, s.contests[k].candidate, MAX, MAX));
    VoteAgreement(s.nodes[peer], {}, step.vote);
    run', steps' := Go(run, steps, flaw, step, s);
    s' := Do(s, step);
  }

  /** A candidate of three nodes wins with its second vote. */
  lemma Elect(run: seq<Servers>, steps: seq<ElectionStep>, flaw: Flaw, s: Servers, k: nat, peer: u64)
    returns (run': seq<Servers>, steps': seq<ElectionStep>, s': Servers)
    requires SoundBut(run, steps, flaw, s)
    requires k < |s.contests| && Granted(s.contests[k], peer) && peer !in s.contests[k].heard
    requires s.contests[k].votes == 1 && s.contests[k].term < MAX && s.contests[k].candidate in s.nodes
    requires s.nodes[s.contests[k].candidate].role == Candidate && |s.nodes[s.contests[k].candidate].peers| == 2
    requires flaw == Unsound(|steps|) || s.contests[k].term + 1 == s.nodes[s.contests[k].candidate].currentTerm
    requires s.nodes[s.contests[k].candidate].matchIndex == map[]
    ensures steps' == steps + [Hear(k, peer)] && SoundBut(run', steps', flaw, s')
    ensures
      var c := s.contests[k];
      s' == Servers(s.nodes[c.candidate := s.nodes[c.candidate].(role := Leader)],
                    s.contests[k := c.(votes := 2, heard := c.heard + {peer})])
  {
    run', steps' := Go(run, steps, flaw, Hear(k, peer), s);
    s' := Do(s, Hear(k, peer));
  }

  /** Both: a candidate with one vote, its own, gets that of a peer and wins. */
  lemma Win(run: seq<Servers>, steps: seq<ElectionStep>, flaw: Flaw, s: Servers, k: nat, peer: u64)
    returns (run': seq<Servers>, steps': seq<ElectionStep>, s': Servers)
    requires SoundBut(run, steps, flaw, s) && flaw.at < |steps|
    requires k < |s.contests| && s.contests[k] == Contest(s.contests[k].candidate, s.contests[k].term, 1, map[], {})
    requires peer in s.nodes && s.nodes[peer].log == [] && peer != s.contests[k].candidate < MAX
    requires s.nodes[peer].currentTerm <= s.contests[k].term < MAX
    requires s.nodes[peer].votedFor == MAX || s.nodes[peer].currentTerm < s.contests[k].term
    requires s.contests[k].candidate in s.nodes && |s.nodes[s.contests[k].candidate].peers| == 2
    requires s.nodes[s.contests[k].candidate].role == Candidate
    requires s.contests[k].term + 1 == s.nodes[s.contests[k].candidate].currentTerm
    requires s.nodes[s.contests[k].candidate].matchIndex == map[] && s.nodes[s.contests[k].candidate].log == []
    ensures SoundBut(run', steps', flaw, s') && |steps'| > |steps| && steps'[flaw.at] == steps[flaw.at]
    ensures Leads(s', s.contests[k].candidate, s.contests[k].term + 1)
    ensures forall id :: id in s.nodes && id != peer && id != s.contests[k].candidate ==> id in s'.nodes && s'.nodes[id] == s.nodes[id]
  {
    run', steps', s' := Grant(run, steps, flaw, s, k, peer);
    run', steps', s' := Elect(run', steps', flaw, s', k, peer);
  }

  // ---------------------------------------------------------------- two leaders

  /** Two leaders of one term at the end of a run of three nodes with one step that is not sound. */
  ghost predicate Fails(run: seq<Servers>, steps: seq<ElectionStep>, flaw: Flaw, s: Servers) {
    && SoundBut(run, steps, flaw, s) && flaw.at < |steps|
    && exists a, b, term :: a != b && Leads(s, a, term) && Leads(s, b, term)
  }

  /** Nodes 0 and 1 have stood. */
  lemma TwoStood() returns (run: seq<Servers>, steps: seq<ElectionStep>, s: Servers)
    ensures SoundBut(run, steps, Unsound(3), s) && |steps| == 2
    ensures s.nodes == map[0 := Stood(0, {1, 2}, 0), 1 := Stood(1, {0, 2}, 0), 2 := FreshFields(2, {0, 1})]
    ensures s.contests == [Contest(0, 0, 1, map[], {}), Contest(1, 0, 1, map[], {})]
  {
    Begin(Unsound(3));
    run, steps, s := Stand([THREE], [], Unsound(3), THREE, 0);
    assert s.contests == [Contest(0, 0, 1, map[], {})] && s.nodes[1] == FreshFields(1, {0, 2});
    run, steps, s := Stand(run, steps, Unsound(3), s, 1);
  }

  /** Node 2 has voted for both. */
  lemma TwoVotes() returns (run: seq<Servers>, steps: seq<ElectionStep>, s: Servers)
    ensures SoundBut(run, steps, Unsound(3), s) && |steps| == 4 && steps[3].Ask?
    ensures s.nodes == map[0 := Stood(0, {1, 2}, 0), 1 := Stood(1, {0, 2}, 0), 2 := FreshFields(2, {0, 1}).(votedFor := 1)]
    ensures s.contests == [Contest(0, 0, 1, map[2 := Reply(0, true)], {}), Contest(1, 0, 1, map[2 := Reply(0, true)], {})]
  {
    run, steps, s := TwoStood();
    run, steps, s := Grant(run, steps, Unsound(3), s, 0, 2);
    run, steps, s := Grant(run, steps, Unsound(3), s, 1, 2);
  }

  /** The guard at the vote: node 2 votes for both candidates of term 0. Not sound is its second vote. */
  lemma TwoLeadersByTwoVotes() returns (run: seq<Servers>, steps: seq<ElectionStep>, s: Servers)
    ensures Fails(run, steps, Unsound(3), s) && steps[3].Ask?
  {
    assert |{1 as u64, 2}| == 2 && |{0 as u64, 2}| == 2;
    run, steps, s := TwoVotes();
    run, steps, s := Elect(run, steps, Unsound(3), s, 0, 2);
    run, steps, s := Elect(run, steps, Unsound(3), s, 1, 2);
    assert Leads(s, 0, 1) && Leads(s, 1, 1);
  }

  /** Node 0 has stood and node 1 has voted for it. */
  lemma OneVoteGiven(flaw: Flaw) returns (run: seq<Servers>, steps: seq<ElectionStep>, s: Servers)
    ensures SoundBut(run, steps, flaw, s) && |steps| == 2
    ensures s == Servers(
      map[0 := Stood(0, {1, 2}, 0), 1 := FreshFields(1, {0, 2}).(votedFor := 0), 2 := FreshFields(2, {0, 1})],
      [Contest(0, 0, 1, map[1 := Reply(0, true)], {})])
  {
    Begin(flaw);
    run, steps, s := Stand([THREE], [], flaw, THREE, 0);
    run, steps, s := Grant(run, steps, flaw, s, 0, 1);
  }

  /** A node that has stood from `term`. */
  function Stood(id: u64, peers: set<u64>, term: u64): Fields
    requires term + 1 < MAX
  {
    FreshFields(id, peers).(role := Candidate, currentTerm := term + 1, votedFor := id)
  }

  /**
   * The term read before the increment: node 1 votes for node 0 in term 0 and then stands, asking
   * for the same term 0. Not sound is that it stands.
   */
  lemma TwoLeadersByStanding() returns (run: seq<Servers>, steps: seq<ElectionStep>, s: Servers)
    ensures Fails(run, steps, Unsound(2), s) && steps[2].TimeOut?
  {
    run, steps, s := OneVoteGiven(Unsound(2));
    run, steps, s := Stand(run, steps, Unsound(2), s, 1);
    assert steps[2] == TimeOut(1);
    run, steps, s := Elect(run, steps, Unsound(2), s, 0, 1);
    assert steps[2] == TimeOut(1) && Leads(s, 0, 1) && s.contests[1] == Contest(1, 0, 1, map[], {});
    run, steps, s := Win(run, steps, Unsound(2), s, 1, 2);
    assert Leads(s, 0, 1) && Leads(s, 1, 1);
  }

  /** Node 2 stands twice as well, gets the vote of node 1 in term 1, and wins. */
  lemma WinsLater(run: seq<Servers>, steps: seq<ElectionStep>, s: Servers)
    returns (run': seq<Servers>, steps': seq<ElectionStep>, s': Servers)
    requires SoundBut(run, steps, Unsound(3), s) && |steps| == 4 && |s.contests| == 2 && Leads(s, 0, 2)
    requires 1 in s.nodes && s.nodes[1] == FreshFields(1, {0, 2}).(votedFor := 0)
    requires 2 in s.nodes && s.nodes[2] == FreshFields(2, {0, 1})
    ensures Fails(run', steps', Unsound(3), s') && steps'[3] == steps[3]
  {
    assert |{0 as u64, 1}| == 2;
    run', steps', s' := StandTimes(run, steps, Unsound(3), s, 2, 2);
    assert steps'[3] == steps[3] && Leads(s', 0, 2);
    run', steps', s' := Win(run', steps', Unsound(3), s', 3, 1);
    assert Leads(s', 0, 2) && Leads(s', 2, 2);
  }

  /**
   * The state read without the term: node 0 stands twice, and a late answer to its first election
   * makes it leader of the term of its second. Not sound is that it counts that answer.
   */
  lemma TwoLeadersByALateAnswer() returns (run: seq<Servers>, steps: seq<ElectionStep>, s: Servers)
    ensures Fails(run, steps, Unsound(3), s) && steps[3].Hear?
  {
    run, steps, s := OneVoteGiven(Unsound(3));
    run, steps, s := Stand(run, steps, Unsound(3), s, 0);
    run, steps, s := Elect(run, steps, Unsound(3), s, 0, 1);
    assert steps[3] == Hear(0, 1) && Leads(s, 0, 2);
    run, steps, s := WinsLater(run, steps, s);
  }

  // ---------------------------------------------------------------- a vote wiped out

  /** A refusal of an append, of a newer term than the append: the node becomes a follower of that term. */
  lemma Forget(run: seq<Servers>, steps: seq<ElectionStep>, s: Servers, id: u64, peer: u64, myTerm: u64, term: u64)
    returns (run': seq<Servers>, steps': seq<ElectionStep>, s': Servers)
    requires SoundBut(run, steps, Unsound(|steps|), s) && id in s.nodes && s.nodes[id].log == [] && myTerm < term < MAX
    ensures steps' == steps + [TakeAppendReply(id, peer, myTerm, 0, 0, Reply(term, false))]
    ensures SoundBut(run', steps', Unsound(|steps|), s')
    ensures s' == Servers(s.nodes[id := ToFollower(s.nodes[id], term)], s.contests)
  {
    var step := TakeAppendReply(id, peer, myTerm, 0, 0, Reply(term, false));
    run', steps' := Go(run, steps, Unsound(|steps|), step, s);
    s' := Do(s, step);
  }

  /** An empty append of a newer term. */
  lemma Heartbeat(run: seq<Servers>, steps: seq<ElectionStep>, flaw: Flaw, s: Servers, id: u64, leader: u64, term: u64)
    returns (run': seq<Servers>, steps': seq<ElectionStep>, s': Servers)
    requires SoundBut(run, steps, flaw, s) && id in s.nodes && s.nodes[id].log == []
    requires s.nodes[id].currentTerm < term < MAX && s.nodes[id].commitIndex == MAX
    requires Leads(s, leader, term) && s.nodes[leader].id == leader && leader != id && s.nodes[leader].log == []
    requires s.nodes[leader].nextIndex == map[] && s.nodes[leader].commitIndex == MAX
    ensures |steps'| == |steps| + 1 && SoundBut(run', steps', flaw, s')
    ensures s' == Servers(s.nodes[id := ToFollower(s.nodes[id], term)], s.contests)
  {
    var step := TakeAppend(id, Append(term, leader, MAX, MAX, [], MAX));
    run', steps' := Go(run, steps, flaw, step, s);
    s' := Do(s, step);
    assert AfterAppendEntries(s.nodes[id], step.req).0 == ToFollower(s.nodes[id], term);
  }

  /** Node 1 has stood and node 0 has voted for it. */
  lemma OtherVoteGiven(flaw: Flaw) returns (run: seq<Servers>, steps: seq<ElectionStep>, s: Servers)
    ensures SoundBut(run, steps, flaw, s) && |steps| == 2
    ensures s == Servers(
      map[0 := FreshFields(0, {1, 2}).(votedFor := 1), 1 := Stood(1, {0, 2}, 0), 2 := FreshFields(2, {0, 1})],
      [Contest(1, 0, 1, map[0 := Reply(0, true)], {})])
  {
    Begin(flaw);
    run, steps, s := Stand([THREE], [], flaw, THREE, 1);
    run, steps, s := Grant(run, steps, flaw, s, 0, 0);
  }

  /** Node 1 leads term 1 by the vote of node 0. */
  lemma LedOnce(flaw: Flaw) returns (run: seq<Servers>, steps: seq<ElectionStep>, s: Servers)
    ensures SoundBut(run, steps, flaw, s) && |steps| == 3 && |s.contests| == 1
    ensures s.nodes == map[
      0 := FreshFields(0, {1, 2}).(votedFor := 1),
      1 := Stood(1, {0, 2}, 0).(role := Leader),
      2 := FreshFields(2, {0, 1})]
  {
    assert |{0 as u64, 2}| == 2;
    run, steps, s := OtherVoteGiven(flaw);
    run, steps, s := Elect(run, steps, flaw, s, 0, 0);
  }

  /** Node 2, standing for the third time, leads term 3 by the vote of node 1 in term 2. */
  lemma LedAfter(flaw: Flaw) returns (run: seq<Servers>, steps: seq<ElectionStep>, s: Servers)
    ensures SoundBut(run, steps, flaw, s) && |steps| == 8 && |s.contests| == 4
    ensures s.nodes == map[
      0 := FreshFields(0, {1, 2}).(votedFor := 1),
      1 := FreshFields(1, {0, 2}).(currentTerm := 2, votedFor := 2),
      2 := Stood(2, {0, 1}, 2).(role := Leader)]
  {
    run, steps, s := LedOnce(flaw);
    run, steps, s := StandTimes(run, steps, flaw, s, 2, 3);
    run, steps, s := Grant(run, steps, flaw, s, 3, 1);
    run, steps, s := Elect(run, steps, flaw, s, 3, 1);
  }

  /** Node 1, which voted for the leader of term 3 in term 2, has lost that vote: it stands, asks for term 2, and wins. */
  lemma WinsAgain(run: seq<Servers>, steps: seq<ElectionStep>, flaw: Flaw, s: Servers)
    returns (run': seq<Servers>, steps': seq<ElectionStep>, s': Servers)
    requires SoundBut(run, steps, flaw, s) && flaw.at < |steps| && |s.contests| == 4
    requires 0 in s.nodes && s.nodes[0] == FreshFields(0, {1, 2}).(votedFor := 1)
    requires 1 in s.nodes && s.nodes[1] == FreshFields(1, {0, 2}).(currentTerm := 2) && Leads(s, 2, 3)
    ensures Fails(run', steps', flaw, s') && steps'[flaw.at] == steps[flaw.at]
  {
    assert |{0 as u64, 2}| == 2;
    run', steps', s' := Stand(run, steps, flaw, s, 1);
    assert s'.contests[4] == Contest(1, 2, 1, map[], {}) && Leads(s', 2, 3);
    run', steps', s' := Win(run', steps', flaw, s', 4, 0);
    assert Leads(s', 1, 3) && Leads(s', 2, 3);
  }

  /**
   * The reply at 827: node 1, which led term 1 and then voted in term 2, gets a late refusal of
   * term 2 to an append it sent in term 1, and makes itself a follower of term 2 again, without its
   * vote. Not sound is that it takes the reply.
   */
  lemma TwoLeadersByALateRefusal() returns (run: seq<Servers>, steps: seq<ElectionStep>, s: Servers)
    ensures Fails(run, steps, Unsound(8), s) && steps[8].TakeAppendReply?
  {
    run, steps, s := LedAfter(Unsound(8));
    run, steps, s := Forget(run, steps, s, 1, 2, 1, 2);
    assert steps[8].TakeAppendReply?;
    run, steps, s := WinsAgain(run, steps, Unsound(8), s);
  }

  /** The same after the leader of term 3 has made itself known to node 1: the refusal sets its term back. */
  lemma TwoLeadersByATermSetBack() returns (run: seq<Servers>, steps: seq<ElectionStep>, s: Servers)
    ensures Fails(run, steps, Unsound(9), s) && steps[9].TakeAppendReply?
  {
    run, steps, s := LedAfter(Unsound(9));
    run, steps, s := Heartbeat(run, steps, Unsound(9), s, 1, 2, 3);
    assert s.nodes[1].currentTerm == 3;
    run, steps, s := Forget(run, steps, s, 1, 2, 1, 2);
    assert steps[9].TakeAppendReply?;
    run, steps, s := WinsAgain(run, steps, Unsound(9), s);
  }

  // ---------------------------------------------------------------- an answer that sets the term back

  /** A node with an empty log refuses whoever asks for an older term. */
  lemma Refuse(run: seq<Servers>, steps: seq<ElectionStep>, flaw: Flaw, s: Servers, k: nat, peer: u64)
    returns (run': seq<Servers>, steps': seq<ElectionStep>, s': Servers)
    requires SoundBut(run, steps, flaw, s) && k < |s.contests| && peer in s.nodes && s.nodes[peer].log == []
    requires s.contests[k].term < s.nodes[peer].currentTerm < MAX
    requires peer != s.contests[k].candidate < MAX && peer !in s.contests[k].answers
    requires Running(s, k) ==> s.nodes[s.contests[k].candidate].log == []
    ensures |steps'| == |steps| + 1 && SoundBut(run', steps', flaw, s')
    ensures
      var c := s.contests[k];
      s' == Servers(s.nodes, s.contests[k := c.(answers := c.answers[peer := Reply(s.nodes[peer].currentTerm, false)])])
  {
    var step := Ask(k, peer, Vote(s.contests[k].term, s.contests[k].candidate, MAX, MAX));
    VoteAgreement(s.nodes[peer], {}, step.vote);
    run', steps' := Go(run, steps, flaw, step, s);
    s' := Do(s, step);
    assert s.nodes[peer := s.nodes[peer]] == s.nodes;
  }

  /** A candidate takes a late answer of a newer term than it asked for. */
  lemma SetBack(run: seq<Servers>, steps: seq<ElectionStep>, s: Servers, k: nat, peer: u64)
    returns (run': seq<Servers>, steps': seq<ElectionStep>, s': Servers)
    requires SoundBut(run, steps, Unsound(|steps|), s) && k < |s.contests| && peer in s.contests[k].answers && peer !in s.contests[k].heard
    requires s.contests[k].candidate in s.nodes && s.nodes[s.contests[k].candidate].role == Candidate
    requires s.contests[k].term < s.contests[k].answers[peer].term
    ensures steps' == steps + [Hear(k, peer)] && SoundBut(run', steps', Unsound(|steps|), s') && |s'.contests| == |s.contests|
    ensures
      var c := s.contests[k];
      s'.nodes == s.nodes[c.candidate := ToFollower(s.nodes[c.candidate], c.answers[peer].term)]
  {
    run', steps' := Go(run, steps, Unsound(|steps|), Hear(k, peer), s);
    s' := Do(s, Hear(k, peer));
  }

  /** Node 1 has stood, node 2 twice, and has refused node 1 the term 0 it asked for. */
  lemma OneRefusal() returns (run: seq<Servers>, steps: seq<ElectionStep>, s: Servers)
    ensures SoundBut(run, steps, Unsound(11), s) && |steps| == 4 && |s.contests| == 3
    ensures s.contests[0] == Contest(1, 0, 1, map[2 := Reply(2, false)], {})
    ensures s.nodes == map[0 := FreshFields(0, {1, 2}), 1 := Stood(1, {0, 2}, 0), 2 := Stood(2, {0, 1}, 1)]
  {
    Begin(Unsound(11));
    run, steps, s := Stand([THREE], [], Unsound(11), THREE, 1);
    assert s.contests[0] == Contest(1, 0, 1, map[], {});
    run, steps, s := StandTimes(run, steps, Unsound(11), s, 2, 2);
    run, steps, s := Refuse(run, steps, Unsound(11), s, 0, 2);
  }

  /** Node 0 stands three times. */
  lemma StoodMeanwhile() returns (run: seq<Servers>, steps: seq<ElectionStep>, s: Servers)
    ensures SoundBut(run, steps, Unsound(11), s) && |steps| == 7 && |s.contests| == 6
    ensures s.contests[0] == Contest(1, 0, 1, map[2 := Reply(2, false)], {}) && s.contests[5] == Contest(0, 2, 1, map[], {})
    ensures s.nodes == map[0 := Stood(0, {1, 2}, 2), 1 := Stood(1, {0, 2}, 0), 2 := Stood(2, {0, 1}, 1)]
  {
    run, steps, s := OneRefusal();
    run, steps, s := StandTimes(run, steps, Unsound(11), s, 0, 3);
  }

  /** Node 0 leads term 3 by the vote of node 1 in term 2. */
  lemma LedMeanwhile() returns (run: seq<Servers>, steps: seq<ElectionStep>, s: Servers)
    ensures SoundBut(run, steps, Unsound(11), s) && |steps| == 9 && |s.contests| == 6
    ensures s.contests[0] == Contest(1, 0, 1, map[2 := Reply(2, false)], {})
    ensures s.nodes == map[
      0 := Stood(0, {1, 2}, 2).(role := Leader),
      1 := FreshFields(1, {0, 2}).(currentTerm := 2, votedFor := 0),
      2 := Stood(2, {0, 1}, 1)]
  {
    assert |{1 as u64, 2}| == 2;
    run, steps, s := StoodMeanwhile();
    run, steps, s := Grant(run, steps, Unsound(11), s, 5, 1);
    assert s.contests[5] == Contest(0, 2, 1, map[1 := Reply(2, true)], {});
    run, steps, s := Elect(run, steps, Unsound(11), s, 5, 1);
  }

  /** Node 1 hears of that leader and stands again. */
  lemma StandsAgain() returns (run: seq<Servers>, steps: seq<ElectionStep>, s: Servers)
    ensures SoundBut(run, steps, Unsound(11), s) && |steps| == 11 && |s.contests| == 7
    ensures s.contests[0] == Contest(1, 0, 1, map[2 := Reply(2, false)], {})
    ensures s.nodes == map[
      0 := Stood(0, {1, 2}, 2).(role := Leader),
      1 := Stood(1, {0, 2}, 3),
      2 := Stood(2, {0, 1}, 1)]
  {
    run, steps, s := LedMeanwhile();
    run, steps, s := Heartbeat(run, steps, Unsound(11), s, 1, 0, 3);
    run, steps, s := Stand(run, steps, Unsound(11), s, 1);
  }

  /**
   * The reply at 652: node 1 has heard of the leader of term 3 and stands again; a late answer to
   * its first election sets it back to term 2, without its vote there, and it votes for node 2.
   * Not sound is that it takes the answer.
   */
  lemma TwoLeadersByAnAnswerSetBack() returns (run: seq<Servers>, steps: seq<ElectionStep>, s: Servers)
    ensures Fails(run, steps, Unsound(11), s) && steps[11].Hear?
  {
    run, steps, s := StandsAgain();
    run, steps, s := SetBack(run, steps, s, 0, 2);
    assert steps[11] == Hear(0, 2);
    run, steps, s := WinsToo(run, steps, s);
  }

  /** Node 2 asks node 1 for its vote in term 2 and wins. */
  lemma WinsToo(run: seq<Servers>, steps: seq<ElectionStep>, s: Servers)
    returns (run': seq<Servers>, steps': seq<ElectionStep>, s': Servers)
    requires SoundBut(run, steps, Unsound(11), s) && |steps| == 12 && |s.contests| == 7 && Leads(s, 0, 3)
    requires 1 in s.nodes && s.nodes[1] == FreshFields(1, {0, 2}).(currentTerm := 2)
    requires 2 in s.nodes && s.nodes[2] == Stood(2, {0, 1}, 1)
    ensures Fails(run', steps', Unsound(11), s') && steps'[11] == steps[11]
  {
    assert |{0 as u64, 1}| == 2;
    run', steps', s' := Stand(run, steps, Unsound(11), s, 2);
    assert s'.contests[7] == Contest(2, 2, 1, map[], {}) && Leads(s', 0, 3);
    run', steps', s' := Win(run', steps', Unsound(11), s', 7, 1);
    assert Leads(s', 0, 3) && Leads(s', 2, 3);
  }
}
