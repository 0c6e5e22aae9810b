/**
 * Elections conducted as written, over whole runs: every candidate's question to every peer, the
 * peer's answer and the candidate's count are steps of their own, among arbitrary append traffic.
 */
module RaftElection {
  import opened Quorum
  import opened Basics
  import opened RaftNode
  import opened RaftAsWritten

  /** One call of startElection: the term its goroutines ask for, their counter and their replies. */
  datatype Contest = Contest(candidate: u64, term: u64, votes: nat, answers: map<u64, Reply>, heard: set<u64>)

  datatype Servers = Servers(nodes: map<u64, Fields>, contests: seq<Contest>)

  datatype ElectionStep =
    | TimeOut(id: u64)
    | Ask(contest: nat, peer: u64, vote: Vote)     // the peer answers the candidate's one request to it
    | Hear(contest: nat, peer: u64)                // the candidate takes the answer
    | Submit(id: u64, command: Command)
    | TakeAppend(id: u64, req: Append)
    | TakeAppendReply(id: u64, peer: u64, myTerm: u64, next: u64, count: u64, reply: Reply)

  predicate CanDo(s: Servers, step: ElectionStep) {
    match step
    case TimeOut(id) => id in s.nodes && FitsWords(s.nodes[id]) && s.nodes[id].role != Leader
    case Ask(k, peer, vote) =>
      && k < |s.contests| && peer in s.nodes && FitsWords(s.nodes[peer])
      && peer != s.contests[k].candidate && peer !in s.contests[k].answers
      && vote.term == s.contests[k].term && vote.candidate == s.contests[k].candidate
    case Hear(k, peer) =>
      && k < |s.contests| && s.contests[k].candidate in s.nodes
      && peer in s.contests[k].answers && peer !in s.contests[k].heard
    case Submit(id, command) => id in s.nodes
    case TakeAppend(id, req) => id in s.nodes && FitsWords(s.nodes[id]) && AppendFits(s.nodes[id], req)
    case TakeAppendReply(id, peer, myTerm, next, count, reply) => id in s.nodes && FitsWords(s.nodes[id])
  }

  function Do(s: Servers, step: ElectionStep): Servers
    requires CanDo(s, step)
  {
    match step
    case TimeOut(id) =>
      var (r, vote) := AfterStartElection(s.nodes[id]);
      Servers(s.nodes[id := r], s.contests + [Contest(id, vote.term, 1, map[], {})])
    case Ask(k, peer, vote) =>
      var (r, reply) := AfterRequestVote(s.nodes[peer], vote);
      var c := s.contests[k];
      Servers(s.nodes[peer := r], s.contests[k := c.(answers := c.answers[peer := reply])])
    case Hear(k, peer) =>
      var c := s.contests[k];
      var (r, votes) := AfterVoteReply(s.nodes[c.candidate], c.term, c.votes, c.answers[peer]);
      Servers(s.nodes[c.candidate := r], s.contests[k := c.(votes := votes, heard := c.heard + {peer})])
    case Submit(id, command) =>
      s.(nodes := s.nodes[id := AfterSubmit(s.nodes[id], command)])
    case TakeAppend(id, req) =>
      s.(nodes := s.nodes[id := AfterAppendEntries(s.nodes[id], req).0])
    case TakeAppendReply(id, peer, myTerm, next, count, reply) =>
      s.(nodes := s.nodes[id := AfterAppendReply(s.nodes[id], peer, myTerm, next, count, reply)])
  }

  function FreshFields(id: u64, peers: set<u64>): Fields {
    Fields(id, peers, 0, MAX, [], Follower, map[], map[], MAX, MAX, 0, [])
  }

  ghost predicate Start(s: Servers) {
    && s.contests == []
    && forall id :: id in s.nodes ==> id < MAX && s.nodes[id] == FreshFields(id, s.nodes.Keys - {id})
  }

  ghost predicate DoneAt(run: seq<Servers>, steps: seq<ElectionStep>, i: nat) {
    i < |steps| && i + 1 < |run| ==> CanDo(run[i], steps[i]) && run[i + 1] == Do(run[i], steps[i])
  }

  ghost predicate ElectionRun(run: seq<Servers>, steps: seq<ElectionStep>) {
    |run| == |steps| + 1 && Start(run[0]) && forall i :: DoneAt(run, steps, i)
  }

  // ---------------------------------------------------------------- when a step is sound

  /** The guard does not overwrite a vote for another candidate. */
  predicate KeepsVote(r: Fields, vote: Vote)
    requires FitsWords(r)
  {
    var r1 := Adopt(r, vote.term);
    GrantsAsWritten(r1, vote) ==> r1.votedFor == MAX || r1.votedFor == vote.candidate
  }

  /** A candidate that stands has not voted for another in the term it asks for. */
  predicate StandsFree(r: Fields) {
    (r.votedFor == MAX || r.votedFor == r.id) && r.currentTerm + 1 < MAX
  }

  /** An answer that reaches its candidate neither sets the term back nor wins a later election. */
  predicate InTime(r: Fields, c: Contest, reply: Reply) {
    r.role == Candidate ==>
      if reply.term > c.term then reply.term >= r.currentTerm
      else 2 * GotVote(c.term, c.votes, reply) > |r.peers| + 1 ==> c.term + 1 == r.currentTerm
  }

  /** A reply to an append neither sets the term back nor wipes out a vote of the current term. */
  predicate KeepsTerm(r: Fields, myTerm: u64, reply: Reply) {
    && myTerm < MAX && reply.term < MAX
    && (myTerm < reply.term <= r.currentTerm ==>
          reply.term == r.currentTerm && (r.role != Follower || r.votedFor == MAX))
  }

  predicate Sound(s: Servers, step: ElectionStep)
    requires CanDo(s, step)
  {
    match step
    case TimeOut(id) => StandsFree(s.nodes[id])
    case Ask(k, peer, vote) => KeepsVote(s.nodes[peer], vote)
    case Hear(k, peer) => InTime(s.nodes[s.contests[k].candidate], s.contests[k], s.contests[k].answers[peer])
    case Submit(id, command) => true
    case TakeAppend(id, req) => req.term < MAX
    case TakeAppendReply(id, peer, myTerm, next, count, reply) => KeepsTerm(s.nodes[id], myTerm, reply)
  }

  // ---------------------------------------------------------------- invariant

  predicate Granted(c: Contest, q: u64) {
    q in c.answers && c.answers[q] == Reply(c.term, true)
  }

  /** `q` stood in the contest, or granted its candidate the term it asked for. */
  predicate Backs(c: Contest, q: u64) {
    q == c.candidate || Granted(c, q)
  }

  /** The grants the candidate has heard of. */
  function HeardVotes(c: Contest): set<u64> {
    set q | q in c.heard && Granted(c, q)
  }

  function Backers(c: Contest): set<u64> {
    (set q | q in c.answers && Granted(c, q)) + {c.candidate}
  }

  ghost predicate NodeOk(s: Servers, q: u64) {
    q in s.nodes ==>
      var r := s.nodes[q];
      && q < MAX && r.id == q && r.peers == s.nodes.Keys - {q} && r.currentTerm < MAX
      && (r.role != Follower ==> r.votedFor == q)
      && (r.role == Leader ==> exists k :: Won(s, q, k))
  }

  /** The contest that made `q` the leader it is. */
  ghost predicate Won(s: Servers, q: u64, k: nat) {
    && k < |s.contests| && s.contests[k].candidate == q && q in s.nodes
    && s.contests[k].term + 1 == s.nodes[q].currentTerm
    && Majority(Backers(s.contests[k]), s.nodes.Keys)
  }

  ghost predicate ContestOk(s: Servers, k: nat) {
    k < |s.contests| ==>
      var c := s.contests[k];
      && c.candidate in s.nodes && c.term < s.nodes[c.candidate].currentTerm
      && c.candidate !in c.answers && c.heard <= c.answers.Keys <= s.nodes.Keys
      && c.votes <= |HeardVotes(c)| + 1
      && forall q :: q in c.answers ==> c.answers[q].term < MAX
  }

  /** A voter never falls behind a contest it backs, and in its term remembers whom it backs. */
  ghost predicate BackOk(s: Servers, q: u64, k: nat) {
    q in s.nodes && k < |s.contests| && Backs(s.contests[k], q) ==>
      && s.contests[k].term <= s.nodes[q].currentTerm
      && (s.contests[k].term == s.nodes[q].currentTerm ==> s.nodes[q].votedFor == s.contests[k].candidate)
  }

  ghost predicate OneVote(s: Servers, q: u64, k: nat, l: nat) {
    q in s.nodes && k < |s.contests| && l < |s.contests| && s.contests[k].term == s.contests[l].term
    && Backs(s.contests[k], q) && Backs(s.contests[l], q) ==>
      s.contests[k].candidate == s.contests[l].candidate
  }

  ghost predicate ElectionInv(s: Servers) {
    && (forall q :: NodeOk(s, q))
    && (forall k :: ContestOk(s, k))
    && (forall q, k :: BackOk(s, q, k))
    && (forall q, k, l :: OneVote(s, q, k, l))
  }

  /** What a contest was, it remains; answers only come in. */
  ghost predicate ContestGrows(s: Servers, s': Servers, k: nat) {
    k < |s.contests| ==>
      && k < |s'.contests|
      && s'.contests[k].candidate == s.contests[k].candidate && s'.contests[k].term == s.contests[k].term
      && forall q :: Granted(s.contests[k], q) ==> Granted(s'.contests[k], q)
  }

  ghost predicate Later(s: Servers, s': Servers) {
    s'.nodes.Keys == s.nodes.Keys && forall k :: ContestGrows(s, s', k)
  }

  // ---------------------------------------------------------------- steps of one node alone

  /** A node moved to a later term, stood still, or gave up without wiping out a vote it cast. */
  ghost predicate Moves(r: Fields, r': Fields) {
    && r'.id == r.id && r'.peers == r.peers && r'.currentTerm < MAX
    && (|| (r'.currentTerm > r.currentTerm && r'.role == Follower)
        || (r'.currentTerm == r.currentTerm && r'.role == r.role && r'.votedFor == r.votedFor)
        || (r'.currentTerm == r.currentTerm && r'.role == Follower && (r.role != Follower || r.votedFor == MAX)))
  }

  lemma NodeMoves(s: Servers, q: u64, r': Fields)
    requires ElectionInv(s) && q in s.nodes && Moves(s.nodes[q], r')
    ensures
      var s' := s.(nodes := s.nodes[q := r']);
      ElectionInv(s') && Later(s, s')
  {
    var s' := s.(nodes := s.nodes[q := r']);
    assert s'.nodes.Keys == s.nodes.Keys;
    forall p ensures NodeOk(s', p) {
      assert NodeOk(s, p);
      if p in s.nodes && s'.nodes[p].role == Leader {
        var k: nat :| Won(s, p, k);
        assert Won(s', p, k);
      }
    }
    forall k ensures ContestOk(s', k) { assert ContestOk(s, k); }
    forall p, k: nat ensures BackOk(s', p, k) {
      assert BackOk(s, p, k) && NodeOk(s, p);
      if k < |s.contests| { assert ContestOk(s, k) && NodeOk(s, s.contests[k].candidate); }
    }
    forall p, k: nat, l: nat ensures OneVote(s', p, k, l) { assert OneVote(s, p, k, l); }
    forall k ensures ContestGrows(s, s', k) {}
  }

  lemma LaterTransitive(a: Servers, b: Servers, c: Servers)
    requires Later(a, b) && Later(b, c)
    ensures Later(a, c)
  {
    forall k ensures ContestGrows(a, c, k) { assert ContestGrows(a, b, k) && ContestGrows(b, c, k); }
  }

  /** Append traffic of whatever origin and content. */
  lemma AppendMoves(r: Fields, req: Append)
    requires FitsWords(r) && AppendFits(r, req) && req.term < MAX && r.currentTerm < MAX
    ensures Moves(r, AfterAppendEntries(r, req).0)
  {
  }

  lemma AppendReplyMoves(r: Fields, peer: u64, myTerm: u64, next: u64, count: u64, reply: Reply)
    requires FitsWords(r) && r.currentTerm < MAX && KeepsTerm(r, myTerm, reply)
    ensures Moves(r, AfterAppendReply(r, peer, myTerm, next, count, reply))
  {
  }

  // ---------------------------------------------------------------- standing and voting

  lemma TimeOutStep(s: Servers, id: u64)
    requires ElectionInv(s) && CanDo(s, TimeOut(id)) && Sound(s, TimeOut(id))
    ensures ElectionInv(Do(s, TimeOut(id))) && Later(s, Do(s, TimeOut(id)))
  {
    var s' := Do(s, TimeOut(id));
    var n := |s.contests|;
    assert s'.nodes.Keys == s.nodes.Keys;
    assert NodeOk(s, id);
    forall p ensures NodeOk(s', p) {
      assert NodeOk(s, p);
      if p in s.nodes && s'.nodes[p].role == Leader {
        var k: nat :| Won(s, p, k);
        assert Won(s', p, k);
      }
    }
    forall k ensures ContestOk(s', k) { assert ContestOk(s, k); }
    forall p, k: nat ensures BackOk(s', p, k) { assert BackOk(s, p, k); }
    forall p, k: nat, l: nat ensures OneVote(s', p, k, l) {
      assert OneVote(s, p, k, l) && BackOk(s, p, k) && BackOk(s, p, l);
      if k < n { assert ContestOk(s, k) && NodeOk(s, s.contests[k].candidate); }
      if l < n { assert ContestOk(s, l) && NodeOk(s, s.contests[l].candidate); }
    }
    forall k ensures ContestGrows(s, s', k) {}
  }

  /** What an answer does to the voter: the vote it had in its term stays, and only an empty one is filled in. */
  ghost predicate Answers(r: Fields, term: u64, candidate: u64, r': Fields, reply: Reply) {
    && r'.id == r.id && r'.peers == r.peers && r'.currentTerm < MAX && reply.term == r'.currentTerm
    && r'.currentTerm >= r.currentTerm && r'.currentTerm >= term
    && (if r'.currentTerm > r.currentTerm then r'.role == Follower else r'.role == r.role)
    && (r'.role != Follower ==> r'.votedFor == r'.id)
    && (r'.currentTerm == r.currentTerm && r.votedFor != MAX ==> r'.votedFor == r.votedFor)
    && (reply.ok ==> r'.votedFor == candidate)
  }

  lemma AnswerEffect(r: Fields, vote: Vote)
    requires FitsWords(r) && r.currentTerm < MAX && vote.term < MAX && r.id != vote.candidate && r.id < MAX
    requires KeepsVote(r, vote) && (r.role != Follower ==> r.votedFor == r.id)
    ensures
      var (r', reply) := AfterRequestVote(r, vote);
      Answers(r, vote.term, vote.candidate, r', reply)
  {
  }

  /** `peer` has answered in contest `k`. */
  ghost predicate Asked(s: Servers, k: nat, peer: u64, s': Servers) {
    && k < |s.contests| && |s'.contests| == |s.contests| && peer in s.nodes && peer in s'.nodes
    && var c, c' := s.contests[k], s'.contests[k];
    && peer != c.candidate && peer !in c.answers && peer in c'.answers
    && c' == c.(answers := c.answers[peer := c'.answers[peer]])
    && s'.contests == s.contests[k := c'] && s'.nodes == s.nodes[peer := s'.nodes[peer]]
    && Answers(s.nodes[peer], c.term, c.candidate, s'.nodes[peer], c'.answers[peer])
  }

  lemma AskedNodes(s: Servers, k: nat, peer: u64, s': Servers, q: u64)
    requires ElectionInv(s) && Asked(s, k, peer, s')
    ensures NodeOk(s', q)
  {
    assert s'.nodes.Keys == s.nodes.Keys;
    assert NodeOk(s, q);
    if q in s'.nodes && s'.nodes[q].role == Leader {
      var l: nat :| Won(s, q, l);
      assert ContestOk(s, l);
      assert Backers(s.contests[l]) <= Backers(s'.contests[l]);
      AskedContest(s, k, peer, s', l);
      assert Backers(s'.contests[l]) <= s'.nodes.Keys;
      MajorityGrows(Backers(s.contests[l]), Backers(s'.contests[l]), s.nodes.Keys);
      assert Won(s', q, l);
    }
  }

  lemma AskedContest(s: Servers, k: nat, peer: u64, s': Servers, l: nat)
    requires ElectionInv(s) && Asked(s, k, peer, s')
    ensures ContestOk(s', l)
  {
    assert ContestOk(s, l);
    if l < |s.contests| {
      var c, c' := s.contests[l], s'.contests[l];
      assert forall q :: q in c.heard ==> (Granted(c', q) <==> Granted(c, q));
      assert HeardVotes(c') == HeardVotes(c);
    }
  }

  lemma AskedBacks(s: Servers, k: nat, peer: u64, s': Servers, q: u64, l: nat)
    requires ElectionInv(s) && Asked(s, k, peer, s')
    ensures BackOk(s', q, l)
  {
    assert BackOk(s, q, l) && ContestOk(s, l);
    if l < |s.contests| { assert NodeOk(s, s.contests[l].candidate); }
  }

  lemma AskedVotes(s: Servers, k: nat, peer: u64, s': Servers, q: u64, l: nat, m: nat)
    requires ElectionInv(s) && Asked(s, k, peer, s')
    ensures OneVote(s', q, l, m)
  {
    assert OneVote(s, q, l, m) && BackOk(s, q, l) && BackOk(s, q, m);
    AskedBacks(s, k, peer, s', q, l);
    AskedBacks(s, k, peer, s', q, m);
  }

  lemma AskStep(s: Servers, k: nat, peer: u64, vote: Vote)
    requires ElectionInv(s) && CanDo(s, Ask(k, peer, vote)) && Sound(s, Ask(k, peer, vote))
    ensures ElectionInv(Do(s, Ask(k, peer, vote))) && Later(s, Do(s, Ask(k, peer, vote)))
  {
    var s' := Do(s, Ask(k, peer, vote));
    assert ContestOk(s, k) && NodeOk(s, peer);
    assert NodeOk(s, vote.candidate);
    AnswerEffect(s.nodes[peer], vote);
    assert Asked(s, k, peer, s');
    forall q ensures NodeOk(s', q) { AskedNodes(s, k, peer, s', q); }
    forall l ensures ContestOk(s', l) { AskedContest(s, k, peer, s', l); }
    forall q, l: nat ensures BackOk(s', q, l) { AskedBacks(s, k, peer, s', q, l); }
    forall q, l: nat, m: nat ensures OneVote(s', q, l, m) { AskedVotes(s, k, peer, s', q, l, m); }
    forall l ensures ContestGrows(s, s', l) {}
  }

  // ---------------------------------------------------------------- counting

  /** The counter stays within the answers heard. */
  lemma CountedContest(c: Contest, peer: u64, votes: nat)
    requires peer in c.answers && peer !in c.heard && votes <= GotVote(c.term, c.votes, c.answers[peer])
    requires c.votes <= |HeardVotes(c)| + 1
    ensures
      var c' := c.(votes := votes, heard := c.heard + {peer});
      c'.votes <= |HeardVotes(c')| + 1
  {
    var c' := c.(votes := votes, heard := c.heard + {peer});
    var before, after := HeardVotes(c), HeardVotes(c');
    assert after == if Granted(c, peer) then before + {peer} else before;
  }

  lemma CountedNode(s: Servers, k: nat, c': Contest, q: u64)
    requires ElectionInv(s) && k < |s.contests| && c'.candidate == s.contests[k].candidate
    requires c'.term == s.contests[k].term && c'.answers == s.contests[k].answers
    ensures NodeOk(s.(contests := s.contests[k := c']), q)
  {
    assert NodeOk(s, q);
    if q in s.nodes && s.nodes[q].role == Leader {
      var l: nat :| Won(s, q, l);
      assert Backers(c') == Backers(s.contests[k]);
      assert Won(s.(contests := s.contests[k := c']), q, l);
    }
  }

  /** The counter and the list of answers heard, before the node itself moves. */
  lemma CountStep(s: Servers, k: nat, peer: u64, votes: nat)
    requires ElectionInv(s) && CanDo(s, Hear(k, peer))
    requires votes <= GotVote(s.contests[k].term, s.contests[k].votes, s.contests[k].answers[peer])
    ensures
      var c := s.contests[k];
      var s' := s.(contests := s.contests[k := c.(votes := votes, heard := c.heard + {peer})]);
      ElectionInv(s') && Later(s, s')
  {
    var c := s.contests[k];
    var c' := c.(votes := votes, heard := c.heard + {peer});
    var s' := s.(contests := s.contests[k := c']);
    assert ContestOk(s, k);
    CountedContest(c, peer, votes);
    forall q ensures NodeOk(s', q) { CountedNode(s, k, c', q); }
    forall l ensures ContestOk(s', l) { assert ContestOk(s, l); }
    forall q, l: nat ensures BackOk(s', q, l) { assert BackOk(s, q, l); }
    forall q, l: nat, m: nat ensures OneVote(s', q, l, m) { assert OneVote(s, q, l, m); }
    forall l ensures ContestGrows(s, s', l) {}
  }

  /** A candidate whose contest for this term has a majority becomes leader. */
  lemma WinStep(s: Servers, k: nat)
    requires ElectionInv(s) && k < |s.contests|
    requires
      var c := s.contests[k];
      && c.candidate in s.nodes && s.nodes[c.candidate].role == Candidate
      && c.term + 1 == s.nodes[c.candidate].currentTerm && 2 * c.votes > |s.nodes[c.candidate].peers| + 1
    ensures
      var q := s.contests[k].candidate;
      var s' := s.(nodes := s.nodes[q := s.nodes[q].(role := Leader)]);
      ElectionInv(s') && Later(s, s')
  {
    var c := s.contests[k];
    var q := c.candidate;
    var s' := s.(nodes := s.nodes[q := s.nodes[q].(role := Leader)]);
    assert s'.nodes.Keys == s.nodes.Keys;
    assert ContestOk(s, k) && NodeOk(s, q);
    ContestMajority(s, k);
    assert Won(s', q, k);
    forall p ensures NodeOk(s', p) {
      assert NodeOk(s, p);
      if p != q && p in s.nodes && s.nodes[p].role == Leader {
        var l: nat :| Won(s, p, l);
        assert Won(s', p, l);
      }
    }
    forall l ensures ContestOk(s', l) { assert ContestOk(s, l); }
    forall p, l: nat ensures BackOk(s', p, l) { assert BackOk(s, p, l); }
    forall p, l: nat, m: nat ensures OneVote(s', p, l, m) { assert OneVote(s, p, l, m); }
    forall l ensures ContestGrows(s, s', l) {}
  }

  /** A counter beyond half the cluster is backed by a majority. */
  lemma ContestMajority(s: Servers, k: nat)
    requires k < |s.contests| && ContestOk(s, k) && NodeOk(s, s.contests[k].candidate)
    requires 2 * s.contests[k].votes > |s.nodes[s.contests[k].candidate].peers| + 1
    ensures Majority(Backers(s.contests[k]), s.nodes.Keys)
  {
    var c := s.contests[k];
    var granted := HeardVotes(c);
    SubsetSize(granted + {c.candidate}, Backers(c));
    assert s.nodes.Keys == s.nodes[c.candidate].peers + {c.candidate};
  }

  lemma HearStep(s: Servers, k: nat, peer: u64)
    requires ElectionInv(s) && CanDo(s, Hear(k, peer)) && Sound(s, Hear(k, peer))
    ensures ElectionInv(Do(s, Hear(k, peer))) && Later(s, Do(s, Hear(k, peer)))
  {
    var c := s.contests[k];
    var q := c.candidate;
    var (r', votes) := AfterVoteReply(s.nodes[q], c.term, c.votes, c.answers[peer]);
    var s1 := s.(contests := s.contests[k := c.(votes := votes, heard := c.heard + {peer})]);
    assert ContestOk(s, k) && NodeOk(s, q);
    CountStep(s, k, peer, votes);
    if r'.role == Leader && s.nodes[q].role == Candidate {
      WinStep(s1, k);
    } else {
      NodeMoves(s1, q, r');
    }
    LaterTransitive(s, s1, Do(s, Hear(k, peer)));
  }

  // ---------------------------------------------------------------- whole runs

  lemma SoundStep(s: Servers, step: ElectionStep)
    requires ElectionInv(s) && CanDo(s, step) && Sound(s, step)
    ensures ElectionInv(Do(s, step)) && Later(s, Do(s, step))
  {
    match step
    case TimeOut(id) => TimeOutStep(s, id);
    case Ask(k, peer, vote) => AskStep(s, k, peer, vote);
    case Hear(k, peer) => HearStep(s, k, peer);
    case Submit(id, command) =>
      assert NodeOk(s, id);
      NodeMoves(s, id, Do(s, step).nodes[id]);
    case TakeAppend(id, req) =>
      assert NodeOk(s, id);
      AppendMoves(s.nodes[id], req);
      NodeMoves(s, id, AfterAppendEntries(s.nodes[id], req).0);
    case TakeAppendReply(id, peer, myTerm, next, count, reply) =>
      assert NodeOk(s, id);
      AppendReplyMoves(s.nodes[id], peer, myTerm, next, count, reply);
      NodeMoves(s, id, AfterAppendReply(s.nodes[id], peer, myTerm, next, count, reply));
  }

  ghost predicate SoundAt(run: seq<Servers>, steps: seq<ElectionStep>, i: nat) {
    i < |steps| && i < |run| ==> CanDo(run[i], steps[i]) && Sound(run[i], steps[i])
  }

  lemma {:induction false} SoundRun(run: seq<Servers>, steps: seq<ElectionStep>, i: nat, j: nat)
    requires ElectionRun(run, steps) && i <= j < |run| && forall k :: SoundAt(run, steps, k)
    ensures ElectionInv(run[i]) && ElectionInv(run[j]) && Later(run[i], run[j])
    decreases j
  {
    if j == 0 {
      forall k ensures ContestGrows(run[0], run[0], k) {}
      forall q ensures NodeOk(run[0], q) {}
    } else {
      SoundRun(run, steps, if i < j then i else j - 1, j - 1);
      assert DoneAt(run, steps, j - 1) && SoundAt(run, steps, j - 1);
      SoundStep(run[j - 1], steps[j - 1]);
      if i < j {
        LaterTransitive(run[i], run[j - 1], run[j]);
      } else {
        forall k ensures ContestGrows(run[j], run[j], k) {}
      }
    }
  }

  ghost predicate Leads(s: Servers, id: u64, term: u64) {
    id in s.nodes && s.nodes[id].role == Leader && s.nodes[id].currentTerm == term
  }

  lemma OneLeader(run: seq<Servers>, steps: seq<ElectionStep>, i: nat, j: nat, a: u64, b: u64, term: u64)
    requires ElectionRun(run, steps) && i <= j < |run| && forall k :: SoundAt(run, steps, k)
    requires Leads(run[i], a, term) && Leads(run[j], b, term)
    ensures a == b
  {
    SoundRun(run, steps, i, j);
    assert NodeOk(run[i], a) && NodeOk(run[j], b);
    var k: nat :| Won(run[i], a, k);
    var l: nat :| Won(run[j], b, l);
    BackersGrow(run[i], run[j], k);
    var q := MajoritiesMeet(Backers(run[j].contests[k]), Backers(run[j].contests[l]), run[j].nodes.Keys);
    assert OneVote(run[j], q, k, l);
  }

  lemma BackersGrow(s: Servers, s': Servers, k: nat)
    requires ElectionInv(s') && Later(s, s') && k < |s.contests| && Majority(Backers(s.contests[k]), s.nodes.Keys)
    ensures k < |s'.contests| && Majority(Backers(s'.contests[k]), s'.nodes.Keys)
    ensures s'.contests[k].term == s.contests[k].term && s'.contests[k].candidate == s.contests[k].candidate
  {
    assert ContestGrows(s, s', k) && ContestOk(s', k);
    MajorityGrows(Backers(s.contests[k]), Backers(s'.contests[k]), s'.nodes.Keys);
  }

  /**
   * Election safety as written: in every run whose steps are sound no term ever has two leaders,
   * whatever append traffic goes on beside the elections.
   */
  lemma SoundRunsElectOneLeader(run: seq<Servers>, steps: seq<ElectionStep>, i: nat, j: nat, a: u64, b: u64, term: u64)
    requires ElectionRun(run, steps) && i < |run| && j < |run| && forall k :: SoundAt(run, steps, k)
    requires Leads(run[i], a, term) && Leads(run[j], b, term)
    ensures a == b
  {
    if i <= j { OneLeader(run, steps, i, j, a, b, term); } else { OneLeader(run, steps, j, i, b, a, term); }
  }
}
