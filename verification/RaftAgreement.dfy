/**
 * Committed entries as written: over the runs of RaftElection with careful steps, nothing committed
 * is ever lost, and no two nodes commit different entries at one index.
 */
module RaftAgreement {
  import opened Quorum
  import opened Basics
  import opened RaftNode
  import opened RaftMerge
  import opened RaftAsWritten
  import opened RaftRefinement
  import opened RaftCommitRefinement
  import opened RaftElection
  import opened RaftLogMatching
  import opened RaftCompleteness

  // ---------------------------------------------------------------- chosen and committed

  function AckSet(s: Servers, a: Acks, t: u64, k: nat): set<u64> {
    set q | q in s.nodes && Acked(a, q, t, k)
  }

  /** A majority has held the chunk. */
  ghost predicate Chosen(s: Servers, h: Reigns, a: Acks, t: u64, k: nat) {
    Proper(h, t, k) && Majority(AckSet(s, a, t, k), s.nodes.Keys)
  }

  /** The first `n` entries of a log are in a chunk chosen in term `t` or before it. */
  ghost predicate Within(s: Servers, h: Reigns, a: Acks, log: Log, n: nat, term: u64, t: u64, k: nat) {
    Chosen(s, h, a, t, k) && t <= term && n <= |log| && log[..n] <= Chunk(h, t, k)
  }

  ghost predicate Secured(s: Servers, h: Reigns, a: Acks, log: Log, n: nat, term: u64) {
    n <= |log| && (n > 0 ==> exists t, k :: Within(s, h, a, log, n, term, t, k))
  }

  /** How many entries a node has committed. */
  function Count(r: Fields): nat {
    FromWord(r.commitIndex) + 1
  }

  ghost predicate CommitOk(s: Servers, h: Reigns, a: Acks, q: u64) {
    q in s.nodes ==> Secured(s, h, a, s.nodes[q].log, Count(s.nodes[q]), s.nodes[q].currentTerm)
  }

  /** What a leader notes about a peer, the peer has held in the leader's term. */
  ghost predicate MatchOk(s: Servers, a: Acks, q: u64, p: u64) {
    q in s.nodes && s.nodes[q].role == Leader && p in s.nodes[q].matchIndex && s.nodes[q].matchIndex[p] != MAX ==>
      Acked(a, p, s.nodes[q].currentTerm, s.nodes[q].matchIndex[p] + 1)
  }

  ghost predicate CommitInv(s: Servers, h: Reigns, a: Acks) {
    (forall q :: CommitOk(s, h, a, q)) && (forall q, p :: MatchOk(s, a, q, p))
  }

  ghost predicate AcksGrow(a: Acks, a': Acks) {
    forall q, t, k :: AckGrows(a, a', q, t, k)
  }

  ghost predicate AckGrows(a: Acks, a': Acks, q: u64, t: u64, k: nat) {
    Acked(a, q, t, k) ==> Acked(a', q, t, k)
  }

  lemma ChosenStays(s: Servers, h: Reigns, a: Acks, s': Servers, h': Reigns, a': Acks, t: u64, k: nat)
    requires s'.nodes.Keys == s.nodes.Keys && Grows(h, h') && AcksGrow(a, a') && Chosen(s, h, a, t, k)
    ensures Chosen(s', h', a', t, k) && Chunk(h', t, k) == Chunk(h, t, k)
  {
    assert ReignGrows(h, h', t);
    forall q | q in AckSet(s, a, t, k) ensures q in AckSet(s', a', t, k) { assert AckGrows(a, a', q, t, k); }
    MajorityGrows(AckSet(s, a, t, k), AckSet(s', a', t, k), s.nodes.Keys);
  }

  lemma ChosenIsLive(s: Servers, h: Reigns, a: Acks, t: u64, k: nat)
    requires Chosen(s, h, a, t, k)
    ensures Live(s, h, a, t, k)
  {
    MajorityGrows(AckSet(s, a, t, k), HoldSet(s, a, t, k), s.nodes.Keys);
  }

  /** What was secured stays so in a log that still begins with it, in the same term or a later one. */
  lemma SecuredStays(s: Servers, h: Reigns, a: Acks, s': Servers, h': Reigns, a': Acks,
                     log: Log, log': Log, n: nat, term: u64, term': u64)
    requires s'.nodes.Keys == s.nodes.Keys && Grows(h, h') && AcksGrow(a, a') && Secured(s, h, a, log, n, term)
    requires n <= |log'| && log'[..n] == log[..n] && term <= term'
    ensures Secured(s', h', a', log', n, term')
  {
    if n > 0 {
      var t: u64, k: nat :| Within(s, h, a, log, n, term, t, k);
      ChosenStays(s, h, a, s', h', a', t, k);
      assert Within(s', h', a', log', n, term', t, k);
    }
  }

  /** A later leader was elected with everything chosen before. */
  lemma SecuredInReign(s: Servers, h: Reigns, a: Acks, log: Log, n: nat, term: u64, u: u64)
    requires LogInv(s, h) && SafeInv(s, h, a) && Secured(s, h, a, log, n, term) && u in h && term <= u
    ensures log[..n] <= h[u].log && (term < u ==> log[..n] <= h[u].base)
  {
    if n > 0 {
      var t: u64, k: nat :| Within(s, h, a, log, n, term, t, k);
      ChosenIsLive(s, h, a, t, k);
      assert Complete(s, h, a, u, t, k) && ReignOk(s, h, u);
    }
  }

  // ---------------------------------------------------------------- when commits are careful

  ghost predicate CommitsCarefully(s: Servers, step: ElectionStep)
    requires CanDo(s, step)
  {
    match step
    case Hear(k, peer) => Wins(s, step) ==> s.nodes[s.contests[k].candidate].matchIndex == map[]
    case TakeAppend(id, req) => Taken(s.nodes[id], req) ==> !ForgetsCommit(s.nodes[id], req)
    case TakeAppendReply(id, peer, myTerm, next, count, reply) =>
      reply.ok ==> ReplyAgrees(s.nodes[id], {}, peer, myTerm, next, count, reply)
    case _ => true
  }

  // ---------------------------------------------------------------- one step

  /** Nothing committed is lost, and the commit index does not fall. */
  ghost predicate StaysCommitted(s: Servers, s': Servers, q: u64) {
    q in s.nodes && q in s'.nodes ==>
      && Count(s.nodes[q]) <= Count(s'.nodes[q]) <= |s'.nodes[q].log| && Count(s.nodes[q]) <= |s.nodes[q].log|
      && s'.nodes[q].log[..Count(s.nodes[q])] == s.nodes[q].log[..Count(s.nodes[q])]
  }

  ghost predicate NothingLost(s: Servers, s': Servers) {
    forall q :: StaysCommitted(s, s', q)
  }

  /** Nothing new is committed or noted. */
  ghost predicate CommitQuiet(s: Servers, s': Servers, q: u64) {
    q in s.nodes ==>
      && q in s'.nodes
      && var r, r' := s.nodes[q], s'.nodes[q];
      && r'.commitIndex == r.commitIndex && r.log <= r'.log && r'.currentTerm >= r.currentTerm
      && (r'.role == Leader ==> r'.matchIndex == map[] || (r.role == Leader && r'.currentTerm == r.currentTerm && r'.matchIndex == r.matchIndex))
  }

  lemma QuietNode(s: Servers, h: Reigns, a: Acks, s': Servers, h': Reigns, a': Acks, q: u64)
    requires CommitInv(s, h, a) && s'.nodes.Keys == s.nodes.Keys && Grows(h, h') && AcksGrow(a, a') && CommitQuiet(s, s', q)
    ensures CommitOk(s', h', a', q) && StaysCommitted(s, s', q) && forall p :: MatchOk(s', a', q, p)
  {
    assert CommitOk(s, h, a, q);
    if q in s.nodes {
      var r, r' := s.nodes[q], s'.nodes[q];
      SecuredStays(s, h, a, s', h', a', r.log, r'.log, Count(r), r.currentTerm, r'.currentTerm);
      forall p ensures MatchOk(s', a', q, p) {
        assert MatchOk(s, a, q, p);
        if p in r.matchIndex && r.matchIndex[p] != MAX { assert AckGrows(a, a', p, r.currentTerm, r.matchIndex[p] + 1); }
      }
    }
  }

  /** One node commits, the others stand still. */
  lemma OneCommits(s: Servers, h: Reigns, a: Acks, s': Servers, h': Reigns, a': Acks, id: u64)
    requires CommitInv(s, h, a) && s'.nodes.Keys == s.nodes.Keys && Grows(h, h') && AcksGrow(a, a')
    requires id in s.nodes && id in s'.nodes && s'.nodes == s.nodes[id := s'.nodes[id]]
    requires CommitOk(s', h', a', id) && StaysCommitted(s, s', id) && forall p :: MatchOk(s', a', id, p)
    ensures CommitInv(s', h', a') && NothingLost(s, s')
  {
    forall q ensures CommitOk(s', h', a', q) && StaysCommitted(s, s', q) {
      if q != id { QuietNode(s, h, a, s', h', a', q); }
    }
    forall q, p ensures MatchOk(s', a', q, p) {
      if q != id { QuietNode(s, h, a, s', h', a', q); }
    }
  }

  lemma OneQuiet(s: Servers, h: Reigns, a: Acks, s': Servers, h': Reigns, a': Acks, id: u64)
    requires CommitInv(s, h, a) && s'.nodes.Keys == s.nodes.Keys && Grows(h, h') && AcksGrow(a, a')
    requires id in s.nodes && id in s'.nodes && s'.nodes == s.nodes[id := s'.nodes[id]] && CommitQuiet(s, s', id)
    ensures CommitInv(s', h', a') && NothingLost(s, s')
  {
    QuietNode(s, h, a, s', h', a', id);
    OneCommits(s, h, a, s', h', a', id);
  }

  /** The leader's commit index in a message, as secured as in the leader's log. */
  ghost predicate CommitKnown(s: Servers, h: Reigns, a: Acks, req: Append) {
    && req.term in h && FromWord(req.leaderCommit) < Reach(req)
    && Secured(s, h, a, h[req.term].log, FromWord(req.leaderCommit) + 1, req.term)
  }

  /** The commit rule as written, when nothing is forgotten: the later of the two commit indexes. */
  ghost predicate Took(r: Fields, req: Append, r': Fields) {
    && Begin(req) <= |r.log| && Reach(req) <= |r'.log| && r'.log == Merge(r.log, Begin(req), req.entries)
    && r'.role == Follower && r'.currentTerm == req.term
    && Count(r') == (if FromWord(req.leaderCommit) < Count(r) then Count(r) else FromWord(req.leaderCommit) + 1)
  }

  lemma TakenCommit(r: Fields, req: Append)
    requires FitsWords(r) && AppendFits(r, req) && Taken(r, req) && !ForgetsCommit(r, req) && FromWord(req.leaderCommit) < Reach(req)
    ensures Took(r, req, AfterAppendEntries(r, req).0)
  {
    TakenLog(r, req);
    TakenAsWritten(r, req);
  }

  /** A merge keeps what is secured and brings what is sent. */
  lemma MergeSecures(s: Servers, h: Reigns, a: Acks, id: u64, n: nat, term: u64, next: nat, entries: Log)
    requires LogInv(s, h) && SafeInv(s, h, a) && id in s.nodes && s.nodes[id].currentTerm <= term && term in h
    requires Secured(s, h, a, s.nodes[id].log, n, s.nodes[id].currentTerm) && Fits(s.nodes[id].log, h[term].log, next, entries)
    ensures
      var mine, merged, reach := s.nodes[id].log, Merge(s.nodes[id].log, next, entries), next + |entries|;
      && n <= |merged| && merged[..n] == mine[..n]
      && reach <= |merged| && merged[..reach] == h[term].log[..reach]
  {
    var mine, log := s.nodes[id].log, h[term].log;
    assert NodeTraced(s, h, id) && ReignOk(s, h, term);
    TracedMatch(h, mine, log, s.nodes[id].currentTerm, term);
    MergeResult(mine, log, next, entries);
    SecuredInReign(s, h, a, mine, n, s.nodes[id].currentTerm, term);
    MergeKeepsCommon(mine, log, next, entries, mine[..n]);
  }

  lemma FollowerCommits(s: Servers, h: Reigns, a: Acks, s': Servers, a': Acks, id: u64, term: u64, reach: nat, n: nat)
    requires CommitInv(s, h, a) && AcksGrow(a, a') && id in s.nodes && id in s'.nodes && s'.nodes == s.nodes[id := s'.nodes[id]]
    requires term in h && Secured(s, h, a, h[term].log, n, term) && n <= reach <= |h[term].log|
    requires
      var r, r' := s.nodes[id], s'.nodes[id];
      && r.currentTerm <= term == r'.currentTerm && r'.role == Follower && Count(r') == (if n <= Count(r) then Count(r) else n)
      && TookSafely(r, r', h[term].log, reach)
    ensures CommitInv(s', h, a') && NothingLost(s, s')
  {
    var r, r' := s.nodes[id], s'.nodes[id];
    assert CommitOk(s, h, a, id);
    forall t ensures ReignGrows(h, h, t) {}
    if n <= Count(r) {
      SecuredStays(s, h, a, s', h, a', r.log, r'.log, Count(r), r.currentTerm, term);
    } else {
      assert r'.log[..reach][..n] == h[term].log[..reach][..n];
      SecuredStays(s, h, a, s', h, a', h[term].log, r'.log, n, term, term);
    }
    OneCommits(s, h, a, s', h, a', id);
  }

  lemma SliceFits(r: Fields, req: Append, log: Log)
    requires Taken(r, req) && SliceOf(req, log) && Begin(req) <= |r.log|
    ensures Fits(r.log, log, Begin(req), req.entries)
  {
  }

  /** The follower's log keeps what is secured and has what was sent. */
  ghost predicate TookSafely(r: Fields, r': Fields, log: Log, reach: nat) {
    && Count(r) <= |r.log| && Count(r) <= |r'.log| && r'.log[..Count(r)] == r.log[..Count(r)]
    && reach <= |log| && reach <= |r'.log| && r'.log[..reach] == log[..reach]
  }

  lemma TookSecures(s: Servers, h: Reigns, a: Acks, id: u64, req: Append, r': Fields)
    requires LogInv(s, h) && SafeInv(s, h, a) && CommitInv(s, h, a) && id in s.nodes
    requires Taken(s.nodes[id], req) && Took(s.nodes[id], req, r') && req.term in h && SliceOf(req, h[req.term].log)
    ensures TookSafely(s.nodes[id], r', h[req.term].log, Reach(req))
  {
    assert CommitOk(s, h, a, id);
    SliceFits(s.nodes[id], req, h[req.term].log);
    MergeSecures(s, h, a, id, Count(s.nodes[id]), req.term, Begin(req), req.entries);
  }

  lemma TakeCommits(s: Servers, h: Reigns, a: Acks, id: u64, req: Append, s': Servers, a': Acks)
    requires LogInv(s, h) && SafeInv(s, h, a) && CommitInv(s, h, a) && AcksGrow(a, a')
    requires id in s.nodes && id in s'.nodes && s'.nodes == s.nodes[id := s'.nodes[id]]
    requires Taken(s.nodes[id], req) && Took(s.nodes[id], req, s'.nodes[id])
    requires CommitKnown(s, h, a, req) && SliceOf(req, h[req.term].log)
    ensures CommitInv(s', h, a') && NothingLost(s, s')
  {
    TookSecures(s, h, a, id, req, s'.nodes[id]);
    FollowerCommits(s, h, a, s', a', id, req.term, Reach(req), FromWord(req.leaderCommit) + 1);
  }

  // ---------------------------------------------------------------- a leader commits

  /** What a leader may commit: an entry of its term that a majority has matched. */
  predicate MajorityMatched(r: Fields, c: int) {
    Count(r) <= c < |r.log| && c < MAX && r.log[c].term == r.currentTerm && 2 * (|ReallyMatched(r, c)| + 1) > |r.peers| + 1
  }

  lemma CoveredMeans(r: Fields)
    requires FitsWords(r) && r.id !in r.peers && Count(r) <= |r.log| && Covered(r, {})
    ensures
      var c := CommitLoop(r, Wrap(r.commitIndex + 1), |r.log|);
      c == r.commitIndex || MajorityMatched(r, FromWord(c))
  {
    CommitLoopAgreesIff(r, {});
    var c: int := FromWord(CommitLoop(r, Wrap(r.commitIndex + 1), |r.log|));
    if c != FromWord(r.commitIndex) {
      HoldersAgreement(r, {}, c);
      MembersSize(ReallyMatched(r, c), r.id);
      MembersSize(r.peers, r.id);
    }
  }

  /** A success in the leader's own term. */
  lemma CommitMeans(r: Fields, peer: u64, next: u64, count: u64)
    requires FitsWords(r) && r.id !in r.peers && r.role == Leader && r.currentTerm < MAX && Count(r) <= |r.log| && next + count < MAX
    requires ReplyAgrees(r, {}, peer, r.currentTerm, next, count, Reply(r.currentTerm, true))
    ensures
      var r1 := Noted(r, peer, next, count);
      var r' := AfterAppendReply(r, peer, r.currentTerm, next, count, Reply(r.currentTerm, true));
      && r' == Committed(r1, r'.commitIndex)
      && (r'.commitIndex == r.commitIndex || MajorityMatched(r1, FromWord(r'.commitIndex)))
  {
    SuccessAsWritten(r, peer, next, count);
    SuccessAgreement(r, {}, peer, next, count);
    CoveredMeans(Noted(r, peer, next, count));
  }

  /** What is matched by a majority is chosen. */
  lemma MatchedIsChosen(s: Servers, h: Reigns, a: Acks, id: u64, r: Fields, c: nat)
    requires ElectionInv(s) && LogInv(s, h) && SafeInv(s, h, a) && Leads(s, id, r.currentTerm) && r.log == s.nodes[id].log
    requires r.peers == s.nodes[id].peers && MajorityMatched(r, c)
    requires forall p :: p in r.matchIndex && r.matchIndex[p] != MAX ==> Acked(a, p, r.currentTerm, r.matchIndex[p] + 1)
    ensures Secured(s, h, a, r.log, c + 1, r.currentTerm)
  {
    assert NodeOk(s, id) && NodeTraced(s, h, id) && LeaderAck(s, a, id);
    var matched := ReallyMatched(r, c);
    forall p | p in matched ensures p in AckSet(s, a, r.currentTerm, c + 1) {}
    assert s.nodes.Keys == r.peers + {id};
    assert id !in matched;
    SubsetSize(matched + {id}, AckSet(s, a, r.currentTerm, c + 1));
    assert Within(s, h, a, r.log, c + 1, r.currentTerm, r.currentTerm, c + 1);
  }

  /** A success noted and committed. */
  lemma LeaderCommits(s: Servers, h: Reigns, a: Acks, s': Servers, id: u64, peer: u64, next: u64, count: u64, commit: u64)
    requires ElectionInv(s) && LogInv(s, h) && SafeInv(s, h, a) && CommitInv(s, h, a) && next + count < MAX
    requires id in s.nodes && s.nodes[id].role == Leader && Acked(a, peer, s.nodes[id].currentTerm, next + count)
    requires
      var r1 := Noted(s.nodes[id], peer, next, count);
      && s' == s.(nodes := s.nodes[id := Committed(r1, commit)])
      && (commit == r1.commitIndex || MajorityMatched(r1, FromWord(commit)))
    ensures CommitInv(s', h, a) && NothingLost(s, s')
  {
    var r := s.nodes[id];
    var r1 := Noted(r, peer, next, count);
    forall t ensures ReignGrows(h, h, t) {}
    forall p, t, k: nat ensures AckGrows(a, a, p, t, k) {}
    forall p ensures MatchOk(s', a, id, p) { assert MatchOk(s, a, id, p); }
    forall p | p in r1.matchIndex && r1.matchIndex[p] != MAX ensures Acked(a, p, r.currentTerm, r1.matchIndex[p] + 1) {
      assert MatchOk(s', a, id, p);
    }
    assert CommitOk(s, h, a, id);
    if commit != r.commitIndex { MatchedIsChosen(s, h, a, id, r1, FromWord(commit)); }
    SecuredStays(s, h, a, s', h, a, r.log, r.log, FromWord(commit) + 1, r.currentTerm, r.currentTerm);
    OneCommits(s, h, a, s', h, a, id);
  }

  /** A success of the peer stands for what the peer has held. */
  ghost predicate Honest(a: Acks, peer: u64, myTerm: u64, next: u64, count: u64, reply: Reply) {
    reply.ok ==> reply.term == myTerm && next + count < MAX && Acked(a, peer, myTerm, next + count)
  }

  /** Any other reply handled as meant leaves commit index, log and notes alone. */
  lemma ReplyQuiet(r: Fields, peer: u64, myTerm: u64, next: u64, count: u64, reply: Reply)
    requires FitsWords(r) && r.id !in r.peers && Count(r) <= |r.log| && KeepsTerm(r, myTerm, reply)
    requires reply.ok ==> next + count < MAX && ReplyAgrees(r, {}, peer, myTerm, next, count, reply)
    requires !(r.role == Leader && reply.ok && reply.term == myTerm == r.currentTerm)
    ensures
      var r' := AfterAppendReply(r, peer, myTerm, next, count, reply);
      && r'.commitIndex == r.commitIndex && r'.log == r.log && r'.currentTerm >= r.currentTerm
      && (r'.role == Leader ==> r.role == Leader && r'.currentTerm == r.currentTerm && r'.matchIndex == r.matchIndex)
  {
    if r.role == Leader && reply.ok && reply.term == myTerm {
      ReplyAgreement(r, {}, peer, myTerm, next, count, reply);
      assert r.matchIndex[peer := r.matchIndex[peer]] == r.matchIndex;
      assert r.nextIndex[peer := r.nextIndex[peer]] == r.nextIndex;
    }
  }

  lemma ReplyCommits(s: Servers, h: Reigns, a: Acks, id: u64, peer: u64, myTerm: u64, next: u64, count: u64, reply: Reply)
    requires ElectionInv(s) && LogInv(s, h) && SafeInv(s, h, a) && CommitInv(s, h, a)
    requires CanDo(s, TakeAppendReply(id, peer, myTerm, next, count, reply)) && Sound(s, TakeAppendReply(id, peer, myTerm, next, count, reply))
    requires CommitsCarefully(s, TakeAppendReply(id, peer, myTerm, next, count, reply)) && Honest(a, peer, myTerm, next, count, reply)
    ensures
      var s' := Do(s, TakeAppendReply(id, peer, myTerm, next, count, reply));
      CommitInv(s', h, a) && NothingLost(s, s')
  {
    var s' := Do(s, TakeAppendReply(id, peer, myTerm, next, count, reply));
    var r := s.nodes[id];
    assert NodeOk(s, id) && CommitOk(s, h, a, id);
    if r.role == Leader && reply.ok && myTerm == r.currentTerm {
      CommitMeans(r, peer, next, count);
      LeaderCommits(s, h, a, s', id, peer, next, count, s'.nodes[id].commitIndex);
    } else {
      ReplyQuiet(r, peer, myTerm, next, count, reply);
      forall t ensures ReignGrows(h, h, t) {}
      forall p, t, k: nat ensures AckGrows(a, a, p, t, k) {}
      OneQuiet(s, h, a, s', h, a, id);
    }
  }

  // ---------------------------------------------------------------- every step

  lemma AcksKept(s: Servers, h: Reigns, a: Acks, step: ElectionStep)
    requires ElectionInv(s) && LogInv(s, h) && SafeInv(s, h, a) && CanDo(s, step) && Sound(s, step)
    ensures AcksGrow(a, NextAcks(s, a, step))
  {
    var a' := NextAcks(s, a, step);
    if Wins(s, step) {
      var q := s.contests[step.contest].candidate;
      HearStep(s, step.contest, step.peer);
      HearWins(s, step.contest, step.peer);
      NewTermLater(s, h, q, Do(s, step), step.contest);
      assert AckOk(s, h, a, q, s.nodes[q].currentTerm);
    }
    if step.Submit? { assert NodeTraced(s, h, step.id) && AckOk(s, h, a, step.id, s.nodes[step.id].currentTerm); }
    forall q, t, k: nat ensures AckGrows(a, a', q, t, k) {}
  }

  /** What the traffic of a step goes back to: appends of leaders, replies of followers. */
  ghost predicate Sourced(s: Servers, h: Reigns, a: Acks, step: ElectionStep) {
    match step
    case TakeAppend(id, req) => req.term in h && h[req.term].leader != id && SliceOf(req, h[req.term].log) && CommitKnown(s, h, a, req)
    case TakeAppendReply(id, peer, myTerm, next, count, reply) => Honest(a, peer, myTerm, next, count, reply)
    case _ => true
  }

  /** The node a step changes. */
  function Actor(s: Servers, step: ElectionStep): u64
    requires CanDo(s, step)
  {
    match step
    case Ask(k, peer, vote) => peer
    case Hear(k, peer) => s.contests[k].candidate
    case _ => step.id
  }

  lemma ActorQuiet(s: Servers, step: ElectionStep)
    requires ElectionInv(s) && CanDo(s, step) && Sound(s, step) && CommitsCarefully(s, step) && !step.TakeAppendReply?
    requires step.TakeAppend? ==> !Taken(s.nodes[step.id], step.req)
    ensures CommitQuiet(s, Do(s, step), Actor(s, step))
  {
    assert NodeOk(s, Actor(s, step));
    match step
    case Ask(k, peer, vote) =>
      assert ContestOk(s, k);
      AnswerEffect(s.nodes[peer], vote);
    case Hear(k, peer) => assert ContestOk(s, k);
    case TakeAppend(id, req) => TakenShape(s.nodes[id], req);
    case _ =>
  }

  lemma StepCommits(s: Servers, h: Reigns, a: Acks, step: ElectionStep)
    requires ElectionInv(s) && LogInv(s, h) && SafeInv(s, h, a) && CommitInv(s, h, a)
    requires CanDo(s, step) && Sound(s, step) && CommitsCarefully(s, step) && Sourced(s, h, a, step)
    requires Grows(h, NextReigns(s, h, step)) && AcksGrow(a, NextAcks(s, a, step))
    ensures CommitInv(Do(s, step), NextReigns(s, h, step), NextAcks(s, a, step))
    ensures NothingLost(s, Do(s, step))
  {
    var s', h', a' := Do(s, step), NextReigns(s, h, step), NextAcks(s, a, step);
    if step.TakeAppendReply? {
      ReplyCommits(s, h, a, step.id, step.peer, step.myTerm, step.next, step.count, step.reply);
    } else if step.TakeAppend? && Taken(s.nodes[step.id], step.req) {
      TakenCommit(s.nodes[step.id], step.req);
      TakeCommits(s, h, a, step.id, step.req, s', a');
    } else {
      ActorQuiet(s, step);
      OneQuiet(s, h, a, s', h', a', Actor(s, step));
    }
  }

  // ---------------------------------------------------------------- careful runs

  ghost predicate CarefulAt(run: seq<Servers>, steps: seq<ElectionStep>, i: nat) {
    i < |steps| && i < |run| ==> CanDo(run[i], steps[i]) && Careful(run[i], steps[i]) && CommitsCarefully(run[i], steps[i])
  }

  /** The message is what a leader builds, its commit index read at the same moment. */
  ghost predicate BuiltAt(run: seq<Servers>, steps: seq<ElectionStep>, i: nat, j: nat) {
    && i < |steps| && steps[i].TakeAppend? && j <= i && j < |run| && Builds(run[j], steps[i].id, steps[i].req)
    && run[j].nodes[steps[i].req.leader].commitIndex == steps[i].req.leaderCommit
  }

  /** The reply is the one a follower gave to the request. */
  ghost predicate RepliedAt(run: seq<Servers>, steps: seq<ElectionStep>, i: nat, j: nat) {
    && i < |steps| && steps[i].TakeAppendReply? && j < i && j < |run| && steps[j].TakeAppend? && CanDo(run[j], steps[j])
    && steps[j].id == steps[i].peer && steps[j].req.term == steps[i].myTerm
    && Begin(steps[j].req) == steps[i].next && |steps[j].req.entries| == steps[i].count
    && AfterAppendEntries(run[j].nodes[steps[j].id], steps[j].req).1 == steps[i].reply
  }

  /** Appends and successes come from somewhere in the run, late, repeatedly or not at all. */
  ghost predicate GenuineAt(run: seq<Servers>, steps: seq<ElectionStep>, i: nat) {
    i < |steps| ==>
      && (steps[i].TakeAppend? ==> exists j :: BuiltAt(run, steps, i, j))
      && (steps[i].TakeAppendReply? && steps[i].reply.ok ==> exists j :: RepliedAt(run, steps, i, j))
  }

  ghost predicate CarefulRun(run: seq<Servers>, steps: seq<ElectionStep>) {
    && ElectionRun(run, steps)
    && forall k :: SoundAt(run, steps, k) && CarefulAt(run, steps, k) && GenuineAt(run, steps, k)
  }

  lemma GenuineIsSent(run: seq<Servers>, steps: seq<ElectionStep>)
    requires CarefulRun(run, steps)
    ensures forall k :: SoundAt(run, steps, k) && SentAt(run, steps, k)
  {
    forall k: nat ensures SoundAt(run, steps, k) && SentAt(run, steps, k) {
      assert GenuineAt(run, steps, k);
      if k < |steps| && steps[k].TakeAppend? { var j: nat :| BuiltAt(run, steps, k, j); }
    }
  }

  ghost predicate HistoryAt(run: seq<Servers>, hs: seq<Reigns>, acks: seq<Acks>, i: nat) {
    i < |run| && i < |hs| && i < |acks| ==>
      ElectionInv(run[i]) && LogInv(run[i], hs[i]) && SafeInv(run[i], hs[i], acks[i]) && CommitInv(run[i], hs[i], acks[i])
  }

  ghost predicate AcksGrowBetween(acks: seq<Acks>, i: nat, j: nat) {
    i <= j < |acks| ==> AcksGrow(acks[i], acks[j])
  }

  ghost predicate AcksNextAt(run: seq<Servers>, steps: seq<ElectionStep>, acks: seq<Acks>, i: nat) {
    i + 1 < |acks| && i < |steps| && i < |run| ==> CanDo(run[i], steps[i]) && acks[i + 1] == NextAcks(run[i], acks[i], steps[i])
  }

  ghost predicate NothingLostAt(run: seq<Servers>, acks: seq<Acks>, i: nat) {
    i + 1 < |acks| && i + 1 < |run| ==> NothingLost(run[i], run[i + 1])
  }

  /** Reigns and acknowledgements that belong to a run. */
  ghost predicate Histories(run: seq<Servers>, steps: seq<ElectionStep>, hs: seq<Reigns>, acks: seq<Acks>) {
    && 0 < |acks| <= |hs| <= |run| && (forall i :: ReignAt(run, hs, i)) && (forall i, j :: GrowsBetween(hs, i, j))
    && (forall i :: HistoryAt(run, hs, acks, i)) && (forall i, j :: AcksGrowBetween(acks, i, j))
    && (forall i :: AcksNextAt(run, steps, acks, i)) && forall i :: NothingLostAt(run, acks, i)
  }

  /** A leader's commit index is as secured at the follower as it was when it was sent. */
  lemma BuiltIsKnown(run: seq<Servers>, steps: seq<ElectionStep>, hs: seq<Reigns>, acks: seq<Acks>, i: nat, j: nat)
    requires CarefulRun(run, steps) && Histories(run, steps, hs, acks) && i < |acks| && BuiltAt(run, steps, i, j)
    ensures CommitKnown(run[i], hs[i], acks[i], steps[i].req)
  {
    var req := steps[i].req;
    var l := run[j].nodes[req.leader];
    assert HistoryAt(run, hs, acks, j) && GrowsBetween(hs, j, i) && AcksGrowBetween(acks, j, i);
    assert CommitOk(run[j], hs[j], acks[j], req.leader) && NodeTraced(run[j], hs[j], req.leader);
    assert ReignGrows(hs[j], hs[i], req.term);
    SoundRun(run, steps, j, i);
    SecuredStays(run[j], hs[j], acks[j], run[i], hs[i], acks[i], l.log, hs[i][req.term].log, Count(l), req.term, req.term);
  }

  lemma RepliedIsHonest(run: seq<Servers>, steps: seq<ElectionStep>, hs: seq<Reigns>, acks: seq<Acks>, i: nat, j: nat)
    requires Histories(run, steps, hs, acks) && i < |acks| && RepliedAt(run, steps, i, j) && steps[i].reply.ok
    ensures Honest(acks[i], steps[i].peer, steps[i].myTerm, steps[i].next, steps[i].count, steps[i].reply)
  {
    var req := steps[j].req;
    assert AcksNextAt(run, steps, acks, j) && AcksGrowBetween(acks, j + 1, i);
    assert HistoryAt(run, hs, acks, j) && NodeOk(run[j], steps[j].id);
    assert AckGrows(acks[j + 1], acks[i], steps[i].peer, req.term, Reach(req));
    RepliedMeansTaken(run[j].nodes[steps[j].id], req);
  }

  lemma RepliedMeansTaken(r: Fields, req: Append)
    requires FitsWords(r) && AppendFits(r, req) && r.currentTerm < MAX && AfterAppendEntries(r, req).1.ok
    ensures Taken(r, req) && AfterAppendEntries(r, req).1.term == req.term && Reach(req) < MAX
  {
  }

  lemma SourcedAt(run: seq<Servers>, steps: seq<ElectionStep>, hs: seq<Reigns>, acks: seq<Acks>, i: nat)
    requires CarefulRun(run, steps) && Histories(run, steps, hs, acks) && i < |steps| && i < |acks|
    ensures Sourced(run[i], hs[i], acks[i], steps[i])
  {
    assert GenuineAt(run, steps, i);
    match steps[i]
    case TakeAppend(id, req) =>
      GenuineIsSent(run, steps);
      SentIsSlice(run, steps, hs, i);
      var j: nat :| BuiltAt(run, steps, i, j);
      BuiltIsKnown(run, steps, hs, acks, i, j);
    case TakeAppendReply(id, peer, myTerm, next, count, reply) =>
      if reply.ok {
        var j: nat :| RepliedAt(run, steps, i, j);
        RepliedIsHonest(run, steps, hs, acks, i, j);
      }
    case _ =>
  }

  /** One more step. */
  lemma HistoryStep(run: seq<Servers>, steps: seq<ElectionStep>, hs: seq<Reigns>, acks: seq<Acks>) returns (a': Acks)
    requires CarefulRun(run, steps) && Histories(run, steps, hs, acks) && |acks| < |hs| && forall i :: NextAt(run, steps, hs, i)
    ensures
      var i := |acks| - 1;
      && CanDo(run[i], steps[i]) && a' == NextAcks(run[i], acks[i], steps[i]) && AcksGrow(acks[i], a')
      && ElectionInv(run[i + 1]) && LogInv(run[i + 1], hs[i + 1]) && SafeInv(run[i + 1], hs[i + 1], a')
      && CommitInv(run[i + 1], hs[i + 1], a')
      && NothingLost(run[i], run[i + 1])
  {
    var i := |acks| - 1;
    assert DoneAt(run, steps, i) && SoundAt(run, steps, i) && CarefulAt(run, steps, i) && NextAt(run, steps, hs, i);
    assert HistoryAt(run, hs, acks, i) && ReignAt(run, hs, i + 1) && GrowsBetween(hs, i, i + 1);
    SourcedAt(run, steps, hs, acks, i);
    SoundStep(run[i], steps[i]);
    AcksKept(run[i], hs[i], acks[i], steps[i]);
    StepSafe(run[i], hs[i], acks[i], steps[i]);
    StepCommits(run[i], hs[i], acks[i], steps[i]);
    a' := NextAcks(run[i], acks[i], steps[i]);
  }

  lemma Extend(run: seq<Servers>, steps: seq<ElectionStep>, hs: seq<Reigns>, acks: seq<Acks>) returns (more: seq<Acks>)
    requires CarefulRun(run, steps) && Histories(run, steps, hs, acks) && |acks| < |hs| && forall i :: NextAt(run, steps, hs, i)
    ensures |more| == |acks| + 1 && Histories(run, steps, hs, more)
  {
    var n := |acks|;
    var a' := HistoryStep(run, steps, hs, acks);
    more := acks + [a'];
    forall i ensures HistoryAt(run, hs, more, i) { assert HistoryAt(run, hs, acks, i); }
    forall i ensures AcksNextAt(run, steps, more, i) { assert AcksNextAt(run, steps, acks, i); }
    forall i ensures NothingLostAt(run, more, i) { assert NothingLostAt(run, acks, i); }
    forall i: nat, j: nat ensures AcksGrowBetween(more, i, j) {
      assert AcksGrowBetween(acks, i, j) && AcksGrowBetween(acks, i, n - 1);
      if i <= n && j == n {
        forall q, t, k: nat ensures AckGrows(more[i], a', q, t, k) {
          if i < n { assert AckGrows(more[i], acks[n - 1], q, t, k) && AckGrows(acks[n - 1], a', q, t, k); }
        }
      }
    }
  }

  lemma StartHistory(run: seq<Servers>, steps: seq<ElectionStep>, hs: seq<Reigns>)
    requires CarefulRun(run, steps) && 0 < |hs| <= |run| && hs[0] == map[] && (forall i :: ReignAt(run, hs, i))
    requires forall i, j :: GrowsBetween(hs, i, j)
    ensures Histories(run, steps, hs, [map[]])
  {
    SoundRun(run, steps, 0, 0);
    assert ReignAt(run, hs, 0);
    forall q ensures CommitOk(run[0], map[], map[], q) {}
    assert SafeInv(run[0], map[], map[]) && CommitInv(run[0], map[], map[]);
  }

  /** Every careful run has its histories. */
  lemma RunHistories(run: seq<Servers>, steps: seq<ElectionStep>) returns (hs: seq<Reigns>, acks: seq<Acks>)
    requires CarefulRun(run, steps)
    ensures |hs| == |acks| == |run| && Histories(run, steps, hs, acks)
  {
    GenuineIsSent(run, steps);
    hs := RunReigns(run, steps, |steps|);
    StartHistory(run, steps, hs);
    acks := [map[]];
    while |acks| < |hs|
      invariant |acks| <= |hs| && Histories(run, steps, hs, acks)
    {
      acks := Extend(run, steps, hs, acks);
    }
  }

  // ---------------------------------------------------------------- what holds of every careful run

  /** Two secured prefixes lie on one log. */
  lemma SecuredAgree(s: Servers, h: Reigns, a: Acks, x: Log, n: nat, term: u64, y: Log, m: nat, term': u64)
    requires LogInv(s, h) && SafeInv(s, h, a) && Secured(s, h, a, x, n, term) && Secured(s, h, a, y, m, term')
    ensures x[..n] <= y[..m] || y[..m] <= x[..n]
  {
    if n > 0 && m > 0 {
      var t: u64, k: nat :| Within(s, h, a, x, n, term, t, k);
      var u: u64, l: nat :| Within(s, h, a, y, m, term', u, l);
      assert Within(s, h, a, x, n, t, t, k) && Within(s, h, a, y, m, u, u, l);
      var later := if t <= u then u else t;
      SecuredInReign(s, h, a, x, n, t, later);
      SecuredInReign(s, h, a, y, m, u, later);
    }
  }

  /** What two nodes have committed, at two moments, is the same as far as both go. */
  lemma CommittedAgree(run: seq<Servers>, steps: seq<ElectionStep>, i: nat, j: nat, p: u64, q: u64)
    requires CarefulRun(run, steps) && i <= j < |run| && p in run[i].nodes && q in run[j].nodes
    ensures
      var r, r' := run[i].nodes[p], run[j].nodes[q];
      && Count(r) <= |r.log| && Count(r') <= |r'.log|
      && (r.log[..Count(r)] <= r'.log[..Count(r')] || r'.log[..Count(r')] <= r.log[..Count(r)])
  {
    var hs, acks := RunHistories(run, steps);
    var r, r' := run[i].nodes[p], run[j].nodes[q];
    assert HistoryAt(run, hs, acks, i) && HistoryAt(run, hs, acks, j);
    assert GrowsBetween(hs, i, j) && AcksGrowBetween(acks, i, j);
    assert CommitOk(run[i], hs[i], acks[i], p) && CommitOk(run[j], hs[j], acks[j], q);
    SoundRun(run, steps, i, j);
    SecuredStays(run[i], hs[i], acks[i], run[j], hs[j], acks[j], r.log, r.log, Count(r), r.currentTerm, r.currentTerm);
    SecuredAgree(run[j], hs[j], acks[j], r.log, Count(r), r.currentTerm, r'.log, Count(r'), r'.currentTerm);
  }

  /** What a node has committed it keeps, and its commit index does not fall. */
  lemma {:induction false} CommittedStays(run: seq<Servers>, steps: seq<ElectionStep>, i: nat, j: nat, q: u64)
    requires CarefulRun(run, steps) && i <= j < |run| && q in run[i].nodes && q in run[j].nodes
    ensures
      var r, r' := run[i].nodes[q], run[j].nodes[q];
      && Count(r) <= |r.log| && Count(r) <= Count(r') <= |r'.log| && r'.log[..Count(r)] == r.log[..Count(r)]
    decreases j - i
  {
    var hs, acks := RunHistories(run, steps);
    assert HistoryAt(run, hs, acks, i) && CommitOk(run[i], hs[i], acks[i], q);
    if i < j {
      SoundRun(run, steps, i, i + 1);
      assert NothingLostAt(run, acks, i) && StaysCommitted(run[i], run[i + 1], q);
      CommittedStays(run, steps, i + 1, j, q);
      var r, r1, r' := run[i].nodes[q], run[i + 1].nodes[q], run[j].nodes[q];
      assert r'.log[..Count(r1)][..Count(r)] == r1.log[..Count(r1)][..Count(r)];
    }
  }

  /**
   * Agreement as written: in every careful run no two nodes, at any two moments, have different
   * entries committed at one index.
   */
  lemma StateMachineSafetyAsWritten(run: seq<Servers>, steps: seq<ElectionStep>, i: nat, j: nat, p: u64, q: u64, x: nat)
    requires CarefulRun(run, steps) && i < |run| && j < |run| && p in run[i].nodes && q in run[j].nodes
    requires x < Count(run[i].nodes[p]) && x < Count(run[j].nodes[q])
    ensures x < |run[i].nodes[p].log| && x < |run[j].nodes[q].log| && run[i].nodes[p].log[x] == run[j].nodes[q].log[x]
  {
    var a, b := run[i].nodes[p], run[j].nodes[q];
    if i <= j { CommittedAgree(run, steps, i, j, p, q); } else { CommittedAgree(run, steps, j, i, q, p); }
    assert a.log[..Count(a)][x] == a.log[x] && b.log[..Count(b)][x] == b.log[x];
  }

  lemma LeaderHas(s: Servers, h: Reigns, a: Acks, log: Log, n: nat, term: u64, leader: u64, u: u64, before: Servers, h0: Reigns)
    requires LogInv(s, h) && SafeInv(s, h, a) && Secured(s, h, a, log, n, term) && term < u
    requires LogInv(before, h0) && Grows(h0, h) && Leads(before, leader, u)
    ensures log[..n] <= before.nodes[leader].log
  {
    assert NodeTraced(before, h0, leader) && ReignOk(before, h0, u) && ReignGrows(h0, h, u);
    SecuredInReign(s, h, a, log, n, term, u);
  }

  /**
   * Leader completeness as written: what a node has committed in a term is in the log of whoever
   * leads a later term, be that before or after.
   */
  lemma LeaderCompletenessAsWritten(run: seq<Servers>, steps: seq<ElectionStep>, i: nat, j: nat, p: u64, leader: u64, u: u64)
    requires CarefulRun(run, steps) && i < |run| && j < |run| && p in run[i].nodes
    requires Leads(run[j], leader, u) && run[i].nodes[p].currentTerm < u
    ensures
      var r := run[i].nodes[p];
      Count(r) <= |r.log| && r.log[..Count(r)] <= run[j].nodes[leader].log
  {
    var hs, acks := RunHistories(run, steps);
    var r := run[i].nodes[p];
    var last := if i <= j then j else i;
    assert HistoryAt(run, hs, acks, i) && HistoryAt(run, hs, acks, j);
    assert GrowsBetween(hs, i, last) && GrowsBetween(hs, j, last) && AcksGrowBetween(acks, i, last);
    assert CommitOk(run[i], hs[i], acks[i], p);
    SoundRun(run, steps, i, last);
    SecuredStays(run[i], hs[i], acks[i], run[last], hs[last], acks[last], r.log, r.log, Count(r), r.currentTerm, r.currentTerm);
    LeaderHas(run[last], hs[last], acks[last], r.log, Count(r), r.currentTerm, leader, u, run[j], hs[j]);
  }
}
