/**
 * Leader completeness as written: what a leader of a term may still get chosen is in the log of
 * every leader of every later term, over the runs of RaftElection with careful steps. A history
 * records, beside the reigns, how much of each term's log every node has held.
 */
module RaftCompleteness {
  import opened Quorum
  import opened Basics
  import opened RaftNode
  import opened RaftMerge
  import opened RaftAsWritten
  import opened RaftRefinement
  import opened RaftElection
  import opened RaftLogMatching

  /** Length of the term's leader log a node has held while in that term. */
  type Acks = map<(u64, u64), nat>

  predicate Acked(a: Acks, q: u64, t: u64, k: nat) {
    (q, t) in a && k <= a[(q, t)]
  }

  /** The node takes no more entries of the term: it has gone on, or has voted in it. */
  predicate Closed(r: Fields, t: u64) {
    r.currentTerm > t || (r.currentTerm == t && r.role == Follower && r.votedFor != MAX)
  }

  /** The first `k` entries of a term's log, the last of them of that term. */
  ghost predicate Proper(h: Reigns, t: u64, k: nat) {
    t in h && 0 < k <= |h[t].log| && h[t].log[k - 1].term == t
  }

  ghost function Chunk(h: Reigns, t: u64, k: nat): Log
    requires Proper(h, t, k)
  {
    h[t].log[..k]
  }

  predicate MayHold(s: Servers, a: Acks, q: u64, t: u64, k: nat) {
    q in s.nodes && (Acked(a, q, t, k) || !Closed(s.nodes[q], t))
  }

  function HoldSet(s: Servers, a: Acks, t: u64, k: nat): set<u64> {
    set q | q in s.nodes && MayHold(s, a, q, t, k)
  }

  /** A majority may yet have held the chunk: it has been chosen or can still be. */
  ghost predicate Live(s: Servers, h: Reigns, a: Acks, t: u64, k: nat) {
    Proper(h, t, k) && Majority(HoldSet(s, a, t, k), s.nodes.Keys)
  }

  // ---------------------------------------------------------------- invariant

  ghost predicate AckOk(s: Servers, h: Reigns, a: Acks, q: u64, t: u64) {
    (q, t) in a ==> q in s.nodes && t in h && t <= s.nodes[q].currentTerm && a[(q, t)] <= |h[t].log|
  }

  ghost predicate LeaderAck(s: Servers, a: Acks, q: u64) {
    q in s.nodes && s.nodes[q].role == Leader ==> Acked(a, q, s.nodes[q].currentTerm, |s.nodes[q].log|)
  }

  ghost predicate Retained(s: Servers, h: Reigns, a: Acks, q: u64, t: u64, k: nat) {
    q in s.nodes && Live(s, h, a, t, k) && Acked(a, q, t, k) ==> Chunk(h, t, k) <= s.nodes[q].log
  }

  ghost predicate Complete(s: Servers, h: Reigns, a: Acks, u: u64, t: u64, k: nat) {
    u in h && t < u && Live(s, h, a, t, k) ==> Chunk(h, t, k) <= h[u].base
  }

  /** The candidate of the contest is still waiting for its outcome. */
  predicate Running(s: Servers, m: nat) {
    && m < |s.contests| && s.contests[m].candidate in s.nodes
    && var r := s.nodes[s.contests[m].candidate];
    r.role == Candidate && r.currentTerm == s.contests[m].term + 1
  }

  predicate UpTo(log: Log, t: u64, k: nat) {
    AtLeast(LastTerm(log), LastIndex(log), t, k - 1)
  }

  /** A candidate is at least as up to date as what its backers have held. */
  ghost predicate Informed(s: Servers, h: Reigns, a: Acks, m: nat, q: u64, t: u64, k: nat) {
    Running(s, m) && Backs(s.contests[m], q) && t <= s.contests[m].term && Live(s, h, a, t, k) && Acked(a, q, t, k) ==>
      UpTo(s.nodes[s.contests[m].candidate].log, t, k)
  }

  ghost predicate SafeInv(s: Servers, h: Reigns, a: Acks) {
    && (forall q, t :: AckOk(s, h, a, q, t))
    && (forall q :: LeaderAck(s, a, q))
    && (forall q, t, k :: Retained(s, h, a, q, t, k))
    && (forall u, t, k :: Complete(s, h, a, u, t, k))
    && (forall m, q, t, k :: Informed(s, h, a, m, q, t, k))
  }

  // ---------------------------------------------------------------- logs that hold a chunk

  lemma HoldingIsUpToDate(s: Servers, h: Reigns, log: Log, term: u64, t: u64, k: nat)
    requires LogInv(s, h) && LogTraced(h, log, term) && Proper(h, t, k) && Chunk(h, t, k) <= log
    ensures UpTo(log, t, k)
  {
    var i := |log| - 1;
    assert Traced(h, log, i);
    var w: u64 := log[i].term;
    assert ReignOk(s, h, w);
    assert log[..i + 1] == log;
    assert log[k - 1] == Chunk(h, t, k)[k - 1];
    assert h[w].log[k - 1].term == t;
  }

  lemma ClaimMeansHolding(s: Servers, h: Reigns, a: Acks, log: Log, term: u64, t: u64, k: nat)
    requires LogInv(s, h) && LogTraced(h, log, term) && Live(s, h, a, t, k) && UpTo(log, t, k)
    requires forall u :: Complete(s, h, a, u, t, k)
    ensures Chunk(h, t, k) <= log
  {
    var i := |log| - 1;
    assert Traced(h, log, i);
    var w: u64 := log[i].term;
    assert log[..i + 1] == log;
    assert ReignOk(s, h, w) && Complete(s, h, a, w, t, k);
    if w > t {
      assert |h[w].base| >= k && i >= |h[w].base|;
      assert h[w].base <= h[w].log;
    }
  }

  /** Whoever backs a contest takes no more entries of the term asked for, or of earlier ones. */
  lemma BackerIsClosed(s: Servers, m: nat, q: u64, t: u64)
    requires ElectionInv(s) && m < |s.contests| && q in s.nodes && Backs(s.contests[m], q) && t <= s.contests[m].term
    ensures Closed(s.nodes[q], t)
  {
    assert BackOk(s, q, m) && ContestOk(s, m) && NodeOk(s, q);
    assert NodeOk(s, s.contests[m].candidate);
  }

  // ---------------------------------------------------------------- what may be chosen only shrinks

  /** Nodes only close, and what is newly held was still open. */
  ghost predicate Shrinks(s: Servers, a: Acks, s': Servers, a': Acks) {
    && s'.nodes.Keys == s.nodes.Keys
    && (forall q, t :: StaysClosed(s, s', q, t))
    && (forall q, t, k :: HeldInTime(s, a, a', q, t, k))
  }

  ghost predicate StaysClosed(s: Servers, s': Servers, q: u64, t: u64) {
    q in s.nodes && q in s'.nodes && Closed(s.nodes[q], t) ==> Closed(s'.nodes[q], t)
  }

  ghost predicate HeldInTime(s: Servers, a: Acks, a': Acks, q: u64, t: u64, k: nat) {
    q in s.nodes && Acked(a', q, t, k) ==> Acked(a, q, t, k) || !Closed(s.nodes[q], t)
  }

  lemma LiveBefore(s: Servers, h: Reigns, a: Acks, s': Servers, h': Reigns, a': Acks, t: u64, k: nat)
    requires Shrinks(s, a, s', a') && Grows(h, h') && Live(s', h', a', t, k) && Proper(h, t, k)
    ensures Live(s, h, a, t, k) && Chunk(h', t, k) == Chunk(h, t, k)
  {
    forall q | q in HoldSet(s', a', t, k) ensures q in HoldSet(s, a, t, k) {
      assert StaysClosed(s, s', q, t) && HeldInTime(s, a, a', q, t, k);
    }
    MajorityGrows(HoldSet(s', a', t, k), HoldSet(s, a, t, k), s.nodes.Keys);
    assert ReignGrows(h, h', t);
  }

  lemma OneNodeCloses(s: Servers, s': Servers, id: u64)
    requires id in s.nodes && id in s'.nodes && s'.nodes == s.nodes[id := s'.nodes[id]]
    requires forall t :: StaysClosed(s, s', id, t)
    ensures forall q, t :: StaysClosed(s, s', q, t)
  {
  }

  lemma MovesCloses(s: Servers, s': Servers, id: u64)
    requires id in s.nodes && id in s'.nodes && s'.nodes == s.nodes[id := s'.nodes[id]] && Moves(s.nodes[id], s'.nodes[id])
    ensures forall q, t :: StaysClosed(s, s', q, t)
  {
    forall t ensures StaysClosed(s, s', id, t) {}
    OneNodeCloses(s, s', id);
  }

  lemma SameAcks(s: Servers, a: Acks)
    ensures forall q, t, k :: HeldInTime(s, a, a, q, t, k)
  {
  }

  // ---------------------------------------------------------------- steps that change no log

  /** Nothing is held that was not, no log changes, and running contests are as they were. */
  ghost predicate QuietFor(s: Servers, s': Servers, m: nat, q: u64) {
    Running(s', m) && Backs(s'.contests[m], q) ==>
      && Running(s, m) && Backs(s.contests[m], q) && s'.contests[m].term == s.contests[m].term
      && s'.contests[m].candidate == s.contests[m].candidate
  }

  lemma QuietLogs(s: Servers, h: Reigns, a: Acks, s': Servers)
    requires SafeInv(s, h, a) && Shrinks(s, a, s', a) && Quietly(s, s')
    ensures Grows(h, h) && (forall q, t :: AckOk(s', h, a, q, t)) && (forall q :: LeaderAck(s', a, q))
    ensures (forall q, t, k :: Retained(s', h, a, q, t, k)) && (forall u, t, k :: Complete(s', h, a, u, t, k))
  {
    forall t ensures ReignGrows(h, h, t) {}
    forall q, t ensures AckOk(s', h, a, q, t) { assert AckOk(s, h, a, q, t) && NodeQuiet(s, s', q); }
    forall q ensures LeaderAck(s', a, q) { assert LeaderAck(s, a, q) && NodeQuiet(s, s', q); }
    forall q, t, k: nat ensures Retained(s', h, a, q, t, k) {
      assert Retained(s, h, a, q, t, k) && NodeQuiet(s, s', q);
      if Live(s', h, a, t, k) { LiveBefore(s, h, a, s', h, a, t, k); }
    }
    forall u, t, k: nat ensures Complete(s', h, a, u, t, k) {
      assert Complete(s, h, a, u, t, k);
      if Live(s', h, a, t, k) { LiveBefore(s, h, a, s', h, a, t, k); }
    }
  }

  lemma QuietSafe(s: Servers, h: Reigns, a: Acks, s': Servers)
    requires SafeInv(s, h, a) && Shrinks(s, a, s', a) && Quietly(s, s') && forall m, q :: QuietFor(s, s', m, q)
    ensures SafeInv(s', h, a)
  {
    QuietLogs(s, h, a, s');
    forall m: nat, q, t, k: nat ensures Informed(s', h, a, m, q, t, k) {
      assert Informed(s, h, a, m, q, t, k) && QuietFor(s, s', m, q);
      if m < |s'.contests| { assert NodeQuiet(s, s', s'.contests[m].candidate); }
      if Live(s', h, a, t, k) { LiveBefore(s, h, a, s', h, a, t, k); }
    }
  }

  /** One node moves, its log and the contests staying as they are. */
  lemma MoveSafe(s: Servers, h: Reigns, a: Acks, s': Servers, id: u64)
    requires ElectionInv(s) && SafeInv(s, h, a) && Later(s, s') && |s'.contests| == |s.contests|
    requires id in s.nodes && id in s'.nodes && s'.nodes == s.nodes[id := s'.nodes[id]]
    requires Moves(s.nodes[id], s'.nodes[id]) && s'.nodes[id].log == s.nodes[id].log
    requires forall m :: 0 <= m < |s.contests| ==> s'.contests[m].answers == s.contests[m].answers
    ensures SafeInv(s', h, a)
  {
    assert NodeQuiet(s, s', id);
    OneNodeQuiet(s, s', id);
    MovesCloses(s, s', id);
    SameAcks(s, a);
    forall m: nat, q ensures QuietFor(s, s', m, q) {
      if m < |s.contests| { assert ContestGrows(s, s', m) && ContestOk(s, m); }
    }
    QuietSafe(s, h, a, s');
  }

  // ---------------------------------------------------------------- standing

  lemma TimeOutSafe(s: Servers, h: Reigns, a: Acks, id: u64)
    requires ElectionInv(s) && LogInv(s, h) && SafeInv(s, h, a) && CanDo(s, TimeOut(id)) && Sound(s, TimeOut(id))
    ensures SafeInv(Do(s, TimeOut(id)), h, a)
  {
    var s' := Do(s, TimeOut(id));
    var n := |s.contests|;
    TimeOutStep(s, id);
    assert NodeOk(s, id) && NodeTraced(s, h, id);
    forall t ensures ReignGrows(h, h, t) {}
    forall t ensures StaysClosed(s, s', id, t) {}
    OneNodeCloses(s, s', id);
    SameAcks(s, a);
    forall q, t ensures AckOk(s', h, a, q, t) { assert AckOk(s, h, a, q, t); }
    forall q ensures LeaderAck(s', a, q) { assert LeaderAck(s, a, q); }
    forall q, t, k: nat ensures Retained(s', h, a, q, t, k) {
      assert Retained(s, h, a, q, t, k);
      if Live(s', h, a, t, k) { LiveBefore(s, h, a, s', h, a, t, k); }
    }
    forall u, t, k: nat ensures Complete(s', h, a, u, t, k) {
      assert Complete(s, h, a, u, t, k);
      if Live(s', h, a, t, k) { LiveBefore(s, h, a, s', h, a, t, k); }
    }
    forall m: nat, q, t, k: nat ensures Informed(s', h, a, m, q, t, k) {
      assert Informed(s, h, a, m, q, t, k) && Retained(s, h, a, q, t, k);
      if m < n { assert ContestOk(s, m); }
      if Live(s', h, a, t, k) {
        LiveBefore(s, h, a, s', h, a, t, k);
        if m == n && q == id && Acked(a, id, t, k) { HoldingIsUpToDate(s, h, s.nodes[id].log, s.nodes[id].currentTerm, t, k); }
      }
    }
  }

  // ---------------------------------------------------------------- when a step is careful

  /** The request carries where the candidate's log ends. */
  predicate Truthful(s: Servers, k: nat, vote: Vote) {
    Running(s, k) ==>
      var log := s.nodes[s.contests[k].candidate].log;
      FromWord(vote.lastLogIndex) == LastIndex(log) && FromWord(vote.lastLogTerm) == LastTerm(log)
  }

  /** A vote in the term asked for goes to an up to date candidate only. */
  predicate VotesUpToDate(r: Fields, vote: Vote)
    requires FitsWords(r)
  {
    AfterRequestVote(r, vote).1 == Reply(vote.term, true) ==> UpToDate(r, vote)
  }

  /** A follower that has voted in its term takes no more entries of the leader of that term. */
  predicate LeavesTerm(r: Fields, req: Append) {
    Taken(r, req) ==> !Closed(r, req.term)
  }

  predicate Careful(s: Servers, step: ElectionStep)
    requires CanDo(s, step)
  {
    match step
    case Ask(k, peer, vote) => Truthful(s, k, vote) && VotesUpToDate(s.nodes[peer], vote)
    case TakeAppend(id, req) => LeavesTerm(s.nodes[id], req)
    case _ => true
  }

  // ---------------------------------------------------------------- voting

  lemma AskInformed(s: Servers, h: Reigns, a: Acks, n: nat, peer: u64, vote: Vote, t: u64, k: nat)
    requires ElectionInv(s) && LogInv(s, h) && SafeInv(s, h, a) && CanDo(s, Ask(n, peer, vote)) && Running(s, n)
    requires Careful(s, Ask(n, peer, vote)) && AfterRequestVote(s.nodes[peer], vote).1 == Reply(vote.term, true)
    requires Live(s, h, a, t, k) && Acked(a, peer, t, k)
    ensures UpTo(s.nodes[s.contests[n].candidate].log, t, k)
  {
    assert Retained(s, h, a, peer, t, k) && NodeTraced(s, h, peer);
    HoldingIsUpToDate(s, h, s.nodes[peer].log, s.nodes[peer].currentTerm, t, k);
  }

  lemma AskCloses(s: Servers, n: nat, peer: u64, vote: Vote)
    requires ElectionInv(s) && CanDo(s, Ask(n, peer, vote)) && Sound(s, Ask(n, peer, vote))
    ensures
      var s' := Do(s, Ask(n, peer, vote));
      && Later(s, s') && Quietly(s, s') && (forall q, t :: StaysClosed(s, s', q, t))
  {
    var s' := Do(s, Ask(n, peer, vote));
    AskStep(s, n, peer, vote);
    assert NodeOk(s, peer) && ContestOk(s, n);
    assert NodeOk(s, vote.candidate);
    AnswerEffect(s.nodes[peer], vote);
    OneNodeQuiet(s, s', peer);
    forall t ensures StaysClosed(s, s', peer, t) {}
    OneNodeCloses(s, s', peer);
  }

  lemma AskSafe(s: Servers, h: Reigns, a: Acks, n: nat, peer: u64, vote: Vote)
    requires ElectionInv(s) && LogInv(s, h) && SafeInv(s, h, a) && CanDo(s, Ask(n, peer, vote))
    requires Sound(s, Ask(n, peer, vote)) && Careful(s, Ask(n, peer, vote))
    ensures SafeInv(Do(s, Ask(n, peer, vote)), h, a)
  {
    var s' := Do(s, Ask(n, peer, vote));
    AskCloses(s, n, peer, vote);
    SameAcks(s, a);
    assert NodeOk(s, peer) && ContestOk(s, n);
    QuietLogs(s, h, a, s');
    forall m: nat, q, t, k: nat ensures Informed(s', h, a, m, q, t, k) {
      assert Informed(s, h, a, m, q, t, k);
      if Running(s', m) && Live(s', h, a, t, k) {
        LiveBefore(s, h, a, s', h, a, t, k);
        assert ContestGrows(s, s', m) && NodeQuiet(s, s', s'.contests[m].candidate);
        assert ContestOk(s, m) && NodeOk(s, s.contests[m].candidate);
        if m == n && q == peer && Acked(a, q, t, k) && Backs(s'.contests[n], peer) {
          AskInformed(s, h, a, n, peer, vote, t, k);
        }
      }
    }
  }

  // ---------------------------------------------------------------- what a node holds after a step

  function Reach(req: Append): nat {
    Begin(req) + |req.entries|
  }

  /** A new leader holds what it has, a leader what it takes, a follower what it is sent. */
  function NextAcks(s: Servers, a: Acks, step: ElectionStep): Acks
    requires CanDo(s, step)
  {
    match step
    case Hear(k, peer) =>
      var q := s.contests[k].candidate;
      if Wins(s, step) then a[(q, s.nodes[q].currentTerm) := |s.nodes[q].log|] else a
    case Submit(id, command) =>
      var r := s.nodes[id];
      if r.role == Leader then a[(id, r.currentTerm) := |r.log| + 1] else a
    case TakeAppend(id, req) =>
      if Taken(s.nodes[id], req) && !Acked(a, id, req.term, Reach(req)) then a[(id, req.term) := Reach(req)] else a
    case _ => a
  }

  // ---------------------------------------------------------------- winning

  /** A majority backs the winner, so it meets every majority that may have held an earlier chunk. */
  lemma WinnerHolds(s: Servers, h: Reigns, a: Acks, n: nat, t: u64, k: nat)
    requires ElectionInv(s) && LogInv(s, h) && SafeInv(s, h, a) && Running(s, n)
    requires Majority(Backers(s.contests[n]), s.nodes.Keys) && t <= s.contests[n].term && Live(s, h, a, t, k)
    ensures Chunk(h, t, k) <= s.nodes[s.contests[n].candidate].log
  {
    var q := s.contests[n].candidate;
    var p := MajoritiesMeet(Backers(s.contests[n]), HoldSet(s, a, t, k), s.nodes.Keys);
    BackerIsClosed(s, n, p, t);
    assert Informed(s, h, a, n, p, t, k) && NodeTraced(s, h, q);
    forall u ensures Complete(s, h, a, u, t, k) {}
    ClaimMeansHolding(s, h, a, s.nodes[q].log, s.nodes[q].currentTerm, t, k);
  }

  lemma WinSafe(s: Servers, h: Reigns, a: Acks, n: nat, s': Servers, h': Reigns, a': Acks)
    requires ElectionInv(s) && LogInv(s, h) && SafeInv(s, h, a) && Running(s, n)
    requires Majority(Backers(s.contests[n]), s.nodes.Keys) && |s'.contests| == |s.contests|
    requires forall m :: 0 <= m < |s.contests| ==> s'.contests[m].answers == s.contests[m].answers
    requires forall m :: 0 <= m < |s.contests| ==> s'.contests[m].candidate == s.contests[m].candidate
    requires forall m :: 0 <= m < |s.contests| ==> s'.contests[m].term == s.contests[m].term
    requires
      var q := s.contests[n].candidate;
      var r := s.nodes[q];
      && s'.nodes == s.nodes[q := r.(role := Leader)] && r.currentTerm !in h
      && h' == h[r.currentTerm := Reign(q, r.log, r.log)] && a' == a[(q, r.currentTerm) := |r.log|]
    ensures SafeInv(s', h', a')
  {
    var q := s.contests[n].candidate;
    var r := s.nodes[q];
    EarlierTerms(s, h, q);
    forall t ensures ReignGrows(h, h', t) {}
    forall p, t ensures AckOk(s', h', a', p, t) { assert AckOk(s, h, a, p, t); }
    forall p ensures LeaderAck(s', a', p) { assert LeaderAck(s, a, p); }
    forall t ensures StaysClosed(s, s', q, t) {}
    OneNodeCloses(s, s', q);
    forall p, t, k: nat ensures HeldInTime(s, a, a', p, t, k) { assert AckOk(s, h, a, p, t); }
    forall p, t, k: nat ensures Retained(s', h', a', p, t, k) {
      assert Retained(s, h, a, p, t, k);
      if Live(s', h', a', t, k) { LiveBefore(s, h, a, s', h', a', t, k); }
    }
    forall u, t, k: nat ensures Complete(s', h', a', u, t, k) {
      assert Complete(s, h, a, u, t, k);
      if t < u && Live(s', h', a', t, k) {
        LiveBefore(s, h, a, s', h', a', t, k);
        if u == r.currentTerm { WinnerHolds(s, h, a, n, t, k); }
      }
    }
    forall m: nat, p, t, k: nat ensures Informed(s', h', a', m, p, t, k) {
      assert Informed(s, h, a, m, p, t, k);
      if Live(s', h', a', t, k) { LiveBefore(s, h, a, s', h', a', t, k); }
    }
  }

  lemma HearWonSafe(s: Servers, h: Reigns, a: Acks, n: nat, peer: u64)
    requires ElectionInv(s) && LogInv(s, h) && SafeInv(s, h, a) && CanDo(s, Hear(n, peer)) && Sound(s, Hear(n, peer))
    requires Wins(s, Hear(n, peer))
    ensures SafeInv(Do(s, Hear(n, peer)), NextReigns(s, h, Hear(n, peer)), NextAcks(s, a, Hear(n, peer)))
  {
    var s' := Do(s, Hear(n, peer));
    var q := s.contests[n].candidate;
    HearStep(s, n, peer);
    HearWins(s, n, peer);
    NewTermLater(s, h, q, s', n);
    assert Backers(s'.contests[n]) == Backers(s.contests[n]);
    WinSafe(s, h, a, n, s', NextReigns(s, h, Hear(n, peer)), NextAcks(s, a, Hear(n, peer)));
  }

  lemma HearSafe(s: Servers, h: Reigns, a: Acks, n: nat, peer: u64)
    requires ElectionInv(s) && LogInv(s, h) && SafeInv(s, h, a) && CanDo(s, Hear(n, peer)) && Sound(s, Hear(n, peer))
    ensures SafeInv(Do(s, Hear(n, peer)), NextReigns(s, h, Hear(n, peer)), NextAcks(s, a, Hear(n, peer)))
  {
    var s' := Do(s, Hear(n, peer));
    var q := s.contests[n].candidate;
    if Wins(s, Hear(n, peer)) {
      HearWonSafe(s, h, a, n, peer);
    } else {
      HearStep(s, n, peer);
      assert ContestOk(s, n) && NodeOk(s, q);
      MoveSafe(s, h, a, s', q);
    }
  }

  // ---------------------------------------------------------------- taking a command

  /** Once a later term has been won, nothing a leader adds can be held by a majority. */
  lemma TooLate(s: Servers, h: Reigns, a: Acks, leader: u64, t: u64, k: nat, n: nat)
    requires ElectionInv(s) && n < |s.contests| && t <= s.contests[n].term && Leads(s, leader, t)
    requires Majority(Backers(s.contests[n]), s.nodes.Keys)
    requires forall q :: Acked(a, q, t, k) ==> q == leader
    ensures !Live(s, h, a, t, k)
  {
    if Live(s, h, a, t, k) {
      var p := MajoritiesMeet(Backers(s.contests[n]), HoldSet(s, a, t, k), s.nodes.Keys);
      BackerIsClosed(s, n, p, t);
    }
  }

  /** Command taken by the leader `id`: what was held before is held, what is new is its own entry. */
  ghost predicate Extended(s: Servers, h: Reigns, a: Acks, id: u64, s': Servers, h': Reigns, a': Acks) {
    && Shrinks(s, a, s', a') && Grows(h, h') && s'.contests == s.contests && h'.Keys == h.Keys
    && (forall q :: q in s.nodes ==> s'.nodes[q] == s.nodes[q].(log := s'.nodes[q].log) && s.nodes[q].log <= s'.nodes[q].log)
    && (forall q :: q in s.nodes && s.nodes[q].role == Candidate ==> s'.nodes[q].log == s.nodes[q].log)
    && (forall q, t :: AckOk(s', h', a', q, t))
    && (forall t, k :: NewChunk(h, s', h', a', id, t, k))
    && (forall q, t, k :: Acked(a', q, t, k) && Proper(h, t, k) ==> Acked(a, q, t, k))
    && (forall q :: LeaderAck(s', a', q))
  }

  lemma SubmitExtends(s: Servers, h: Reigns, a: Acks, id: u64, command: Command)
    requires ElectionInv(s) && LogInv(s, h) && SafeInv(s, h, a) && CanDo(s, Submit(id, command))
    requires s.nodes[id].role == Leader
    ensures
      var s', h', a' := Do(s, Submit(id, command)), NextReigns(s, h, Submit(id, command)), NextAcks(s, a, Submit(id, command));
      Extended(s, h, a, id, s', h', a')
  {
    var s', h', a' := Do(s, Submit(id, command)), NextReigns(s, h, Submit(id, command)), NextAcks(s, a, Submit(id, command));
    var r := s.nodes[id];
    assert NodeTraced(s, h, id) && LeaderAck(s, a, id);
    forall t ensures ReignGrows(h, h', t) {}
    forall p, t ensures AckOk(s', h', a', p, t) { assert AckOk(s, h, a, p, t); }
    forall p ensures LeaderAck(s', a', p) { assert LeaderAck(s, a, p); }
    forall t ensures StaysClosed(s, s', id, t) {}
    OneNodeCloses(s, s', id);
    forall p, t, k: nat ensures HeldInTime(s, a, a', p, t, k) {}
    forall t, k: nat ensures NewChunk(h, s', h', a', id, t, k) {
      forall q ensures Acked(a', q, r.currentTerm, k) && k > |r.log| ==> q == id { assert AckOk(s, h, a, q, r.currentTerm); }
    }
  }

  /** What was no chunk before is the leader's new entry, held by it alone. */
  ghost predicate NewChunk(h: Reigns, s': Servers, h': Reigns, a': Acks, id: u64, t: u64, k: nat) {
    Proper(h', t, k) && !Proper(h, t, k) ==>
      && Leads(s', id, t) && s'.nodes[id].log == Chunk(h', t, k)
      && forall q :: Acked(a', q, t, k) ==> q == id
  }

  lemma ExtendedComplete(s: Servers, h: Reigns, a: Acks, id: u64, s': Servers, h': Reigns, a': Acks, u: u64, t: u64, k: nat)
    requires ElectionInv(s') && LogInv(s, h) && SafeInv(s, h, a) && Extended(s, h, a, id, s', h', a')
    ensures Complete(s', h', a', u, t, k)
  {
    assert Complete(s, h, a, u, t, k) && NewChunk(h, s', h', a', id, t, k);
    if u in h' && t < u && Live(s', h', a', t, k) {
      assert ReignOk(s, h, u) && ReignGrows(h, h', u);
      if Proper(h, t, k) {
        LiveBefore(s, h, a, s', h', a', t, k);
      } else {
        var n: nat :| CarriedBy(s, h[u].leader, u, n);
        TooLate(s', h', a', id, t, k, n);
      }
    }
  }

  lemma ExtendedInformed(s: Servers, h: Reigns, a: Acks, id: u64, s': Servers, h': Reigns, a': Acks, m: nat, q: u64, t: u64, k: nat)
    requires ElectionInv(s') && SafeInv(s, h, a) && Extended(s, h, a, id, s', h', a')
    ensures Informed(s', h', a', m, q, t, k)
  {
    assert Informed(s, h, a, m, q, t, k) && NewChunk(h, s', h', a', id, t, k);
    if Running(s', m) && Backs(s'.contests[m], q) && t <= s'.contests[m].term && Live(s', h', a', t, k) && Acked(a', q, t, k) {
      assert AckOk(s', h', a', q, t);
      BackerIsClosed(s', m, q, t);
      LiveBefore(s, h, a, s', h', a', t, k);
    }
  }

  lemma SubmitSafe(s: Servers, h: Reigns, a: Acks, id: u64, command: Command)
    requires ElectionInv(s) && LogInv(s, h) && SafeInv(s, h, a) && CanDo(s, Submit(id, command))
    ensures SafeInv(Do(s, Submit(id, command)), NextReigns(s, h, Submit(id, command)), NextAcks(s, a, Submit(id, command)))
  {
    if s.nodes[id].role != Leader {
      assert s.nodes[id := s.nodes[id]] == s.nodes;
    } else {
      var s', h', a' := Do(s, Submit(id, command)), NextReigns(s, h, Submit(id, command)), NextAcks(s, a, Submit(id, command));
      SoundStep(s, Submit(id, command));
      SubmitExtends(s, h, a, id, command);
      forall q, t, k: nat ensures Retained(s', h', a', q, t, k) {
        assert Retained(s, h, a, q, t, k) && NewChunk(h, s', h', a', id, t, k);
        if Live(s', h', a', t, k) && Proper(h, t, k) { LiveBefore(s, h, a, s', h', a', t, k); }
      }
      forall u, t, k: nat ensures Complete(s', h', a', u, t, k) { ExtendedComplete(s, h, a, id, s', h', a', u, t, k); }
      forall m: nat, q, t, k: nat ensures Informed(s', h', a', m, q, t, k) {
        ExtendedInformed(s, h, a, id, s', h', a', m, q, t, k);
      }
    }
  }

  // ---------------------------------------------------------------- taking an append

  /** The follower keeps the chunks it held, and holds what it has been sent. */
  lemma MergeHolds(s: Servers, h: Reigns, a: Acks, id: u64, term: u64, next: nat, entries: Log, t: u64, k: nat)
    requires LogInv(s, h) && SafeInv(s, h, a) && id in s.nodes && s.nodes[id].currentTerm <= term && term in h
    requires Fits(s.nodes[id].log, h[term].log, next, entries)
    requires Live(s, h, a, t, k) && (Acked(a, id, t, k) || (t == term && k <= next + |entries|))
    ensures Chunk(h, t, k) <= Merge(s.nodes[id].log, next, entries)
  {
    var mine, log := s.nodes[id].log, h[term].log;
    assert NodeTraced(s, h, id) && ReignOk(s, h, term);
    TracedMatch(h, mine, log, s.nodes[id].currentTerm, term);
    if Acked(a, id, t, k) {
      assert Retained(s, h, a, id, t, k) && AckOk(s, h, a, id, t) && Complete(s, h, a, term, t, k);
      MergeKeepsCommon(mine, log, next, entries, Chunk(h, t, k));
    } else {
      MergeResult(mine, log, next, entries);
      assert Chunk(h, t, k) == log[..next + |entries|][..k];
    }
  }

  /** An append of term `term` taken by `id`, up to `reach`. */
  ghost predicate TakenBy(s: Servers, h: Reigns, a: Acks, id: u64, term: u64, reach: nat, s': Servers, a': Acks) {
    && id in s.nodes && id in s'.nodes && s'.nodes == s.nodes[id := s'.nodes[id]] && s'.contests == s.contests
    && s.nodes[id].currentTerm <= term == s'.nodes[id].currentTerm && s'.nodes[id].role == Follower
    && !Closed(s.nodes[id], term) && term in h && reach <= |h[term].log|
    && a' == (if Acked(a, id, term, reach) then a else a[(id, term) := reach])
  }

  lemma TakenShrinks(s: Servers, h: Reigns, a: Acks, id: u64, term: u64, reach: nat, s': Servers, a': Acks)
    requires SafeInv(s, h, a) && TakenBy(s, h, a, id, term, reach, s', a')
    ensures Shrinks(s, a, s', a') && Grows(h, h)
    ensures (forall q, t :: AckOk(s', h, a', q, t)) && (forall q :: LeaderAck(s', a', q))
  {
    forall t ensures ReignGrows(h, h, t) {}
    forall t ensures StaysClosed(s, s', id, t) {}
    OneNodeCloses(s, s', id);
    forall q, t, k: nat ensures HeldInTime(s, a, a', q, t, k) {}
    forall q, t ensures AckOk(s', h, a', q, t) { assert AckOk(s, h, a, q, t); }
    forall q ensures LeaderAck(s', a', q) { assert LeaderAck(s, a, q); }
  }

  lemma TakenInformed(s: Servers, h: Reigns, a: Acks, id: u64, term: u64, reach: nat, s': Servers, a': Acks,
                      m: nat, q: u64, t: u64, k: nat)
    requires ElectionInv(s) && SafeInv(s, h, a) && TakenBy(s, h, a, id, term, reach, s', a')
    requires Shrinks(s, a, s', a') && Grows(h, h)
    ensures Informed(s', h, a', m, q, t, k)
  {
    assert Informed(s, h, a, m, q, t, k);
    if Running(s', m) && Backs(s'.contests[m], q) && t <= s'.contests[m].term && Live(s', h, a', t, k) && Acked(a', q, t, k) {
      assert AckOk(s, h, a, q, t) && HeldInTime(s, a, a', q, t, k);
      LiveBefore(s, h, a, s', h, a', t, k);
      BackerIsClosed(s, m, q, t);
    }
  }

  lemma TakenSafe(s: Servers, h: Reigns, a: Acks, id: u64, term: u64, next: nat, entries: Log, s': Servers, a': Acks)
    requires ElectionInv(s) && LogInv(s, h) && SafeInv(s, h, a) && TakenBy(s, h, a, id, term, next + |entries|, s', a')
    requires Fits(s.nodes[id].log, h[term].log, next, entries) && s'.nodes[id].log == Merge(s.nodes[id].log, next, entries)
    ensures SafeInv(s', h, a')
  {
    TakenShrinks(s, h, a, id, term, next + |entries|, s', a');
    forall q, t, k: nat ensures Retained(s', h, a', q, t, k) {
      assert Retained(s, h, a, q, t, k);
      if Live(s', h, a', t, k) && Acked(a', q, t, k) {
        LiveBefore(s, h, a, s', h, a', t, k);
        if q == id { MergeHolds(s, h, a, id, term, next, entries, t, k); }
      }
    }
    forall u, t, k: nat ensures Complete(s', h, a', u, t, k) {
      assert Complete(s, h, a, u, t, k);
      if Live(s', h, a', t, k) { LiveBefore(s, h, a, s', h, a', t, k); }
    }
    forall m: nat, q, t, k: nat ensures Informed(s', h, a', m, q, t, k) {
      TakenInformed(s, h, a, id, term, next + |entries|, s', a', m, q, t, k);
    }
  }

  lemma TakeSafe(s: Servers, h: Reigns, a: Acks, id: u64, req: Append)
    requires ElectionInv(s) && LogInv(s, h) && SafeInv(s, h, a) && CanDo(s, TakeAppend(id, req))
    requires Sound(s, TakeAppend(id, req)) && Careful(s, TakeAppend(id, req))
    requires req.term in h && SliceOf(req, h[req.term].log)
    ensures SafeInv(Do(s, TakeAppend(id, req)), h, NextAcks(s, a, TakeAppend(id, req)))
  {
    var s', a' := Do(s, TakeAppend(id, req)), NextAcks(s, a, TakeAppend(id, req));
    SoundStep(s, TakeAppend(id, req));
    assert NodeOk(s, id);
    TakenShape(s.nodes[id], req);
    assert s' == s.(nodes := s.nodes[id := s'.nodes[id]]);
    if Taken(s.nodes[id], req) {
      TakenSafe(s, h, a, id, req.term, Begin(req), req.entries, s', a');
    } else {
      AppendMoves(s.nodes[id], req);
      MoveSafe(s, h, a, s', id);
    }
  }

  // ---------------------------------------------------------------- every step

  lemma StepSafe(s: Servers, h: Reigns, a: Acks, step: ElectionStep)
    requires ElectionInv(s) && LogInv(s, h) && SafeInv(s, h, a) && CanDo(s, step) && Sound(s, step) && Careful(s, step)
    requires step.TakeAppend? ==> step.req.term in h && SliceOf(step.req, h[step.req.term].log)
    ensures SafeInv(Do(s, step), NextReigns(s, h, step), NextAcks(s, a, step))
  {
    match step
    case TimeOut(id) => TimeOutSafe(s, h, a, id);
    case Ask(k, peer, vote) => AskSafe(s, h, a, k, peer, vote);
    case Hear(k, peer) => HearSafe(s, h, a, k, peer);
    case Submit(id, command) => SubmitSafe(s, h, a, id, command);
    case TakeAppend(id, req) => TakeSafe(s, h, a, id, req);
    case TakeAppendReply(id, peer, myTerm, next, count, reply) =>
      SoundStep(s, step);
      assert NodeOk(s, id);
      AppendReplyMoves(s.nodes[id], peer, myTerm, next, count, reply);
      MoveSafe(s, h, a, Do(s, step), id);
  }
}
