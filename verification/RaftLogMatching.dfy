/**
 * Log matching as written: over the runs of RaftElection with sound steps, and with appends sent
 * by leaders in their own term and delivered at any later time, or never, or more than once.
 */
module RaftLogMatching {
  import opened Quorum
  import opened Basics
  import opened RaftNode
  import opened RaftMerge
  import opened RaftAsWritten
  import opened RaftRefinement
  import opened RaftElection

  /** The leader of a term, the log it was elected with, and that log as far as it has grown. */
  datatype Reign = Reign(leader: u64, base: Log, log: Log)

  type Reigns = map<u64, Reign>

  /** Up to this entry the log is what the leader of the entry's term had. */
  ghost predicate Traced(h: Reigns, log: Log, x: int) {
    0 <= x < |log| ==>
      && 0 <= log[x].term < TWO64 && (log[x].term as u64) in h
      && log[..x + 1] <= h[log[x].term].log
  }

  ghost predicate LogTraced(h: Reigns, log: Log, term: u64) {
    (forall x :: Traced(h, log, x)) && (forall x :: 0 <= x < |log| ==> log[x].term <= term)
  }

  ghost predicate NodeTraced(s: Servers, h: Reigns, q: u64) {
    q in s.nodes ==>
      var r := s.nodes[q];
      && LogTraced(h, r.log, r.currentTerm)
      && (r.role == Leader ==> r.currentTerm in h && h[r.currentTerm].leader == q && h[r.currentTerm].log == r.log)
  }

  ghost predicate ReignOk(s: Servers, h: Reigns, t: u64) {
    t in h ==>
      && LogTraced(h, h[t].log, t) && BaseOk(h[t], t)
      && h[t].leader in s.nodes && s.nodes[h[t].leader].currentTerm >= t
      && (s.nodes[h[t].leader].currentTerm == t ==> s.nodes[h[t].leader].role != Candidate)
      && exists k :: CarriedBy(s, h[t].leader, t, k)
  }

  /** What a leader was elected with is of earlier terms, what it has added is of its own. */
  ghost predicate BaseOk(e: Reign, t: u64) {
    e.base <= e.log && forall x :: 0 <= x < |e.log| ==> (x < |e.base| <==> e.log[x].term < t)
  }

  /** The contest that won the term. */
  ghost predicate CarriedBy(s: Servers, leader: u64, t: u64, k: nat) {
    && k < |s.contests| && s.contests[k].candidate == leader && s.contests[k].term + 1 == t
    && Majority(Backers(s.contests[k]), s.nodes.Keys)
  }

  ghost predicate LogInv(s: Servers, h: Reigns) {
    (forall q :: NodeTraced(s, h, q)) && (forall t :: ReignOk(s, h, t))
  }

  ghost predicate ReignGrows(h: Reigns, h': Reigns, t: u64) {
    t in h ==> t in h' && h'[t].leader == h[t].leader && h'[t].base == h[t].base && h[t].log <= h'[t].log
  }

  ghost predicate Grows(h: Reigns, h': Reigns) {
    forall t :: ReignGrows(h, h', t)
  }

  /** A win begins a reign, a command taken by a leader extends it. */
  function NextReigns(s: Servers, h: Reigns, step: ElectionStep): Reigns
    requires CanDo(s, step)
  {
    match step
    case Hear(k, peer) =>
      var q := s.contests[k].candidate;
      if Wins(s, step) then h[s.nodes[q].currentTerm := Reign(q, s.nodes[q].log, s.nodes[q].log)] else h
    case Submit(id, command) =>
      var r := s.nodes[id];
      if r.role == Leader && r.currentTerm in h
      then h[r.currentTerm := h[r.currentTerm].(log := r.log + [Entry(r.currentTerm, command)])] else h
    case _ => h
  }

  /** The step makes its candidate a leader. */
  predicate Wins(s: Servers, step: ElectionStep)
    requires CanDo(s, step)
  {
    step.Hear? && var q := s.contests[step.contest].candidate;
    s.nodes[q].role == Candidate && Do(s, step).nodes[q].role == Leader
  }

  // ---------------------------------------------------------------- logs and reigns

  lemma TracedStays(h: Reigns, h': Reigns, log: Log, term: u64)
    requires Grows(h, h') && LogTraced(h, log, term)
    ensures LogTraced(h', log, term)
  {
    forall x ensures Traced(h', log, x) {
      assert Traced(h, log, x);
      if 0 <= x < |log| { assert ReignGrows(h, h', log[x].term); }
    }
  }

  lemma TracedMatch(h: Reigns, a: Log, b: Log, ta: u64, tb: u64)
    requires LogTraced(h, a, ta) && LogTraced(h, b, tb)
    ensures Matching(a, b)
  {
    forall i ensures MatchAt(a, b, i) {
      assert Traced(h, a, i) && Traced(h, b, i);
      if 0 <= i < |a| && i < |b| && a[i].term == b[i].term {
        var log := h[a[i].term].log;
        assert a[..i + 1] == log[..i + 1] == b[..i + 1];
      }
    }
  }

  lemma PrefixTraced(h: Reigns, log: Log, term: u64, m: nat)
    requires LogTraced(h, log, term) && m <= |log|
    ensures LogTraced(h, log[..m], term)
  {
    forall x ensures Traced(h, log[..m], x) {
      assert Traced(h, log, x);
      if 0 <= x < m { assert log[..m][..x + 1] == log[..x + 1]; }
    }
  }

  /** A merge of a slice of a leader's log is traced again. */
  lemma MergeTraced(h: Reigns, mine: Log, log: Log, next: nat, entries: Log, ta: u64, term: u64)
    requires LogTraced(h, mine, ta) && ta <= term && LogTraced(h, log, term) && Fits(mine, log, next, entries)
    ensures LogTraced(h, Merge(mine, next, entries), term)
  {
    TracedMatch(h, mine, log, ta, term);
    MergeResult(mine, log, next, entries);
    PrefixTraced(h, log, term, next + |entries|);
  }

  // ---------------------------------------------------------------- steps that leave logs alone

  /** Contests keep or gain backers, logs stay, and no node becomes a candidate in its own term, or a leader. */
  ghost predicate Quietly(s: Servers, s': Servers) {
    && Later(s, s') && s'.nodes.Keys == s.nodes.Keys
    && forall q :: NodeQuiet(s, s', q)
  }

  ghost predicate NodeQuiet(s: Servers, s': Servers, q: u64) {
    q in s.nodes ==>
      && q in s'.nodes
      && var r, r' := s.nodes[q], s'.nodes[q];
      && r'.log == r.log && r'.currentTerm >= r.currentTerm
      && (r'.role == Leader ==> r.role == Leader && r'.currentTerm == r.currentTerm)
      && (r'.role == Candidate && r'.currentTerm == r.currentTerm ==> r.role == Candidate)
  }

  lemma Carried(s: Servers, s': Servers, leader: u64, t: u64, k: nat)
    requires ElectionInv(s') && Later(s, s') && CarriedBy(s, leader, t, k)
    ensures CarriedBy(s', leader, t, k)
  {
    BackersGrow(s, s', k);
  }

  lemma QuietStep(s: Servers, h: Reigns, s': Servers)
    requires ElectionInv(s') && LogInv(s, h) && Quietly(s, s')
    ensures LogInv(s', h)
  {
    forall q ensures NodeTraced(s', h, q) { assert NodeTraced(s, h, q) && NodeQuiet(s, s', q); }
    forall t ensures ReignOk(s', h, t) {
      assert ReignOk(s, h, t);
      if t in h {
        assert NodeQuiet(s, s', h[t].leader);
        var k: nat :| CarriedBy(s, h[t].leader, t, k);
        Carried(s, s', h[t].leader, t, k);
      }
    }
  }

  lemma OneNodeQuiet(s: Servers, s': Servers, id: u64)
    requires Later(s, s') && id in s.nodes && id in s'.nodes && s'.nodes == s.nodes[id := s'.nodes[id]]
    requires NodeQuiet(s, s', id)
    ensures Quietly(s, s')
  {
    forall q ensures NodeQuiet(s, s', q) {}
  }

  // ---------------------------------------------------------------- winning

  lemma WonLogs(s: Servers, h: Reigns, q: u64, s': Servers, k: nat, h': Reigns)
    requires ElectionInv(s') && LogInv(s, h) && Later(s, s') && q in s.nodes && q in s'.nodes
    requires s'.nodes == s.nodes[q := s.nodes[q].(role := Leader)] && s.nodes[q].role == Candidate
    requires s.nodes[q].currentTerm !in h && CarriedBy(s', q, s.nodes[q].currentTerm, k)
    requires h' == h[s.nodes[q].currentTerm := Reign(q, s.nodes[q].log, s.nodes[q].log)]
    requires forall x :: 0 <= x < |s.nodes[q].log| ==> s.nodes[q].log[x].term < s.nodes[q].currentTerm
    ensures Grows(h, h') && LogInv(s', h')
  {
    forall u ensures ReignGrows(h, h', u) {}
    forall p ensures NodeTraced(s', h', p) {
      assert NodeTraced(s, h, p);
      if p in s.nodes { TracedStays(h, h', s.nodes[p].log, s.nodes[p].currentTerm); }
    }
    forall u ensures ReignOk(s', h', u) {
      assert ReignOk(s, h, u) && NodeTraced(s', h', q);
      if u in h {
        TracedStays(h, h', h[u].log, u);
        var l: nat :| CarriedBy(s, h[u].leader, u, l);
        Carried(s, s', h[u].leader, u, l);
      }
    }
  }

  lemma HearLogs(s: Servers, h: Reigns, k: nat, peer: u64)
    requires ElectionInv(s) && LogInv(s, h) && CanDo(s, Hear(k, peer)) && Sound(s, Hear(k, peer))
    ensures
      var h' := NextReigns(s, h, Hear(k, peer));
      Grows(h, h') && LogInv(Do(s, Hear(k, peer)), h')
  {
    var s' := Do(s, Hear(k, peer));
    var h' := NextReigns(s, h, Hear(k, peer));
    var c := s.contests[k];
    var q := c.candidate;
    HearStep(s, k, peer);
    assert s'.nodes == s.nodes[q := s'.nodes[q]];
    if s'.nodes[q].role == Leader && s.nodes[q].role == Candidate {
      HearWins(s, k, peer);
      NewTermLater(s, h, q, s', k);
      EarlierTerms(s, h, q);
      WonLogs(s, h, q, s', k, h');
    } else {
      assert ContestOk(s, k) && NodeOk(s, q);
      OneNodeQuiet(s, s', q);
      QuietStep(s, h, s');
      forall t ensures ReignGrows(h, h', t) {}
    }
  }

  /** While nobody has led a node's term, its log has no entry of it. */
  lemma EarlierTerms(s: Servers, h: Reigns, q: u64)
    requires LogInv(s, h) && q in s.nodes && s.nodes[q].currentTerm !in h
    ensures forall x :: 0 <= x < |s.nodes[q].log| ==> s.nodes[q].log[x].term < s.nodes[q].currentTerm
  {
    var r := s.nodes[q];
    assert NodeTraced(s, h, q);
    forall x | 0 <= x < |r.log| ensures r.log[x].term < r.currentTerm { assert Traced(h, r.log, x); }
  }

  lemma HearWins(s: Servers, k: nat, peer: u64)
    requires ElectionInv(s) && CanDo(s, Hear(k, peer)) && Sound(s, Hear(k, peer))
    requires s.nodes[s.contests[k].candidate].role == Candidate
    requires Do(s, Hear(k, peer)).nodes[s.contests[k].candidate].role == Leader
    ensures
      var q := s.contests[k].candidate;
      var s' := Do(s, Hear(k, peer));
      && s'.nodes[q] == s.nodes[q].(role := Leader)
      && CarriedBy(s', q, s.nodes[q].currentTerm, k)
  {
    var s' := Do(s, Hear(k, peer));
    HearStep(s, k, peer);
    assert ContestOk(s', k) && NodeOk(s', s.contests[k].candidate);
    ContestMajority(s', k);
  }

  /** A candidate wins only a term nobody has led, itself included. */
  lemma NewTermLater(s: Servers, h: Reigns, q: u64, s': Servers, k: nat)
    requires ElectionInv(s') && LogInv(s, h) && Later(s, s') && q in s.nodes && s.nodes[q].role == Candidate
    requires CarriedBy(s', q, s.nodes[q].currentTerm, k)
    ensures s.nodes[q].currentTerm !in h
  {
    var t := s.nodes[q].currentTerm;
    assert ReignOk(s, h, t);
    if t in h {
      var l: nat :| CarriedBy(s, h[t].leader, t, l);
      Carried(s, s', h[t].leader, t, l);
      TwoCarried(s', q, h[t].leader, t, k, l);
    }
  }

  lemma TwoCarried(s: Servers, a: u64, b: u64, t: u64, k: nat, l: nat)
    requires ElectionInv(s) && CarriedBy(s, a, t, k) && CarriedBy(s, b, t, l)
    ensures a == b
  {
    var q := MajoritiesMeet(Backers(s.contests[k]), Backers(s.contests[l]), s.nodes.Keys);
    assert OneVote(s, q, k, l);
  }

  // ---------------------------------------------------------------- taking a command

  lemma SubmitLogs(s: Servers, h: Reigns, id: u64, command: Command)
    requires ElectionInv(s) && LogInv(s, h) && CanDo(s, Submit(id, command))
    ensures
      var h' := NextReigns(s, h, Submit(id, command));
      Grows(h, h') && LogInv(Do(s, Submit(id, command)), h')
  {
    var s' := Do(s, Submit(id, command));
    var h' := NextReigns(s, h, Submit(id, command));
    var r := s.nodes[id];
    assert NodeTraced(s, h, id);
    if r.role != Leader {
      assert s.nodes[id := r] == s.nodes;
      forall t ensures ReignGrows(h, h', t) {}
    } else {
      var t := r.currentTerm;
      forall u ensures ReignGrows(h, h', u) {}
      TracedStays(h, h', r.log, t);
      Appended(h', r.log, t, Entry(t, command));
      forall p ensures NodeTraced(s', h', p) {
        assert NodeTraced(s, h, p);
        if p in s.nodes { TracedStays(h, h', s.nodes[p].log, s.nodes[p].currentTerm); }
      }
      forall u ensures ReignOk(s', h', u) {
        assert ReignOk(s, h, u);
        if u in h {
          TracedStays(h, h', h[u].log, u);
          var l: nat :| CarriedBy(s, h[u].leader, u, l);
          assert CarriedBy(s', h[u].leader, u, l);
        }
      }
    }
  }

  lemma Appended(h: Reigns, log: Log, term: u64, e: Entry)
    requires LogTraced(h, log, term) && e.term == term && term in h && h[term].log == log + [e]
    ensures LogTraced(h, log + [e], term)
  {
    forall x ensures Traced(h, log + [e], x) {
      assert Traced(h, log, x);
      if 0 <= x < |log| { assert (log + [e])[..x + 1] == log[..x + 1]; }
    }
  }

  // ---------------------------------------------------------------- taking an append

  /** The message was built by a node that led its term, from the log it then had. */
  ghost predicate SliceOf(req: Append, log: Log) {
    && Begin(req) + |req.entries| <= |log|
    && (forall j :: 0 <= j < |req.entries| ==> req.entries[j] == log[Begin(req) + j])
    && (Begin(req) > 0 ==> req.prevLogTerm == log[Begin(req) - 1].term)
  }

  lemma TakeLogs(s: Servers, h: Reigns, id: u64, req: Append)
    requires ElectionInv(s) && LogInv(s, h) && CanDo(s, TakeAppend(id, req)) && Sound(s, TakeAppend(id, req))
    requires req.term in h && h[req.term].leader != id && SliceOf(req, h[req.term].log)
    ensures LogInv(Do(s, TakeAppend(id, req)), h)
  {
    var s' := Do(s, TakeAppend(id, req));
    var r, r' := s.nodes[id], s'.nodes[id];
    SoundStep(s, TakeAppend(id, req));
    assert NodeOk(s, id) && NodeTraced(s, h, id) && ReignOk(s, h, req.term);
    TakenShape(r, req);
    if Taken(r, req) {
      assert Fits(r.log, h[req.term].log, Begin(req), req.entries);
      MergeTraced(h, r.log, h[req.term].log, Begin(req), req.entries, r.currentTerm, req.term);
      OneNodeTraced(s, h, id, s');
    } else {
      OneNodeQuiet(s, s', id);
      QuietStep(s, h, s');
    }
  }

  lemma TakenShape(r: Fields, req: Append)
    requires FitsWords(r) && AppendFits(r, req) && req.term < MAX && r.currentTerm < MAX
    ensures
      var r' := AfterAppendEntries(r, req).0;
      && r'.currentTerm >= r.currentTerm
      && (if Taken(r, req)
          then r'.log == Merge(r.log, Begin(req), req.entries) && r'.role == Follower && r'.currentTerm == req.term
          else r'.log == r.log && ((r'.role == r.role && r'.currentTerm == r.currentTerm) || r'.role == Follower))
  {
    if Taken(r, req) { TakenLog(r, req); }
  }

  /** One node has become a follower with a traced log. */
  lemma OneNodeTraced(s: Servers, h: Reigns, id: u64, s': Servers)
    requires LogInv(s, h) && ElectionInv(s') && Later(s, s') && id in s.nodes && id in s'.nodes
    requires s'.nodes == s.nodes[id := s'.nodes[id]] && s'.nodes[id].role == Follower
    requires s'.nodes[id].currentTerm >= s.nodes[id].currentTerm
    requires LogTraced(h, s'.nodes[id].log, s'.nodes[id].currentTerm)
    ensures LogInv(s', h)
  {
    forall q ensures NodeTraced(s', h, q) { assert NodeTraced(s, h, q); }
    forall t ensures ReignOk(s', h, t) {
      assert ReignOk(s, h, t);
      if t in h {
        var k: nat :| CarriedBy(s, h[t].leader, t, k);
        Carried(s, s', h[t].leader, t, k);
      }
    }
  }

  // ---------------------------------------------------------------- whole runs

  /** The leader of the message's term builds it for `id`; its commit index may be read later. */
  ghost predicate Builds(s: Servers, id: u64, req: Append) {
    && Leads(s, req.leader, req.term) && req.leader != id
    && var l := s.nodes[req.leader];
    && FitsWords(l) && NextIndexOf(l, id) <= |l.log|
    && req.(leaderCommit := 0) == PrepareAppend(l, id, req.term).(leaderCommit := 0)
  }

  /** Whatever append is taken was built before, by a leader in its own term. */
  ghost predicate SentAt(run: seq<Servers>, steps: seq<ElectionStep>, i: nat) {
    i < |steps| && steps[i].TakeAppend? ==>
      exists j: nat :: j <= i && j < |run| && Builds(run[j], steps[i].id, steps[i].req)
  }

  ghost predicate ReignAt(run: seq<Servers>, hs: seq<Reigns>, i: nat) {
    i < |run| && i < |hs| ==> LogInv(run[i], hs[i])
  }

  ghost predicate NextAt(run: seq<Servers>, steps: seq<ElectionStep>, hs: seq<Reigns>, i: nat) {
    i + 1 < |hs| && i < |steps| && i < |run| ==> CanDo(run[i], steps[i]) && hs[i + 1] == NextReigns(run[i], hs[i], steps[i])
  }

  ghost predicate GrowsBetween(hs: seq<Reigns>, i: nat, j: nat) {
    i <= j < |hs| ==> Grows(hs[i], hs[j])
  }

  lemma GrowsOn(h: Reigns, h1: Reigns, h2: Reigns)
    requires Grows(h, h1) && Grows(h1, h2)
    ensures Grows(h, h2)
  {
    forall t ensures ReignGrows(h, h2, t) { assert ReignGrows(h, h1, t) && ReignGrows(h1, h2, t); }
  }

  lemma PreparedIsSlice(l: Fields, id: u64, term: u64, log: Log)
    requires FitsWords(l) && NextIndexOf(l, id) <= |l.log| && l.log <= log
    ensures SliceOf(PrepareAppend(l, id, term), log)
  {
    var req := PrepareAppend(l, id, term);
    var next := NextIndexOf(l, id);
    assert Begin(req) == next && |req.entries| == |l.log| - next;
    assert next > 0 ==> req.prevLogTerm == l.log[next - 1].term == log[next - 1].term;
    forall k | 0 <= k < |req.entries| ensures req.entries[k] == log[next + k] { assert req.entries[k] == l.log[next + k]; }
  }

  lemma BuiltIsSlice(s: Servers, h: Reigns, h': Reigns, id: u64, req: Append)
    requires LogInv(s, h) && Grows(h, h') && Builds(s, id, req)
    ensures req.term in h' && h'[req.term].leader != id && SliceOf(req, h'[req.term].log)
  {
    assert NodeTraced(s, h, req.leader) && ReignGrows(h, h', req.term);
    PreparedIsSlice(s.nodes[req.leader], id, req.term, h'[req.term].log);
    SliceAnyCommit(req, PrepareAppend(s.nodes[req.leader], id, req.term), h'[req.term].log);
  }

  lemma SliceAnyCommit(req: Append, built: Append, log: Log)
    requires req.(leaderCommit := 0) == built.(leaderCommit := 0) && SliceOf(built, log)
    ensures SliceOf(req, log)
  {
  }

  lemma StepLogs(s: Servers, h: Reigns, step: ElectionStep)
    requires ElectionInv(s) && LogInv(s, h) && CanDo(s, step) && Sound(s, step)
    requires step.TakeAppend? ==> step.req.term in h && h[step.req.term].leader != step.id && SliceOf(step.req, h[step.req.term].log)
    ensures Grows(h, NextReigns(s, h, step)) && LogInv(Do(s, step), NextReigns(s, h, step))
  {
    forall t ensures ReignGrows(h, h, t) {}
    match step
    case Hear(k, peer) => HearLogs(s, h, k, peer);
    case Submit(id, command) => SubmitLogs(s, h, id, command);
    case TakeAppend(id, req) => TakeLogs(s, h, id, req);
    case TimeOut(id) =>
      SoundStep(s, step);
      assert NodeOk(s, id);
      OneNodeQuiet(s, Do(s, step), id);
      QuietStep(s, h, Do(s, step));
    case Ask(k, peer, vote) =>
      SoundStep(s, step);
      assert NodeOk(s, peer) && ContestOk(s, k);
      AnswerEffect(s.nodes[peer], vote);
      OneNodeQuiet(s, Do(s, step), peer);
      QuietStep(s, h, Do(s, step));
    case TakeAppendReply(id, peer, myTerm, next, count, reply) =>
      SoundStep(s, step);
      assert NodeOk(s, id);
      AppendReplyMoves(s.nodes[id], peer, myTerm, next, count, reply);
      OneNodeQuiet(s, Do(s, step), id);
      QuietStep(s, h, Do(s, step));
  }

  /** The reigns after step `i`, given those before it. */
  lemma ReignStep(run: seq<Servers>, steps: seq<ElectionStep>, hs: seq<Reigns>, i: nat) returns (h': Reigns)
    requires ElectionRun(run, steps) && i < |steps| && |hs| == i + 1
    requires forall k :: SoundAt(run, steps, k) && SentAt(run, steps, k)
    requires (forall k :: ReignAt(run, hs, k)) && forall j, k :: GrowsBetween(hs, j, k)
    ensures CanDo(run[i], steps[i]) && h' == NextReigns(run[i], hs[i], steps[i])
    ensures Grows(hs[i], h') && LogInv(run[i + 1], h')
  {
    var step := steps[i];
    assert ReignAt(run, hs, i) && DoneAt(run, steps, i) && SoundAt(run, steps, i);
    SoundRun(run, steps, i, i);
    if step.TakeAppend? { SentIsSlice(run, steps, hs, i); }
    StepLogs(run[i], hs[i], step);
    h' := NextReigns(run[i], hs[i], step);
  }

  lemma SentIsSlice(run: seq<Servers>, steps: seq<ElectionStep>, hs: seq<Reigns>, i: nat)
    requires i < |steps| && i < |run| && i < |hs| && steps[i].TakeAppend? && SentAt(run, steps, i)
    requires (forall k :: ReignAt(run, hs, k)) && forall j, k :: GrowsBetween(hs, j, k)
    ensures steps[i].req.term in hs[i] && hs[i][steps[i].req.term].leader != steps[i].id
    ensures SliceOf(steps[i].req, hs[i][steps[i].req.term].log)
  {
    var j: nat :| j <= i && j < |run| && Builds(run[j], steps[i].id, steps[i].req);
    assert ReignAt(run, hs, j) && GrowsBetween(hs, j, i);
    BuiltIsSlice(run[j], hs[j], hs[i], steps[i].id, steps[i].req);
  }

  lemma GrowsFurther(hs: seq<Reigns>, h': Reigns)
    requires |hs| > 0 && Grows(hs[|hs| - 1], h') && forall i, j :: GrowsBetween(hs, i, j)
    ensures forall i, j :: GrowsBetween(hs + [h'], i, j)
  {
    var n := |hs|;
    forall i: nat, j: nat ensures GrowsBetween(hs + [h'], i, j) {
      assert GrowsBetween(hs, i, j) && GrowsBetween(hs, i, n - 1);
      if i < n && j == n { GrowsOn(hs[i], hs[n - 1], h'); }
      if i == n { forall t ensures ReignGrows(h', h', t) {} }
    }
  }

  lemma {:induction false} RunReigns(run: seq<Servers>, steps: seq<ElectionStep>, n: nat) returns (hs: seq<Reigns>)
    requires ElectionRun(run, steps) && n < |run|
    requires forall k :: SoundAt(run, steps, k) && SentAt(run, steps, k)
    ensures |hs| == n + 1 && (forall i :: ReignAt(run, hs, i)) && (forall i, j :: GrowsBetween(hs, i, j))
    ensures hs[0] == map[] && forall i :: NextAt(run, steps, hs, i)
    decreases n
  {
    if n == 0 {
      hs := [map[]];
      StartLogs(run[0]);
      forall i: nat, j: nat ensures GrowsBetween(hs, i, j) {}
    } else {
      var before := RunReigns(run, steps, n - 1);
      var h' := ReignStep(run, steps, before, n - 1);
      GrowsFurther(before, h');
      hs := before + [h'];
      forall i ensures ReignAt(run, hs, i) { assert ReignAt(run, before, i); }
      forall i ensures NextAt(run, steps, hs, i) { assert NextAt(run, steps, before, i); }
    }
  }

  lemma StartLogs(s: Servers)
    requires Start(s)
    ensures LogInv(s, map[])
  {
    forall q ensures NodeTraced(s, map[], q) {}
  }

  /**
   * Log matching as written: in every run whose steps are sound, with appends of leaders in their
   * own term delivered late, repeatedly or not at all, two logs that ever hold the same term at the
   * same index agree on every entry up to it.
   */
  lemma LogMatchingAsWritten(run: seq<Servers>, steps: seq<ElectionStep>, i: nat, j: nat, a: u64, b: u64, x: nat)
    requires ElectionRun(run, steps) && forall k :: SoundAt(run, steps, k) && SentAt(run, steps, k)
    requires i <= j < |run| && a in run[i].nodes && b in run[j].nodes
    requires x < |run[i].nodes[a].log| && x < |run[j].nodes[b].log|
    requires run[i].nodes[a].log[x].term == run[j].nodes[b].log[x].term
    ensures run[i].nodes[a].log[..x + 1] == run[j].nodes[b].log[..x + 1]
  {
    var hs := RunReigns(run, steps, j);
    assert ReignAt(run, hs, i) && ReignAt(run, hs, j) && GrowsBetween(hs, i, j);
    var r, q := run[i].nodes[a], run[j].nodes[b];
    assert NodeTraced(run[i], hs[i], a) && NodeTraced(run[j], hs[j], b);
    TracedStays(hs[i], hs[j], r.log, r.currentTerm);
    TracedMatch(hs[j], r.log, q.log, r.currentTerm, q.currentTerm);
    assert MatchAt(r.log, q.log, x);
  }
}
