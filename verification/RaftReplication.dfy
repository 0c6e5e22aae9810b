/** Replication between one leader and one follower within one term, with the handlers as written. */
module RaftReplication {
  import opened Basics
  import opened RaftNode
  import opened RaftMerge
  import opened RaftAsWritten
  import opened RaftRefinement

  // ---------------------------------------------------------------- catching up

  /** Logs short enough, together, for 64-bit lengths, with terms a node can be in. */
  ghost predicate FitTogether(mine: Log, log: Log) {
    && |mine| + |log| < MAX && 2 * |log| < MAX
    && (forall i :: 0 <= i < |mine| ==> mine[i].term < MAX)
    && (forall i :: 0 <= i < |log| ==> log[i].term < MAX)
  }

  /** A leader and a follower of the same term whose logs satisfy log matching. */
  ghost predicate InTouch(leader: Fields, follower: Fields, peer: u64) {
    && leader.role == Leader && follower.role == Follower
    && leader.currentTerm == follower.currentTerm < MAX
    && NextIndexOf(leader, peer) <= |leader.log|
    && Matching(follower.log, leader.log) && FitTogether(follower.log, leader.log)
  }

  /** One append sent to the peer and its reply taken back. */
  function Exchange(leader: Fields, follower: Fields, peer: u64): (Fields, Fields)
    requires FitsWords(leader) && FitsWords(follower) && NextIndexOf(leader, peer) <= |leader.log|
    requires |leader.log| + |follower.log| < MAX
  {
    var req := PrepareAppend(leader, peer, leader.currentTerm);
    var (follower', reply) := AfterAppendEntries(follower, req);
    (AfterAppendReply(leader, peer, leader.currentTerm, NextIndexOf(leader, peer), |req.entries|, reply), follower')
  }

  /** The follower would take what the leader sends next. */
  predicate Fitting(leader: Fields, follower: Fields, next: int)
    requires 0 <= next <= |leader.log|
  {
    next == 0 || (next <= |follower.log| && follower.log[next - 1].term == leader.log[next - 1].term)
  }

  /** What the leader sends, and whether the follower takes it. */
  lemma Prepared(leader: Fields, follower: Fields, peer: u64)
    requires InTouch(leader, follower, peer)
    ensures FitsWords(leader) && FitsWords(follower)
    ensures
      var next := NextIndexOf(leader, peer);
      var req := PrepareAppend(leader, peer, leader.currentTerm);
      && req.term == leader.currentTerm && Wrap(req.prevLogIndex + 1) == next && req.entries == leader.log[next..]
      && (AcceptsAsWritten(follower.log, req.prevLogIndex, req.prevLogTerm) <==> Fitting(leader, follower, next))
  {
  }

  lemma FollowerAnswers(leader: Fields, follower: Fields, peer: u64)
    requires InTouch(leader, follower, peer)
    ensures FitsWords(leader) && FitsWords(follower)
    ensures
      var next := NextIndexOf(leader, peer);
      var (follower', reply) := AfterAppendEntries(follower, PrepareAppend(leader, peer, leader.currentTerm));
      && reply == Reply(leader.currentTerm, Fitting(leader, follower, next))
      && follower'.role == Follower && follower'.currentTerm == follower.currentTerm
      && (if Fitting(leader, follower, next)
          then follower'.log == Merge(follower.log, next, leader.log[next..])
          else follower' == follower)
  {
    Prepared(leader, follower, peer);
    var req := PrepareAppend(leader, peer, leader.currentTerm);
    if Fitting(leader, follower, NextIndexOf(leader, peer)) { TakenAsWritten(follower, req); }
  }

  /** What an exchange does: a fitting append ends the catch-up, any other costs one step back. */
  ghost predicate ExchangeOutcome(leader: Fields, follower: Fields, leader': Fields, follower': Fields, peer: u64)
    requires InTouch(leader, follower, peer)
  {
    var next := NextIndexOf(leader, peer);
    && InTouch(leader', follower', peer)
    && leader'.log == leader.log
    && (if Fitting(leader, follower, next)
        then NextIndexOf(leader', peer) == |leader.log| && leader.log <= follower'.log
        else next > 0 && NextIndexOf(leader', peer) == next - 1 && follower' == follower)
  }

  lemma ExchangeResult(leader: Fields, follower: Fields, peer: u64)
    requires InTouch(leader, follower, peer)
    ensures FitsWords(leader) && FitsWords(follower)
    ensures
      var (leader', follower') := Exchange(leader, follower, peer);
      ExchangeOutcome(leader, follower, leader', follower', peer)
  {
    var next := NextIndexOf(leader, peer);
    var fits := Fitting(leader, follower, next);
    FollowerAnswers(leader, follower, peer);
    if fits { WholeLogTaken(follower.log, leader.log, next); }
  }

  lemma WholeLogTaken(mine: Log, log: Log, next: nat)
    requires Matching(mine, log) && FitTogether(mine, log) && next <= |log|
    requires next == 0 || (next <= |mine| && mine[next - 1].term == log[next - 1].term)
    ensures
      var merged := Merge(mine, next, log[next..]);
      log <= merged && Matching(merged, log) && FitTogether(merged, log)
  {
    assert Fits(mine, log, next, log[next..]);
    MergeResult(mine, log, next, log[next..]);
    assert log[..|log|] == log;
  }

  /** The largest point not after `next` at which the follower's log fits the leader's. */
  ghost function FittingPoint(leader: Fields, follower: Fields, next: nat): (p: nat)
    requires next <= |leader.log|
    ensures p <= next && Fitting(leader, follower, p)
    ensures forall q :: p < q <= next ==> !Fitting(leader, follower, q)
  {
    if Fitting(leader, follower, next) then next else FittingPoint(leader, follower, next - 1)
  }

  /** `states` is the course of successive exchanges. */
  ghost predicate ExchangesAt(states: seq<(Fields, Fields)>, peer: u64, i: nat) {
    i + 1 < |states| ==>
      && FitsWords(states[i].0) && FitsWords(states[i].1) && NextIndexOf(states[i].0, peer) <= |states[i].0.log|
      && |states[i].0.log| + |states[i].1.log| < MAX
      && states[i + 1] == Exchange(states[i].0, states[i].1, peer)
  }

  /** Where the exchanges stand after `i` of them. */
  ghost predicate Progress(leader: Fields, follower: Fields, peer: u64, i: nat, leader': Fields, follower': Fields)
    requires NextIndexOf(leader, peer) <= |leader.log|
  {
    var next := NextIndexOf(leader, peer);
    var rejections := next - FittingPoint(leader, follower, next);
    && InTouch(leader', follower', peer) && leader'.log == leader.log
    && (if i <= rejections
        then NextIndexOf(leader', peer) == next - i && follower' == follower
        else NextIndexOf(leader', peer) == |leader.log| && leader.log <= follower'.log)
  }

  lemma ProgressStep(leader: Fields, follower: Fields, peer: u64, i: nat, l: Fields, f: Fields, l': Fields, f': Fields)
    requires InTouch(leader, follower, peer) && Progress(leader, follower, peer, i, l, f)
    requires ExchangeOutcome(l, f, l', f', peer)
    ensures Progress(leader, follower, peer, i + 1, l', f')
  {
    var next := NextIndexOf(leader, peer);
    var n := |leader.log|;
    var p := FittingPoint(leader, follower, next);
    if i <= next - p {
      assert Fitting(l, f, next - i) == Fitting(leader, follower, next - i);
    } else {
      assert n > 0 ==> f.log[n - 1] == leader.log[n - 1];
      assert Fitting(l, f, n);
    }
  }

  /**
   * Catch-up: the follower rejects exactly nextIndex - FittingPoint times, so at most nextIndex
   * times; nextIndex - 1 never wraps around; and after the first acceptance the follower holds
   * the leader's whole log for good.
   */
  lemma {:induction false} CatchUp(states: seq<(Fields, Fields)>, peer: u64, i: nat)
    requires i < |states| && InTouch(states[0].0, states[0].1, peer)
    requires forall k :: ExchangesAt(states, peer, k)
    ensures Progress(states[0].0, states[0].1, peer, i, states[i].0, states[i].1)
  {
    if i > 0 {
      CatchUp(states, peer, i - 1);
      assert ExchangesAt(states, peer, i - 1);
      ExchangeResult(states[i - 1].0, states[i - 1].1, peer);
      ProgressStep(states[0].0, states[0].1, peer, i - 1,
                   states[i - 1].0, states[i - 1].1, states[i].0, states[i].1);
    }
  }

  // ---------------------------------------------------------------- order of delivery

  /** A message of the leader whose log (now) is `log`, with whatever commit index. */
  ghost predicate FromLog(m: Append, log: Log, term: u64) {
    && m.term == term && End(m) <= |log|
    && (forall j :: SentAt(m, log, j))
    && (Begin(m) > 0 ==> m.prevLogTerm == log[Begin(m) - 1].term)
  }

  ghost predicate SentAt(m: Append, log: Log, j: nat) {
    j < |m.entries| && Begin(m) + j < |log| ==> m.entries[j] == log[Begin(m) + j]
  }

  function End(m: Append): nat {
    Begin(m) + |m.entries|
  }

  ghost predicate AllFromLog(ms: seq<Append>, log: Log, term: u64) {
    forall i :: 0 <= i < |ms| ==> FromLog(ms[i], log, term)
  }

  /** The messages were delivered one after the other, from state to state, and all accepted. */
  ghost predicate DeliversAt(states: seq<Fields>, ms: seq<Append>, i: nat) {
    i < |ms| && i + 1 < |states| ==>
      && FitsWords(states[i]) && AppendFits(states[i], ms[i])
      && AfterAppendEntries(states[i], ms[i]) == (states[i + 1], Reply(ms[i].term, true))
  }

  ghost predicate Delivers(states: seq<Fields>, ms: seq<Append>) {
    |states| == |ms| + 1 && forall i :: DeliversAt(states, ms, i)
  }

  /** How far into the leader's log the first `k` messages reach together. */
  ghost function Furthest(ms: seq<Append>, k: nat): (r: nat)
    requires k <= |ms|
    ensures forall i :: 0 <= i < k ==> End(ms[i]) <= r
    ensures r == 0 || exists i :: 0 <= i < k && End(ms[i]) == r
  {
    if k == 0 then 0
    else
      var r := Furthest(ms, k - 1);
      if End(ms[k - 1]) > r then End(ms[k - 1]) else r
  }

  /** What the follower's log must become: as it was if it held the part, else that part. */
  ghost function Settled(mine: Log, log: Log, m: int): (r: Log)
    requires 0 <= m <= |log|
    ensures m <= |r| && r[..m] == log[..m]
  {
    if m <= |mine| && mine[..m] == log[..m] then mine else log[..m]
  }

  /** One more accepted message only ever moves the settled point forward. */
  lemma SettledStep(mine: Log, log: Log, m: int, now: Log, next: nat, entries: Log)
    requires 0 <= m <= |log| && Matching(mine, log)
    requires now == Settled(mine, log, m) && Fits(now, log, next, entries)
    ensures
      var m' := next + |entries|;
      Merge(now, next, entries) == Settled(mine, log, if m' > m then m' else m)
  {
    var m' := next + |entries|;
    MergeResult(now, log, next, entries);
    if m' <= m {
      assert now[..m][..m'] == now[..m'] && log[..m][..m'] == log[..m'];
    } else if m' <= |mine| && mine[..m'] == log[..m'] {
      assert mine[..m'][..m] == mine[..m] && log[..m'][..m] == log[..m];
    }
  }

  /** An accepted message of the follower's own term merges its entries and takes its commit index. */
  lemma AcceptedMessage(r: Fields, log: Log, m: Append)
    requires FitsWords(r) && AppendFits(r, m) && r.role == Follower && r.currentTerm < MAX
    requires FromLog(m, log, r.currentTerm) && AfterAppendEntries(r, m).1.ok
    ensures Fits(r.log, log, Begin(m), m.entries)
    ensures AfterAppendEntries(r, m).0 == TakeCommit(r.(log := Merge(r.log, Begin(m), m.entries)), m.leaderCommit)
  {
    assert Wrap(m.prevLogIndex + 1) == Begin(m);
    forall j | 0 <= j < |m.entries| ensures m.entries[j] == log[Begin(m) + j] { assert SentAt(m, log, j); }
  }

  lemma AcceptedLog(r: Fields, log: Log, m: Append)
    requires FitsWords(r) && AppendFits(r, m) && r.role == Follower && r.currentTerm < MAX
    requires FromLog(m, log, r.currentTerm) && AfterAppendEntries(r, m).1.ok
    ensures
      var r' := AfterAppendEntries(r, m).0;
      && Fits(r.log, log, Begin(m), m.entries) && r'.log == Merge(r.log, Begin(m), m.entries)
      && r'.role == Follower && r'.currentTerm == r.currentTerm
  {
    AcceptedMessage(r, log, m);
  }

  /** What one of several deliveries does to the log. */
  lemma LogAfter(states: seq<Fields>, log: Log, ms: seq<Append>, k: nat)
    requires Delivers(states, ms) && k < |ms| && FromLog(ms[k], log, states[k].currentTerm)
    requires states[k].role == Follower && states[k].currentTerm < MAX
    ensures Fits(states[k].log, log, Begin(ms[k]), ms[k].entries)
    ensures states[k + 1].log == Merge(states[k].log, Begin(ms[k]), ms[k].entries)
    ensures states[k + 1].role == Follower && states[k + 1].currentTerm == states[k].currentTerm
  {
    assert DeliversAt(states, ms, k);
    AcceptedLog(states[k], log, ms[k]);
  }

  lemma OutcomeStep(states: seq<Fields>, log: Log, ms: seq<Append>, k: nat, mine: Log, reach: nat)
    requires Delivers(states, ms) && k < |ms| && FromLog(ms[k], log, states[k].currentTerm)
    requires states[k].role == Follower && states[k].currentTerm < MAX
    requires reach <= |log| && Matching(mine, log) && states[k].log == Settled(mine, log, reach)
    ensures states[k + 1].log == Settled(mine, log, if End(ms[k]) > reach then End(ms[k]) else reach)
    ensures states[k + 1].role == Follower && states[k + 1].currentTerm == states[k].currentTerm
  {
    LogAfter(states, log, ms, k);
    SettledStep(mine, log, reach, states[k].log, Begin(ms[k]), ms[k].entries);
  }

  /** After any accepted deliveries the log depends only on how far the messages reach. */
  lemma {:induction false} DeliveryOutcome(states: seq<Fields>, log: Log, ms: seq<Append>, k: nat)
    requires Delivers(states, ms) && k <= |ms|
    requires states[0].role == Follower && states[0].currentTerm < MAX && Matching(states[0].log, log)
    requires AllFromLog(ms, log, states[0].currentTerm)
    ensures
      && Furthest(ms, k) <= |log|
      && states[k].log == Settled(states[0].log, log, Furthest(ms, k))
      && states[k].role == Follower && states[k].currentTerm == states[0].currentTerm
  {
    if k == 0 {
      assert states[0].log[..0] == log[..0];
    } else {
      DeliveryOutcome(states, log, ms, k - 1);
      OutcomeStep(states, log, ms, k - 1, states[0].log, Furthest(ms, k - 1));
    }
  }

  ghost predicate SameMessages(ms: seq<Append>, ms': seq<Append>) {
    forall m :: m in ms <==> m in ms'
  }

  lemma SameReach(ms: seq<Append>, ms': seq<Append>)
    requires SameMessages(ms, ms')
    ensures Furthest(ms, |ms|) <= Furthest(ms', |ms'|)
  {
    if Furthest(ms, |ms|) != 0 {
      var i :| 0 <= i < |ms| && End(ms[i]) == Furthest(ms, |ms|);
      assert ms[i] in ms';
    }
  }

  /**
   * Delivery-order independence: two deliveries of the same messages, in whatever orders, with
   * whatever repeats and whatever commit indexes in them, leave the same log.
   */
  lemma DeliveryOrderIndependence(states: seq<Fields>, ms: seq<Append>, states': seq<Fields>, ms': seq<Append>, log: Log)
    requires Delivers(states, ms) && Delivers(states', ms') && states[0] == states'[0] && SameMessages(ms, ms')
    requires states[0].role == Follower && states[0].currentTerm < MAX && Matching(states[0].log, log)
    requires AllFromLog(ms, log, states[0].currentTerm)
    ensures states[|ms|].log == states'[|ms'|].log
  {
    forall i | 0 <= i < |ms'| ensures FromLog(ms'[i], log, states[0].currentTerm) {
      assert ms'[i] in ms;
    }
    DeliveryOutcome(states, log, ms, |ms|);
    DeliveryOutcome(states', log, ms', |ms'|);
    SameReach(ms, ms');
    SameReach(ms', ms);
  }

  /** A late, shorter message never erases what a longer one brought. */
  lemma NothingIsErased(states: seq<Fields>, log: Log, ms: seq<Append>, i: nat)
    requires Delivers(states, ms) && i < |ms|
    requires states[0].role == Follower && states[0].currentTerm < MAX && Matching(states[0].log, log)
    requires AllFromLog(ms, log, states[0].currentTerm)
    ensures End(ms[i]) <= |log| && log[..End(ms[i])] <= states[|ms|].log
  {
    DeliveryOutcome(states, log, ms, |ms|);
    var f := Furthest(ms, |ms|);
    assert FromLog(ms[i], log, states[0].currentTerm);
    assert log[..f][..End(ms[i])] == log[..End(ms[i])];
  }

  // ---------------------------------------------------------------- commit indexes in messages

  /** A real commit index within what the message brings. */
  predicate PlainCommit(m: Append) {
    m.leaderCommit != MAX && m.leaderCommit < End(m)
  }

  ghost function LargestCommit(start: int, ms: seq<Append>, k: nat): (r: int)
    requires k <= |ms|
    ensures r >= start && forall i :: 0 <= i < k ==> FromWord(ms[i].leaderCommit) <= r
    ensures r == start || exists i :: 0 <= i < k && FromWord(ms[i].leaderCommit) == r
  {
    if k == 0 then start
    else
      var r := LargestCommit(start, ms, k - 1);
      if FromWord(ms[k - 1].leaderCommit) > r then FromWord(ms[k - 1].leaderCommit) else r
  }

  lemma PlainCommitTaken(r: Fields, log: Log, m: Append)
    requires FitsWords(r) && AppendFits(r, m) && r.role == Follower && r.currentTerm < MAX && Matching(r.log, log)
    requires FromLog(m, log, r.currentTerm) && AfterAppendEntries(r, m).1.ok && PlainCommit(m)
    ensures FromWord(AfterAppendEntries(r, m).0.commitIndex)
            == if m.leaderCommit > FromWord(r.commitIndex) then m.leaderCommit else FromWord(r.commitIndex)
  {
    TakenCommon(r, log, m);
    TakenAsWritten(r, m);
  }

  lemma StillMatching(states: seq<Fields>, log: Log, ms: seq<Append>, k: nat)
    requires Delivers(states, ms) && k <= |ms|
    requires states[0].role == Follower && states[0].currentTerm < MAX && Matching(states[0].log, log)
    requires AllFromLog(ms, log, states[0].currentTerm)
    ensures Matching(states[k].log, log) && states[k].role == Follower && states[k].currentTerm == states[0].currentTerm
  {
    DeliveryOutcome(states, log, ms, k);
  }

  /** With plain commit indexes the follower's ends as the largest of them, whatever the order. */
  lemma {:induction false} CommitOutcome(states: seq<Fields>, log: Log, ms: seq<Append>, k: nat)
    requires Delivers(states, ms) && k <= |ms|
    requires states[0].role == Follower && states[0].currentTerm < MAX && Matching(states[0].log, log)
    requires AllFromLog(ms, log, states[0].currentTerm) && forall i :: 0 <= i < |ms| ==> PlainCommit(ms[i])
    ensures FromWord(states[k].commitIndex) == LargestCommit(FromWord(states[0].commitIndex), ms, k)
  {
    if k > 0 {
      CommitOutcome(states, log, ms, k - 1);
      StillMatching(states, log, ms, k - 1);
      assert DeliversAt(states, ms, k - 1) && FromLog(ms[k - 1], log, states[0].currentTerm);
      PlainCommitTaken(states[k - 1], log, ms[k - 1]);
    }
  }

  lemma SameLargest(ms: seq<Append>, ms': seq<Append>, start: int)
    requires SameMessages(ms, ms')
    ensures LargestCommit(start, ms, |ms|) <= LargestCommit(start, ms', |ms'|)
  {
    if LargestCommit(start, ms, |ms|) != start {
      var i :| 0 <= i < |ms| && FromWord(ms[i].leaderCommit) == LargestCommit(start, ms, |ms|);
      assert ms[i] in ms';
    }
  }

  /** So the commit index does not depend on the order either. */
  lemma CommitOrderIndependence(states: seq<Fields>, ms: seq<Append>, states': seq<Fields>, ms': seq<Append>, log: Log)
    requires Delivers(states, ms) && Delivers(states', ms') && states[0] == states'[0] && SameMessages(ms, ms')
    requires states[0].role == Follower && states[0].currentTerm < MAX && Matching(states[0].log, log)
    requires AllFromLog(ms, log, states[0].currentTerm) && forall i :: 0 <= i < |ms| ==> PlainCommit(ms[i])
    ensures states[|ms|].commitIndex == states'[|ms'|].commitIndex
  {
    forall i | 0 <= i < |ms'| ensures FromLog(ms'[i], log, states[0].currentTerm) && PlainCommit(ms'[i]) {
      assert ms'[i] in ms;
    }
    CommitOutcome(states, log, ms, |ms|);
    CommitOutcome(states', log, ms', |ms'|);
    SameLargest(ms, ms', FromWord(states[0].commitIndex));
    SameLargest(ms', ms, FromWord(states[0].commitIndex));
  }

  /**
   * A commit index read after the entries were copied may lie beyond them, and the follower then
   * commits up to the end of its own log. That is what the leader committed exactly if the entries
   * conflict with the follower's log, or reach as far, or the follower's log has at that index an
   * entry of the leader's term.
   */
  lemma LateCommit(r: Fields, log: Log, m: Append)
    requires FitsWords(r) && AppendFits(r, m) && r.role == Follower && r.currentTerm < MAX && Matching(r.log, log)
    requires FromLog(m, log, r.currentTerm) && Taken(r, m) && (r.log != [] || m.entries != [])
    requires FromWord(r.commitIndex) < m.leaderCommit < |log| < MAX
    ensures
      var r' := AfterAppendEntries(r, m).0;
      var c := Min(m.leaderCommit, |r.log| - 1);
      && FromWord(r'.commitIndex) < |r'.log|
      && (r'.log[..FromWord(r'.commitIndex) + 1] <= log <==>
            || Agreeing(r.log, Begin(m), m.entries) < |m.entries|
            || c < End(m)
            || r.log[c].term == log[c].term)
  {
    TakenCommon(r, log, m);
    LateCommitTaken(r, m);
    var r' := AfterAppendEntries(r, m).0;
    MergeLength(r, m);
    LateCommitReach(r.log, r'.log, log, End(m), m.leaderCommit, Agreeing(r.log, Begin(m), m.entries) < |m.entries|);
  }

  /** The same on logs alone: `cut` says that the entries conflicted. */
  lemma LateCommitReach(mine: Log, merged: Log, log: Log, end: nat, leaderCommit: nat, cut: bool)
    requires Matching(merged, log) && end <= |merged| && end <= |log| && merged[..end] == log[..end] && merged != []
    requires leaderCommit < |log| && if cut then |merged| == end else merged == mine
    ensures
      var c := Min(leaderCommit, |mine| - 1);
      merged[..Min(leaderCommit, |merged| - 1) + 1] <= log <==> cut || c < end || mine[c].term == log[c].term
  {
    CommonUpTo(merged, log, end, Min(leaderCommit, |merged| - 1));
  }

  lemma LateCommitTaken(r: Fields, m: Append)
    requires FitsWords(r) && AppendFits(r, m) && r.role == Follower && m.term == r.currentTerm < MAX
    requires Taken(r, m) && (r.log != [] || m.entries != []) && FromWord(r.commitIndex) < m.leaderCommit < MAX
    ensures
      var r' := AfterAppendEntries(r, m).0;
      r'.log != [] && r'.commitIndex == Min(m.leaderCommit, |r'.log| - 1)
  {
    TakenAsWritten(r, m);
    EmptyMerge(r.log, Wrap(m.prevLogIndex + 1), m.entries);
  }

  /** A conflict cuts the log at the end of the entries; without one it stays. */
  lemma MergeLength(r: Fields, m: Append)
    requires FitsWords(r) && AppendFits(r, m) && Taken(r, m)
    ensures
      var merged := AfterAppendEntries(r, m).0.log;
      if Agreeing(r.log, Begin(m), m.entries) < |m.entries| then |merged| == End(m) else merged == r.log
  {
    TakenLog(r, m);
  }

  lemma TakenCommon(r: Fields, log: Log, m: Append)
    requires FitsWords(r) && AppendFits(r, m) && r.role == Follower && r.currentTerm < MAX && Matching(r.log, log)
    requires FromLog(m, log, r.currentTerm) && AfterAppendEntries(r, m).1.ok
    ensures
      var mine := AfterAppendEntries(r, m).0.log;
      Matching(mine, log) && End(m) <= |mine| && mine[..End(m)] == log[..End(m)]
  {
    AcceptedLog(r, log, m);
    MergeResult(r.log, log, Begin(m), m.entries);
    MergedMatches(r.log, log, m);
  }

  lemma CommonUpTo(mine: Log, log: Log, end: nat, c: nat)
    requires Matching(mine, log) && end <= |mine| && end <= |log| && mine[..end] == log[..end]
    requires c < |mine| && c < |log|
    ensures mine[..c + 1] <= log <==> mine[c].term == log[c].term
    ensures c < end ==> mine[..c + 1] <= log
  {
    assert MatchAt(mine, log, c);
    if c < end { assert mine[..end][c] == mine[c] && log[..end][c] == log[c]; }
    if mine[..c + 1] <= log { assert mine[..c + 1][c] == mine[c]; }
  }

  lemma MergedMatches(mine: Log, log: Log, m: Append)
    requires Matching(mine, log) && Fits(mine, log, Begin(m), m.entries)
    ensures Matching(Merge(mine, Begin(m), m.entries), log)
  {
    MergeResult(mine, log, Begin(m), m.entries);
  }

  /** Otherwise it commits an entry of its own: the heartbeat was built before the leader's first entry. */
  lemma LateCommitOfAnotherEntry(x: Command, y: Command)
    ensures
      var r := Fields(1, {0, 2}, 2, MAX, [Entry(1, x)], Follower, map[], map[], MAX, MAX, 0, []);
      var log := [Entry(2, y)];
      var m := Append(2, 0, MAX, MAX, [], 0);
      && Matching(r.log, log) && FromLog(m, log, 2) && m.leaderCommit < |log|
      && var r' := AfterAppendEntries(r, m).0;
      r'.commitIndex == 0 && r'.log == [Entry(1, x)]
  {
    var mine, log := [Entry(1, x)], [Entry(2, y)];
    forall i ensures MatchAt(mine, log, i) {}
  }
}
