/**
 * The safety theorems of Raft for every run of the cluster. Two moments i and j of the run are
 * never ordered unless a theorem says so: "at most one leader" means ever, not at a time.
 */
module RaftSafety {
  import opened RaftNode
  import opened RaftCluster
  import opened RaftInvariant
  import opened RaftHistory
  import opened RaftVoteSteps
  import opened RaftLogSteps

  const NO_HISTORY := History(map[], {}, map[], map[])

  lemma InitialInvariant(c: Cluster)
    requires Init(c)
    ensures Inv(c, NO_HISTORY)
  {
    var h := NO_HISTORY;
    assert forall id :: LogOk(h, []) ==> NodeLogOk(c, h, id);
    assert LogOk(h, []) by { forall i ensures EntryOk(h, [], i) {} }
    forall id ensures NodeCommitOk(c, h, id) {
      if id in c.nodes { assert c.nodes[id].log[..0] == []; }
    }
  }

  /** Every step of every handler keeps the invariant, for a history that only grows. */
  lemma StepKeepsInvariant(c: Cluster, h: History, step: Step) returns (h': History)
    requires Inv(c, h) && Enabled(c, step)
    ensures Extends(h, h') && Inv(Apply(c, step), h')
  {
    h' := h;
    match step
    case Timeout(id) => h' := TimeoutStep(c, h, id);
    case ReceiveVoteRequest(id, m) => h' := VoteRequestStep(c, h, id, m);
    case ReceiveVoteReply(id, m) => h' := VoteReplyStep(c, h, id, m);
    case Submit(id, command) => h' := SubmitStep(c, h, id, command);
    case Send(id, peer) => SendStep(c, h, id, peer);
    case ReceiveAppend(id, m) => h' := ReceiveAppendStep(c, h, id, m);
    case ReceiveAppendReply(id, m) => ReceiveAppendReplyStep(c, h, id, m);
    case Pump(id) => PumpStep(c, h, id);
  }

  ghost predicate HistoryAt(run: seq<Cluster>, hs: seq<History>, i: nat) {
    i < |run| && i < |hs| ==> Inv(run[i], hs[i])
  }

  ghost predicate GrowsBetween(run: seq<Cluster>, hs: seq<History>, i: nat, j: nat) {
    i <= j < |run| && j < |hs| ==> Extends(hs[i], hs[j]) && run[i].nodes.Keys == run[j].nodes.Keys
  }

  ghost predicate HistoriesOf(run: seq<Cluster>, hs: seq<History>) {
    && |hs| == |run|
    && (forall i :: HistoryAt(run, hs, i))
    && (forall i, j :: GrowsBetween(run, hs, i, j))
  }

  lemma OneMore(run: seq<Cluster>, hs: seq<History>, c: Cluster, h: History)
    requires |run| > 0 && HistoriesOf(run, hs) && Inv(c, h)
    requires Extends(hs[|run| - 1], h) && run[|run| - 1].nodes.Keys == c.nodes.Keys
    ensures HistoriesOf(run + [c], hs + [h])
  {
    var last := |run|;
    forall i ensures HistoryAt(run + [c], hs + [h], i) { assert HistoryAt(run, hs, i); }
    forall i: nat, j: nat ensures GrowsBetween(run + [c], hs + [h], i, j) {
      assert GrowsBetween(run, hs, i, j) && GrowsBetween(run, hs, i, last - 1);
      if i < last && j == last { ExtendsTransitive(hs[i], hs[last - 1], h); }
    }
  }

  lemma {:induction false} RunHistories(run: seq<Cluster>) returns (hs: seq<History>)
    requires IsRun(run)
    ensures HistoriesOf(run, hs)
  {
    var last := |run| - 1;
    if last == 0 {
      InitialInvariant(run[0]);
      hs := [NO_HISTORY];
    } else {
      var front := run[..last];
      forall i ensures StepAt(front, i) { assert StepAt(run, i); }
      var before := RunHistories(front);
      assert HistoryAt(front, before, last - 1);
      assert StepAt(run, last);
      var h' := NextKeepsInvariant(run[last - 1], before[last - 1], run[last]);
      OneMore(front, before, run[last], h');
      assert run == front + [run[last]];
      hs := before + [h'];
    }
  }

  lemma NextKeepsInvariant(c: Cluster, h: History, c': Cluster) returns (h': History)
    requires Inv(c, h) && Next(c, c')
    ensures Extends(h, h') && Inv(c', h') && c'.nodes.Keys == c.nodes.Keys
  {
    var step :| Enabled(c, step) && c' == Apply(c, step);
    h' := StepKeepsInvariant(c, h, step);
  }

  /** The history at the later of two moments, seen from both. */
  lemma LaterHistory(run: seq<Cluster>, i: nat, j: nat) returns (hi: History, hj: History, c: Cluster, h: History)
    requires IsRun(run) && i < |run| && j < |run|
    ensures Inv(run[i], hi) && Inv(run[j], hj) && Inv(c, h)
    ensures Extends(hi, h) && Extends(hj, h)
    ensures c.nodes.Keys == run[i].nodes.Keys == run[j].nodes.Keys
  {
    var hs := RunHistories(run);
    var k := if i < j then j else i;
    assert HistoryAt(run, hs, i) && HistoryAt(run, hs, j) && HistoryAt(run, hs, k);
    assert GrowsBetween(run, hs, i, k) && GrowsBetween(run, hs, j, k);
    hi, hj, c, h := hs[i], hs[j], run[k], hs[k];
  }

  ghost predicate LeadsAt(c: Cluster, id: Id, term: nat) {
    id in c.nodes && c.nodes[id].role == Leader && c.nodes[id].currentTerm == term
  }

  /** Election safety: no term ever has two leaders. */
  lemma ElectionSafety(run: seq<Cluster>, i: nat, j: nat, a: Id, b: Id, term: nat)
    requires IsRun(run) && i < |run| && j < |run|
    requires LeadsAt(run[i], a, term) && LeadsAt(run[j], b, term)
    ensures a == b
  {
    var hi, hj, c, h := LaterHistory(run, i, j);
    assert NodeElectionOk(run[i], hi, a) && NodeElectionOk(run[j], hj, b);
    assert ElectionKept(hi, h, term) && ElectionKept(hj, h, term);
  }

  /** Log matching: logs that ever held the same term at the same index agreed up to it. */
  lemma LogMatching(run: seq<Cluster>, i: nat, j: nat, a: Id, b: Id, x: nat)
    requires IsRun(run) && i < |run| && j < |run| && a in run[i].nodes && b in run[j].nodes
    requires x < |run[i].nodes[a].log| && x < |run[j].nodes[b].log|
    requires run[i].nodes[a].log[x].term == run[j].nodes[b].log[x].term
    ensures run[i].nodes[a].log[..x + 1] == run[j].nodes[b].log[..x + 1]
  {
    var hi, hj, c, h := LaterHistory(run, i, j);
    assert NodeLogOk(run[i], hi, a) && NodeLogOk(run[j], hj, b);
    LogOkStays(hi, h, run[i].nodes[a].log);
    LogOkStays(hj, h, run[j].nodes[b].log);
    SameTermSamePrefix(h, run[i].nodes[a].log, run[j].nodes[b].log, x);
  }

  /** Two committed logs agree as far as both reach. */
  lemma CommittedAgree(c: Cluster, h: History, a: Log, b: Log, ta: nat, tb: nat)
    requires ElectionInv(c, h) && SafeInv(c, h)
    requires CommittedLog(c, h, a, ta) && CommittedLog(c, h, b, tb)
    ensures a <= b || b <= a
  {
    if a != [] && b != [] {
      var t: nat, k: nat :| t <= ta && WithinChosen(c, h, a, t, k);
      var u: nat, l: nat :| u <= tb && WithinChosen(c, h, b, u, l);
      var log := h.elections[if t < u then u else t].log;
      ChosenIsChoosable(c, h, t, k);
      ChosenIsChoosable(c, h, u, l);
      LeaderHolds(c, h, t, k, if t < u then u else t);
      LeaderHolds(c, h, u, l, if t < u then u else t);
      assert a <= log && b <= log;
    }
  }

  /** A node's committed prefix at one moment, as committed at a later one. */
  lemma CommittedAt(c: Cluster, h: History, c': Cluster, h': History, id: Id) returns (log: Log, term: nat)
    requires Inv(c, h) && Extends(h, h') && c'.nodes.Keys == c.nodes.Keys && id in c.nodes
    ensures -1 <= c.nodes[id].commitIndex < |c.nodes[id].log|
    ensures log == c.nodes[id].log[..c.nodes[id].commitIndex + 1]
    ensures term == c.nodes[id].currentTerm
    ensures CommittedLog(c', h', log, term)
  {
    assert NodeCommitOk(c, h, id);
    log, term := c.nodes[id].log[..c.nodes[id].commitIndex + 1], c.nodes[id].currentTerm;
    CommittedStays(c, h, c', h', log, term, term);
  }

  /**
   * Leader completeness: all a leader of one term ever counted as committed is in the log of
   * every leader of every later term, whichever of the two is looked at first.
   */
  lemma LeaderCompleteness(run: seq<Cluster>, i: nat, j: nat, a: Id, b: Id, t: nat, u: nat)
    requires IsRun(run) && i < |run| && j < |run|
    requires LeadsAt(run[i], a, t) && LeadsAt(run[j], b, u) && t < u
    ensures -1 <= run[i].nodes[a].commitIndex < |run[i].nodes[a].log|
    ensures run[i].nodes[a].log[..run[i].nodes[a].commitIndex + 1] <= run[j].nodes[b].log
  {
    var hi, hj, c, h := LaterHistory(run, i, j);
    var log, term := CommittedAt(run[i], hi, c, h, a);
    assert NodeElectionOk(run[j], hj, b) && NodeLogOk(run[j], hj, b) && ElectionOk(run[j], hj, u);
    assert ElectionKept(hj, h, u);
    if log != [] {
      var t', k :| t' <= term && WithinChosen(c, h, log, t', k);
      ChosenIsChoosable(c, h, t', k);
      assert Complete(c, h, u, t', k);
    }
  }

  /** State machine safety: no two servers ever push different commands with the same index. */
  lemma StateMachineSafety(run: seq<Cluster>, i: nat, j: nat, a: Id, b: Id, x: nat, y: nat)
    requires IsRun(run) && i < |run| && j < |run| && a in run[i].nodes && b in run[j].nodes
    requires x < |run[i].nodes[a].pushed| && y < |run[j].nodes[b].pushed|
    requires run[i].nodes[a].pushed[x].index == run[j].nodes[b].pushed[y].index
    ensures run[i].nodes[a].pushed[x].command == run[j].nodes[b].pushed[y].command
  {
    var hi, hj, c, h := LaterHistory(run, i, j);
    var la, ta := CommittedAt(run[i], hi, c, h, a);
    var lb, tb := CommittedAt(run[j], hj, c, h, b);
    CommittedAgree(c, h, la, lb, ta, tb);
    assert NodeCommitOk(run[i], hi, a) && NodeCommitOk(run[j], hj, b);
    assert la[x] == run[i].nodes[a].log[x] && lb[y] == run[j].nodes[b].log[y];
  }

  /** Committed prefixes, of whichever servers at whichever moments, never contradict each other. */
  lemma CommittedPrefixesAgree(run: seq<Cluster>, i: nat, j: nat, a: Id, b: Id)
    requires IsRun(run) && i < |run| && j < |run| && a in run[i].nodes && b in run[j].nodes
    ensures -1 <= run[i].nodes[a].commitIndex < |run[i].nodes[a].log|
    ensures -1 <= run[j].nodes[b].commitIndex < |run[j].nodes[b].log|
    ensures
      var p := run[i].nodes[a].log[..run[i].nodes[a].commitIndex + 1];
      var q := run[j].nodes[b].log[..run[j].nodes[b].commitIndex + 1];
      p <= q || q <= p
  {
    var hi, hj, c, h := LaterHistory(run, i, j);
    var la, ta := CommittedAt(run[i], hi, c, h, a);
    var lb, tb := CommittedAt(run[j], hj, c, h, b);
    CommittedAgree(c, h, la, lb, ta, tb);
  }

  /** No step moves a commit index back. */
  lemma CommitIndexGrows(c: Cluster, h: History, step: Step, id: Id)
    requires Inv(c, h) && Enabled(c, step) && id in c.nodes
    ensures id in Apply(c, step).nodes
    ensures c.nodes[id].commitIndex <= Apply(c, step).nodes[id].commitIndex
  {
    if step.ReceiveAppend? && step.id == id { AppendKeepsCommitIndex(c, h, id, step.m); }
  }

  lemma AppendKeepsCommitIndex(c: Cluster, h: History, id: Id, m: Message)
    requires Inv(c, h) && id in c.nodes && m in c.msgs && m.AppendEntries?
    ensures c.nodes[id].commitIndex <= OnAppendEntries(c.nodes[id], m).0.commitIndex
  {
    var n := c.nodes[id];
    assert AppendMsgOk(c, h, m);
    if m.term >= n.currentTerm && Accepts(n.log, m.prevLogIndex, m.prevLogTerm) {
      MergedIsAccepted(c, h, id, m, OnAppendEntries(n, m).0);
    }
  }

  lemma {:induction false} CommitIndexMonotone(run: seq<Cluster>, i: nat, j: nat, id: Id)
    requires IsRun(run) && i <= j < |run| && id in run[i].nodes
    ensures id in run[j].nodes && run[i].nodes[id].commitIndex <= run[j].nodes[id].commitIndex
    decreases j
  {
    if i < j {
      CommitIndexMonotone(run, i, j - 1, id);
      var hs := RunHistories(run);
      assert HistoryAt(run, hs, j - 1);
      assert StepAt(run, j);
      var step :| Enabled(run[j - 1], step) && run[j] == Apply(run[j - 1], step);
      CommitIndexGrows(run[j - 1], hs[j - 1], step, id);
    }
  }

  /** Durability: what a server has committed is in its log for the rest of the run. */
  lemma CommittedForever(run: seq<Cluster>, i: nat, j: nat, id: Id)
    requires IsRun(run) && i <= j < |run| && id in run[i].nodes
    ensures id in run[j].nodes && -1 <= run[i].nodes[id].commitIndex < |run[i].nodes[id].log|
    ensures run[i].nodes[id].log[..run[i].nodes[id].commitIndex + 1] <= run[j].nodes[id].log
  {
    CommitIndexMonotone(run, i, j, id);
    CommittedPrefixesAgree(run, i, j, id, id);
  }

  /**
   * Exactly-once ordered delivery: in every reachable state what a server has pushed carries the
   * indexes 0, 1, 2, ... in order, is its log up to lastApplied, and is all that is committed
   * once no signal is pending.
   */
  lemma DeliveryIsTheCommittedLog(run: seq<Cluster>, i: nat, id: Id)
    requires IsRun(run) && i < |run| && id in run[i].nodes
    ensures
      var n := run[i].nodes[id];
      && -1 <= n.lastApplied <= n.commitIndex < |n.log|
      && |n.pushed| == n.lastApplied + 1
      && (forall x :: 0 <= x < |n.pushed| ==> n.pushed[x].index == x && n.pushed[x].command == n.log[x].command)
      && (n.signals == 0 ==> n.lastApplied == n.commitIndex)
  {
    var hs := RunHistories(run);
    assert HistoryAt(run, hs, i);
    assert NodeCommitOk(run[i], hs[i], id);
  }

  /** No leader ever holds a nextIndex outside its log, so sending never slices out of range. */
  lemma NextIndexStaysInLog(run: seq<Cluster>, i: nat, id: Id, peer: Id)
    requires IsRun(run) && i < |run| && id in run[i].nodes && run[i].nodes[id].role == Leader
    ensures 0 <= NextIndex(run[i].nodes[id], peer) <= |run[i].nodes[id].log|
  {
    var hs := RunHistories(run);
    assert HistoryAt(run, hs, i);
    assert NodeCommitOk(run[i], hs[i], id);
  }
}
