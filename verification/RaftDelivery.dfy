/** The pump as written among commits of any kind: what it has handed over, in what order. */
module RaftDelivery {
  import opened Basics
  import opened RaftNode
  import opened RaftMerge
  import opened RaftAsWritten
  import opened RaftRefinement

  /** A step that may move the commit index forward, keeps what is committed, and signals a move. */
  ghost predicate Advances(r: Fields, r': Fields) {
    && r'.lastApplied == r.lastApplied && r'.pushed == r.pushed
    && FromWord(r.commitIndex) <= FromWord(r'.commitIndex) < |r'.log| < MAX
    && FromWord(r.commitIndex) < |r.log| && r.log[..FromWord(r.commitIndex) + 1] <= r'.log
    && r'.signals >= r.signals && (r'.commitIndex != r.commitIndex ==> r'.signals > r.signals)
  }

  ghost predicate Pumps(r: Fields, r': Fields) {
    r.signals > 0 && PumpInRange(r) && |r.log| < MAX && r' == AfterPump(r)
  }

  ghost predicate GoesAt(run: seq<Fields>, i: nat) {
    i + 1 < |run| ==> Advances(run[i], run[i + 1]) || Pumps(run[i], run[i + 1])
  }

  /** Any interleaving of commit advances and turns of the pump, from a node that has committed nothing. */
  ghost predicate DeliveryRun(run: seq<Fields>) {
    && |run| > 0 && run[0].commitIndex == run[0].lastApplied == MAX && run[0].pushed == [] && |run[0].log| < MAX
    && forall i :: GoesAt(run, i)
  }

  /** What was handed over is the log up to lastApplied, entry by entry, each with its own index. */
  ghost predicate Delivered(r: Fields) {
    && FromWord(r.lastApplied) <= FromWord(r.commitIndex) < |r.log| < MAX
    && |r.pushed| == FromWord(r.lastApplied) + 1
    && (forall x :: 0 <= x < |r.pushed| ==> r.pushed[x].index == x && r.pushed[x].command == r.log[x].command)
    && (r.signals == 0 ==> r.lastApplied == r.commitIndex)
  }

  lemma PumpKeeps(r: Fields)
    requires Delivered(r) && r.signals > 0
    ensures PumpInRange(r) && Delivered(AfterPump(r))
  {
    var r' := AfterPump(r);
    if PumpHasWork(r) {
      var from, to := Wrap(r.lastApplied + 1), Wrap(r.commitIndex + 1);
      var more := NewlyApplied(r, to - from);
      forall x | 0 <= x < |r'.pushed| ensures r'.pushed[x].index == x && r'.pushed[x].command == r.log[x].command {
        if x >= |r.pushed| {
          assert r'.pushed[x] == more[x - from];
          assert Wrap(r.lastApplied + (x - from) + 1) == x;
        }
      }
    }
  }

  /**
   * Exactly-once ordered delivery as written: at every moment of every interleaving the pump's
   * slice is in range, what it has handed over is log[0..lastApplied] with indexes 0, 1, 2, ...,
   * and once no signal is pending that is everything committed.
   */
  lemma {:induction false} OrderedDelivery(run: seq<Fields>, i: nat)
    requires DeliveryRun(run) && i < |run|
    ensures Delivered(run[i]) && PumpInRange(run[i])
  {
    if i > 0 {
      OrderedDelivery(run, i - 1);
      assert GoesAt(run, i - 1);
      if !Advances(run[i - 1], run[i]) { PumpKeeps(run[i - 1]); }
    }
  }

  // ---------------------------------------------------------------- the handlers advance

  /** A reply to an append, whatever it does to the leader, advances. */
  lemma ReplyAdvances(r: Fields, peer: u64, myTerm: u64, next: u64, count: u64, reply: Reply)
    requires FitsWords(r) && FromWord(r.commitIndex) < |r.log|
    ensures Advances(r, AfterAppendReply(r, peer, myTerm, next, count, reply))
  {
    assert r.log[..FromWord(r.commitIndex) + 1] <= r.log;
  }

  lemma SubmitAdvances(r: Fields, command: Command)
    requires |r.log| + 1 < MAX && FromWord(r.commitIndex) < |r.log|
    ensures Advances(r, r.(log := r.log + [Entry(r.currentTerm, command)]))
  {
    assert r.log[..FromWord(r.commitIndex) + 1] <= r.log + [Entry(r.currentTerm, command)];
  }

  /**
   * An append advances exactly if it is refused, or its first conflict with the log lies beyond
   * what is committed and it brings no commit index to a node without any entry.
   */
  lemma AppendAdvancesIff(r: Fields, req: Append)
    requires FitsWords(r) && AppendFits(r, req) && FromWord(r.commitIndex) < |r.log| && r.currentTerm < MAX
    ensures Advances(r, AfterAppendEntries(r, req).0) <==>
            (Taken(r, req) ==>
               && ConflictsBeyond(r.log, Begin(req), req.entries, FromWord(r.commitIndex) + 1)
               && !CommitsNothing(r, req))
  {
    assert r.log[..FromWord(r.commitIndex) + 1] <= r.log;
    if Taken(r, req) {
      var log := Merge(r.log, Wrap(req.prevLogIndex + 1), req.entries);
      TakenAsWritten(r, req);
      EmptyMerge(r.log, Wrap(req.prevLogIndex + 1), req.entries);
      TakenAdvancesIff(r, req.term, log, req.leaderCommit);
      assert Wrap(req.prevLogIndex + 1) == Begin(req);
      MergeKeepsIff(r.log, Begin(req), req.entries, FromWord(r.commitIndex) + 1);
    }
  }

  lemma TakenAdvancesIff(r: Fields, term: u64, log: Log, leaderCommit: u64)
    requires FromWord(r.commitIndex) < |r.log| && |log| < MAX
    ensures Advances(r, TakeCommit(MergedFields(r, term, log), leaderCommit)) <==>
            && r.log[..FromWord(r.commitIndex) + 1] <= log
            && !(leaderCommit != MAX && leaderCommit > FromWord(r.commitIndex) && log == [])
  {
  }
}
