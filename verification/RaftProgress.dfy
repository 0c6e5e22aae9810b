/**
 * What the safety theorems leave open: that anything happens at all. From every state a run can
 * reach, whatever was lost, reordered or left behind by old leaders, the cluster can still take a
 * new command and hand it to the store of every server.
 */
module RaftProgress {
  import opened RaftNode
  import opened RaftCluster
  import opened RaftInvariant
  import opened RaftSafety

  lemma Member<T>(s: set<T>) returns (x: T)
    requires s != {}
    ensures x in s
  {
    x :| x in s;
  }

  function Last(run: seq<Cluster>): Cluster
    requires |run| > 0
  {
    run[|run| - 1]
  }

  /** The run goes on with one step. */
  lemma Take(run: seq<Cluster>, step: Step) returns (run': seq<Cluster>)
    requires IsRun(run) && Enabled(Last(run), step)
    ensures IsRun(run') && run <= run' && Last(run') == Apply(Last(run), step)
  {
    run' := run + [Apply(Last(run), step)];
    forall i ensures StepAt(run', i) { assert StepAt(run, i); }
  }

  predicate Delivers(n: Node) {
    -1 <= n.lastApplied <= n.commitIndex < |n.log| && (n.commitIndex > n.lastApplied ==> n.signals > 0)
  }

  /** What is known of a node in a reachable state. */
  lemma Reached(run: seq<Cluster>, id: Id)
    requires IsRun(run) && id in Last(run).nodes
    ensures
      var n := Last(run).nodes[id];
      && Delivers(n) && TermsUpTo(n.log, n.currentTerm)
      && (n.role == Leader ==> forall p :: 0 <= NextIndex(n, p) <= |n.log|)
  {
    var hs := RunHistories(run);
    assert HistoryAt(run, hs, |run| - 1);
    assert NodeCommitOk(Last(run), hs[|run| - 1], id) && NodeLogOk(Last(run), hs[|run| - 1], id);
  }

  // ---------------------------------------------------------------- somebody may stand

  /** A leader sends to a peer, which takes the message. */
  lemma Deliver(run: seq<Cluster>, p: Id, v: Id) returns (run': seq<Cluster>)
    requires IsRun(run) && p in Last(run).nodes && v in Last(run).nodes && p != v && Last(run).nodes[p].role == Leader
    requires 0 <= NextIndex(Last(run).nodes[p], v) <= |Last(run).nodes[p].log|
    ensures IsRun(run') && run <= run'
    ensures
      var c, c' := Last(run), Last(run');
      var (n, reply) := OnAppendEntries(c.nodes[v], AppendFor(c.nodes[p], p, v));
      c'.nodes == c.nodes[v := n] && reply in c'.msgs
  {
    var m := AppendFor(Last(run).nodes[p], p, v);
    run' := Take(run, Send(p, v));
    assert Last(run').nodes == Last(run).nodes;
    run' := Take(run', ReceiveAppend(v, m));
  }

  /** Of two leaders the one of the later term puts the other down. */
  lemma OneStepsDown(run: seq<Cluster>, w: Id, v: Id) returns (run': seq<Cluster>)
    requires IsRun(run) && w in Last(run).nodes && v in Last(run).nodes && w != v
    requires Last(run).nodes[w].role == Leader && Last(run).nodes[v].role == Leader
    requires Last(run).nodes[w].currentTerm > Last(run).nodes[v].currentTerm
    ensures IsRun(run') && run <= run' && Last(run').nodes.Keys == Last(run).nodes.Keys
    ensures Last(run').nodes[v].role == Follower
  {
    Reached(run, w);
    run' := Deliver(run, w, v);
  }

  lemma SomebodyFollows(run: seq<Cluster>) returns (run': seq<Cluster>, q: Id)
    requires IsRun(run) && |Last(run).nodes| >= 2
    ensures IsRun(run') && run <= run' && Last(run').nodes.Keys == Last(run).nodes.Keys
    ensures q in Last(run').nodes && Last(run').nodes[q].role != Leader
  {
    var c := Last(run);
    if id :| id in c.nodes && c.nodes[id].role != Leader {
      run', q := run, id;
    } else {
      var w := Member(c.nodes.Keys);
      assert |c.nodes.Keys - {w}| >= 1;
      var v := Member(c.nodes.Keys - {w});
      if c.nodes[w].currentTerm == c.nodes[v].currentTerm {
        ElectionSafety(run, |run| - 1, |run| - 1, w, v, c.nodes[w].currentTerm);
      }
      if c.nodes[w].currentTerm > c.nodes[v].currentTerm {
        q := v;
        run' := OneStepsDown(run, w, v);
      } else {
        q := w;
        run' := OneStepsDown(run, v, w);
      }
    }
  }

  /** Standing again and again takes a node to any term. */
  lemma {:induction false} StandUntil(run: seq<Cluster>, q: Id, term: nat) returns (run': seq<Cluster>)
    requires IsRun(run) && q in Last(run).nodes && Last(run).nodes[q].role != Leader
    ensures IsRun(run') && run <= run' && Last(run').nodes.Keys == Last(run).nodes.Keys
    ensures
      var c, c' := Last(run), Last(run');
      var n := c'.nodes[q];
      && n.currentTerm > term && n.role == Candidate && n.votes == {q} && n.log == c.nodes[q].log
      && c'.nodes == c.nodes[q := n]
      && RequestVote(n.currentTerm, q, |n.log| - 1, LastTerm(n.log)) in c'.msgs
    decreases if term < Last(run).nodes[q].currentTerm then 0 else term - Last(run).nodes[q].currentTerm + 1
  {
    run' := Take(run, Timeout(q));
    if Last(run').nodes[q].currentTerm <= term { run' := StandUntil(run', q, term); }
  }

  ghost predicate TermsBelow(c: Cluster, ids: set<Id>, term: nat) {
    forall id :: id in ids && id in c.nodes ==> c.nodes[id].currentTerm <= term
  }

  lemma TermBound(c: Cluster, ids: set<Id>) returns (term: nat)
    ensures TermsBelow(c, ids, term)
    decreases ids
  {
    if ids == {} { return 0; }
    var id := Member(ids);
    term := TermBound(c, ids - {id});
    if id in c.nodes && c.nodes[id].currentTerm > term { term := c.nodes[id].currentTerm; }
  }

  /** A node whose log is at least as up to date as every other: the order is total. */
  lemma MostUpToDate(c: Cluster, ids: set<Id>) returns (p: Id)
    requires ids != {} && ids <= c.nodes.Keys
    ensures p in ids && forall v :: v in ids ==> UpToDateWith(c, p, v)
    decreases ids
  {
    var first := Member(ids);
    p := first;
    if ids != {first} {
      var q := MostUpToDate(c, ids - {first});
      if !UpToDateWith(c, first, q) { p := q; }
      forall v | v in ids ensures UpToDateWith(c, p, v) {
        if v != first { assert v in ids - {first} && UpToDateWith(c, q, v); }
      }
    }
  }

  ghost predicate UpToDateWith(c: Cluster, p: Id, v: Id) {
    p in c.nodes && v in c.nodes &&
    AtLeast(LastTerm(c.nodes[p].log), |c.nodes[p].log| - 1, LastTerm(c.nodes[v].log), |c.nodes[v].log| - 1)
  }

  /** A leader hears of an election in a later term. */
  lemma LeaderHears(run: seq<Cluster>, q: Id, p: Id) returns (run': seq<Cluster>)
    requires IsRun(run) && q in Last(run).nodes && Last(run).nodes[q].role != Leader
    requires p in Last(run).nodes && Last(run).nodes[p].role == Leader
    ensures IsRun(run') && run <= run' && Last(run').nodes.Keys == Last(run).nodes.Keys
    ensures Last(run').nodes[p].role == Follower
    ensures forall v :: v in Last(run).nodes ==> Last(run').nodes[v].log == Last(run).nodes[v].log
  {
    run' := StandUntil(run, q, Last(run).nodes[p].currentTerm);
    var n := Last(run').nodes[q];
    run' := Take(run', ReceiveVoteRequest(p, RequestVote(n.currentTerm, q, |n.log| - 1, LastTerm(n.log))));
  }

  /** Somebody is not a leader, and nobody can refuse its log. */
  lemma BestFollows(run: seq<Cluster>) returns (run': seq<Cluster>, p: Id)
    requires IsRun(run) && |Last(run).nodes| >= 2
    ensures IsRun(run') && run <= run' && Last(run').nodes.Keys == Last(run).nodes.Keys
    ensures p in Last(run').nodes && Last(run').nodes[p].role != Leader
    ensures forall v :: v in Last(run').nodes ==> UpToDateWith(Last(run'), p, v)
  {
    var q;
    run', q := SomebodyFollows(run);
    p := MostUpToDate(Last(run'), Last(run').nodes.Keys);
    if Last(run').nodes[p].role == Leader {
      var c := Last(run');
      run' := LeaderHears(run', q, p);
      forall v | v in Last(run').nodes ensures UpToDateWith(Last(run'), p, v) { assert UpToDateWith(c, p, v); }
    }
  }

  /** It stands in a term beyond all others, and beyond a given one. */
  lemma BestStands(run: seq<Cluster>, floor: nat) returns (run': seq<Cluster>, p: Id)
    requires IsRun(run) && |Last(run).nodes| >= 2
    ensures IsRun(run') && run <= run' && Last(run').nodes.Keys == Last(run).nodes.Keys && Stands(Last(run'), p, floor)
  {
    run', p := BestFollows(run);
    var c := Last(run');
    var bound := TermBound(c, c.nodes.Keys);
    run' := StandUntil(run', p, floor + bound);
    forall v | v in Last(run').nodes && v != p ensures MayBack(Last(run'), p, v) { assert UpToDateWith(c, p, v); }
  }

  /** A peer in an earlier term that cannot refuse the candidate's log. */
  ghost predicate MayBack(c: Cluster, p: Id, v: Id) {
    p in c.nodes && v in c.nodes && c.nodes[v].currentTerm < c.nodes[p].currentTerm && UpToDateWith(c, p, v)
  }

  ghost predicate Stands(c: Cluster, p: Id, floor: nat) {
    && p in c.nodes && c.nodes[p].currentTerm > floor && c.nodes[p].role == Candidate && c.nodes[p].votes == {p}
    && RequestVote(c.nodes[p].currentTerm, p, |c.nodes[p].log| - 1, LastTerm(c.nodes[p].log)) in c.msgs
    && forall v :: v in c.nodes && v != p ==> MayBack(c, p, v)
  }

  // ---------------------------------------------------------------- it is elected

  /** The candidate, or already leader, with the votes of those asked so far. */
  ghost predicate Canvassing(c: Cluster, p: Id, term: nat, log: Log, asked: set<Id>) {
    && p in c.nodes && c.nodes[p].currentTerm == term && c.nodes[p].log == log
    && RequestVote(term, p, |log| - 1, LastTerm(log)) in c.msgs
    && (|| (c.nodes[p].role == Leader && c.nodes[p].nextIndex == map[])
        || (c.nodes[p].role == Candidate && c.nodes[p].votes == asked + {p}
            && (asked == {} || 2 * |asked + {p}| <= |c.nodes|)))
  }

  /** A peer that may back the candidate does. */
  lemma Backs(c: Cluster, p: Id, v: Id)
    requires MayBack(c, p, v)
    ensures
      var (term, log) := (c.nodes[p].currentTerm, c.nodes[p].log);
      var (n, reply) := OnRequestVote(c.nodes[v], v, RequestVote(term, p, |log| - 1, LastTerm(log)));
      && reply == VoteReply(term, true, v, p) && n.log == c.nodes[v].log && n.currentTerm == term && n.role == Follower
  {
    GrantsExactly(c.nodes[v], v, RequestVote(c.nodes[p].currentTerm, p, |c.nodes[p].log| - 1, LastTerm(c.nodes[p].log)));
  }

  /** The answer brings a majority, or one vote more. */
  lemma VoteTaken(n: Node, p: Id, v: Id, asked: set<Id>, size: nat)
    requires (n.role == Leader && n.nextIndex == map[]) || (n.role == Candidate && n.votes == asked + {p})
    ensures
      var n' := OnVoteReply(n, VoteReply(n.currentTerm, true, v, p), size);
      && n'.log == n.log && n'.currentTerm == n.currentTerm
      && (|| (n'.role == Leader && n'.nextIndex == map[])
          || (n'.role == Candidate && n'.votes == asked + {v} + {p} && 2 * |asked + {v} + {p}| <= size))
  {
    assert asked + {v} + {p} == asked + {p} + {v};
  }

  /** One peer is asked, and its answer taken. */
  lemma AskOne(run: seq<Cluster>, p: Id, term: nat, log: Log, asked: set<Id>, v: Id) returns (run': seq<Cluster>)
    requires IsRun(run) && Canvassing(Last(run), p, term, log, asked) && v != p && MayBack(Last(run), p, v)
    ensures IsRun(run') && run <= run' && Canvassing(Last(run'), p, term, log, asked + {v})
    ensures
      var c, c' := Last(run), Last(run');
      && c'.nodes.Keys == c.nodes.Keys && c'.nodes == c.nodes[v := c'.nodes[v]][p := c'.nodes[p]]
      && c'.nodes[v].log == c.nodes[v].log && c'.nodes[v].currentTerm == term && c'.nodes[v].role == Follower
  {
    var c := Last(run);
    Backs(c, p, v);
    VoteTaken(c.nodes[p], p, v, asked, |c.nodes|);
    run' := Take(run, ReceiveVoteRequest(v, RequestVote(term, p, |log| - 1, LastTerm(log))));
    assert Last(run').nodes.Keys == c.nodes.Keys && |Last(run').nodes| == |Last(run').nodes.Keys| == |c.nodes.Keys| == |c.nodes|;
    run' := Take(run', ReceiveVoteReply(p, VoteReply(term, true, v, p)));
  }

  /** A follower of the term with the log it had before. */
  ghost predicate Answered(before: Cluster, c: Cluster, v: Id, term: nat) {
    && v in before.nodes && v in c.nodes && c.nodes[v].log == before.nodes[v].log
    && c.nodes[v].role == Follower && c.nodes[v].currentTerm == term
  }

  ghost predicate SameLog(before: Cluster, c: Cluster, v: Id) {
    v in before.nodes && v in c.nodes && c.nodes[v].log == before.nodes[v].log
  }

  /** Those asked have answered, those of `todo` may still back the candidate. */
  ghost predicate Halfway(before: Cluster, c: Cluster, p: Id, term: nat, asked: set<Id>, todo: set<Id>) {
    && p !in todo && p !in asked
    && (forall v :: v in todo ==> MayBack(c, p, v) && SameLog(before, c, v))
    && forall v :: v in asked ==> Answered(before, c, v, term)
  }

  lemma AskNext(run: seq<Cluster>, before: Cluster, p: Id, term: nat, log: Log, asked: set<Id>, todo: set<Id>, v: Id)
    returns (run': seq<Cluster>)
    requires IsRun(run) && Canvassing(Last(run), p, term, log, asked) && Halfway(before, Last(run), p, term, asked, todo) && v in todo
    ensures IsRun(run') && run <= run' && Last(run').nodes.Keys == Last(run).nodes.Keys
    ensures Canvassing(Last(run'), p, term, log, asked + {v}) && Halfway(before, Last(run'), p, term, asked + {v}, todo - {v})
  {
    assert MayBack(Last(run), p, v) && SameLog(before, Last(run), v);
    run' := AskOne(run, p, term, log, asked, v);
    forall u | u in todo - {v} ensures MayBack(Last(run'), p, u) && SameLog(before, Last(run'), u) {
      assert MayBack(Last(run), p, u) && SameLog(before, Last(run), u);
    }
    forall u | u in asked + {v} ensures Answered(before, Last(run'), u, term) {
      if u != v { assert Answered(before, Last(run), u, term); }
    }
  }

  /** All of `todo` are asked; the others have been. */
  lemma {:induction false} AskAll(run: seq<Cluster>, before: Cluster, p: Id, term: nat, log: Log, asked: set<Id>, todo: set<Id>)
    returns (run': seq<Cluster>)
    requires IsRun(run) && Canvassing(Last(run), p, term, log, asked) && Halfway(before, Last(run), p, term, asked, todo)
    ensures IsRun(run') && run <= run' && Last(run').nodes.Keys == Last(run).nodes.Keys
    ensures Canvassing(Last(run'), p, term, log, asked + todo) && Halfway(before, Last(run'), p, term, asked + todo, {})
    decreases todo
  {
    if todo == {} {
      run' := run;
      assert asked + todo == asked;
    } else {
      var v := Member(todo);
      run' := AskNext(run, before, p, term, log, asked, todo, v);
      MovedOver(asked, todo, v);
      run' := AskAll(run', before, p, term, log, asked + {v}, todo - {v});
    }
  }

  lemma MovedOver<T>(a: set<T>, b: set<T>, x: T)
    requires x in b
    ensures a + {x} + (b - {x}) == a + b
  {
  }

  function Others(c: Cluster, p: Id): set<Id> {
    c.nodes.Keys - {p}
  }

  /** A follower of the term, or of an earlier one, that has no entry of it. */
  ghost predicate MayFollow(c: Cluster, v: Id, term: nat) {
    && v in c.nodes && c.nodes[v].role == Follower && c.nodes[v].currentTerm == term
    && forall i :: 0 <= i < |c.nodes[v].log| ==> c.nodes[v].log[i].term < term
  }

  /** The candidate leads its term, with all others behind it. */
  lemma Elected(run: seq<Cluster>, p: Id, floor: nat) returns (run': seq<Cluster>)
    requires IsRun(run) && |Last(run).nodes| >= 2 && Stands(Last(run), p, floor)
    ensures IsRun(run') && run <= run' && Last(run').nodes.Keys == Last(run).nodes.Keys && p in Last(run').nodes
    ensures
      var n := Last(run').nodes[p];
      && n.role == Leader && n.currentTerm == Last(run).nodes[p].currentTerm > floor && n.nextIndex == map[]
      && forall v :: v in Others(Last(run'), p) ==> MayFollow(Last(run'), v, n.currentTerm)
  {
    var c := Last(run);
    var n := c.nodes[p];
    forall v | v in Others(c, p) ensures MayBack(c, p, v) && SameLog(c, c, v) {}
    run' := AskAll(run, c, p, n.currentTerm, n.log, {}, Others(c, p));
    assert {} + Others(c, p) == Others(c, p) && Others(c, p) + {p} == c.nodes.Keys;
    assert Others(c, p) != {} by { assert |c.nodes.Keys| == |Others(c, p)| + 1; }
    forall v | v in Others(c, p) ensures MayFollow(Last(run'), v, n.currentTerm) {
      Reached(run, v);
      assert MayBack(c, p, v) && Answered(c, Last(run'), v, n.currentTerm);
    }
  }

  // ---------------------------------------------------------------- the command reaches everybody

  /** The leader with the new command at the end of its log. */
  ghost predicate Leading(c: Cluster, p: Id, term: nat, log: Log) {
    && p in c.nodes && c.nodes[p].role == Leader && c.nodes[p].currentTerm == term && c.nodes[p].log == log
    && |log| > 0 && log[|log| - 1].term == term
  }

  /** The leader knows nothing of a peer that may follow. */
  ghost predicate Behind(c: Cluster, p: Id, v: Id, term: nat) {
    MayFollow(c, v, term) && p in c.nodes && v !in c.nodes[p].nextIndex
  }

  /** The peer has the leader's last entry, and the leader knows. */
  ghost predicate Level(c: Cluster, p: Id, v: Id, term: nat, log: Log) {
    && v in c.nodes && c.nodes[v].role == Follower && c.nodes[v].currentTerm == term
    && |c.nodes[v].log| == |log| > 0 && c.nodes[v].log[|log| - 1] == log[|log| - 1]
    && p in c.nodes && NextIndex(c.nodes[p], v) == |log| && MatchIndex(c.nodes[p], v) == |log| - 1
  }

  /** The whole log sent to a peer ends up there. */
  lemma WholeLogTaken(n: Node, l: Node, p: Id, v: Id)
    requires n.role == Follower && n.currentTerm == l.currentTerm && v !in l.nextIndex
    requires |l.log| > 0 && l.log[|l.log| - 1].term == l.currentTerm
    requires forall i :: 0 <= i < |n.log| ==> n.log[i].term < l.currentTerm
    ensures
      var (n', reply) := OnAppendEntries(n, AppendFor(l, p, v));
      && n'.role == Follower && n'.currentTerm == l.currentTerm
      && |n'.log| == |l.log| && n'.log[|l.log| - 1] == l.log[|l.log| - 1]
      && reply == AppendReply(l.currentTerm, true, v, p, l.currentTerm, 0, |l.log|)
  {
    var m := AppendFor(l, p, v);
    assert m.entries == l.log;
    assert Agreeing(n.log, 0, m.entries) < |l.log|;
  }

  /** A success for the whole log is noted, and its last entry committed if a majority has it. */
  lemma SuccessNoted(l: Node, p: Id, v: Id, ids: set<Id>)
    requires l.role == Leader && 0 < |l.log| && l.commitIndex < |l.log|
    ensures
      var l' := OnAppendReply(l, p, ids, AppendReply(l.currentTerm, true, v, p, l.currentTerm, 0, |l.log|));
      && l'.role == Leader && l'.currentTerm == l.currentTerm && l'.log == l.log
      && l'.nextIndex == l.nextIndex[v := |l.log|] && l'.matchIndex == l.matchIndex[v := |l.log| - 1]
      && (Committable(l', p, ids, |l.log| - 1) ==> l'.commitIndex == |l.log| - 1)
  {
    var l' := OnAppendReply(l, p, ids, AppendReply(l.currentTerm, true, v, p, l.currentTerm, 0, |l.log|));
    var l1 := l.(nextIndex := l.nextIndex[v := |l.log|], matchIndex := l.matchIndex[v := |l.log| - 1]);
    assert Holders(l', p, ids, |l.log| - 1) == Holders(l1, p, ids, |l.log| - 1);
  }

  lemma LevelOne(run: seq<Cluster>, p: Id, v: Id, term: nat, log: Log) returns (run': seq<Cluster>)
    requires IsRun(run) && Leading(Last(run), p, term, log) && v != p && Behind(Last(run), p, v, term)
    ensures IsRun(run') && run <= run' && Leading(Last(run'), p, term, log) && Level(Last(run'), p, v, term, log)
    ensures
      var c, c' := Last(run), Last(run');
      && c'.nodes.Keys == c.nodes.Keys && c'.nodes == c.nodes[v := c'.nodes[v]][p := c'.nodes[p]]
      && c'.nodes[p].nextIndex == c.nodes[p].nextIndex[v := |log|]
      && c'.nodes[p].matchIndex == c.nodes[p].matchIndex[v := |log| - 1]
      && (Committable(c'.nodes[p], p, c'.nodes.Keys, |log| - 1) ==> c'.nodes[p].commitIndex == |log| - 1)
  {
    var l := Last(run).nodes[p];
    Reached(run, p);
    WholeLogTaken(Last(run).nodes[v], l, p, v);
    SuccessNoted(l, p, v, Last(run).nodes.Keys);
    run' := Deliver(run, p, v);
    assert Last(run').nodes[p] == l && Last(run').nodes.Keys == Last(run).nodes.Keys;
    run' := Take(run', ReceiveAppendReply(p, AppendReply(term, true, v, p, term, 0, |log|)));
  }

  /** All of `todo` are levelled, the last of them letting the leader commit. */
  lemma {:induction false} LevelAll(run: seq<Cluster>, p: Id, term: nat, log: Log, todo: set<Id>) returns (run': seq<Cluster>)
    requires IsRun(run) && Leading(Last(run), p, term, log) && todo != {} && todo <= Others(Last(run), p)
    requires forall v :: v in todo ==> Behind(Last(run), p, v, term)
    requires forall v :: v in Others(Last(run), p) - todo ==> Level(Last(run), p, v, term, log)
    ensures IsRun(run') && run <= run' && Leading(Last(run'), p, term, log) && Last(run').nodes.Keys == Last(run).nodes.Keys
    ensures forall v :: v in Others(Last(run'), p) ==> Level(Last(run'), p, v, term, log)
    ensures Last(run').nodes[p].commitIndex == |log| - 1
    decreases todo
  {
    var v := Member(todo);
    run' := LevelOne(run, p, v, term, log);
    var run1 := run';
    forall u | u in Others(Last(run1), p) - (todo - {v}) ensures Level(Last(run1), p, u, term, log) {
      if u != v { assert Level(Last(run), p, u, term, log); }
    }
    if todo == {v} {
      var ids := Last(run1).nodes.Keys;
      forall u | u in ids ensures u in Holders(Last(run1).nodes[p], p, ids, |log| - 1) {
        if u != p { assert u in Others(Last(run1), p) - (todo - {v}) && Level(Last(run1), p, u, term, log); }
      }
      assert Holders(Last(run1).nodes[p], p, ids, |log| - 1) == ids;
    } else {
      forall u | u in todo - {v} ensures Behind(Last(run1), p, u, term) { assert Behind(Last(run), p, u, term); }
      run' := LevelAll(run1, p, term, log, todo - {v});
    }
  }

  // ---------------------------------------------------------------- everybody commits and delivers

  ghost predicate Commits(c: Cluster, v: Id, log: Log) {
    v in c.nodes && |c.nodes[v].log| == |log| > 0 && c.nodes[v].log[|log| - 1] == log[|log| - 1] && c.nodes[v].commitIndex == |log| - 1
  }

  /** An empty append tells a peer what is committed. */
  lemma CommitOne(run: seq<Cluster>, p: Id, v: Id, term: nat, log: Log) returns (run': seq<Cluster>)
    requires IsRun(run) && Leading(Last(run), p, term, log) && v != p && Level(Last(run), p, v, term, log)
    requires Last(run).nodes[p].commitIndex == |log| - 1
    ensures IsRun(run') && run <= run' && Commits(Last(run'), v, log)
    ensures Last(run').nodes.Keys == Last(run).nodes.Keys && Last(run').nodes == Last(run).nodes[v := Last(run').nodes[v]]
  {
    Reached(run, v);
    assert log[|log|..] == [];
    run' := Deliver(run, p, v);
  }

  lemma {:induction false} CommitAll(run: seq<Cluster>, p: Id, term: nat, log: Log, todo: set<Id>) returns (run': seq<Cluster>)
    requires IsRun(run) && Leading(Last(run), p, term, log) && Last(run).nodes[p].commitIndex == |log| - 1
    requires forall v :: v in todo ==> v != p && Level(Last(run), p, v, term, log)
    requires forall v :: v in Last(run).nodes && v !in todo ==> Commits(Last(run), v, log)
    ensures IsRun(run') && run <= run' && Last(run').nodes.Keys == Last(run).nodes.Keys
    ensures forall v :: v in Last(run').nodes ==> Commits(Last(run'), v, log)
    decreases todo
  {
    run' := run;
    if todo != {} {
      var v := Member(todo);
      run' := CommitOne(run, p, v, term, log);
      var run1 := run';
      forall u | u in todo - {v} ensures Level(Last(run1), p, u, term, log) { assert Level(Last(run), p, u, term, log); }
      forall u | u in Last(run1).nodes && u !in todo - {v} ensures Commits(Last(run1), u, log) {
        if u != v { assert Commits(Last(run), u, log); }
      }
      run' := CommitAll(run1, p, term, log, todo - {v});
    }
  }

  ghost predicate Applied(c: Cluster, v: Id, log: Log) {
    Commits(c, v, log) && c.nodes[v].lastApplied == |log| - 1
  }

  lemma PumpOne(run: seq<Cluster>, v: Id, log: Log) returns (run': seq<Cluster>)
    requires IsRun(run) && Commits(Last(run), v, log)
    ensures IsRun(run') && run <= run' && Applied(Last(run'), v, log)
    ensures Last(run').nodes.Keys == Last(run).nodes.Keys && Last(run').nodes == Last(run).nodes[v := Last(run').nodes[v]]
  {
    Reached(run, v);
    run' := run;
    if Last(run).nodes[v].lastApplied < |log| - 1 { run' := Take(run, Pump(v)); }
  }

  lemma {:induction false} PumpAll(run: seq<Cluster>, log: Log, todo: set<Id>) returns (run': seq<Cluster>)
    requires IsRun(run) && forall v :: v in todo ==> Commits(Last(run), v, log)
    requires forall v :: v in Last(run).nodes && v !in todo ==> Applied(Last(run), v, log)
    ensures IsRun(run') && run <= run' && Last(run').nodes.Keys == Last(run).nodes.Keys
    ensures forall v :: v in Last(run').nodes ==> Applied(Last(run'), v, log)
    decreases todo
  {
    run' := run;
    if todo != {} {
      var v := Member(todo);
      run' := PumpOne(run, v, log);
      var run1 := run';
      forall u | u in todo - {v} ensures Commits(Last(run1), u, log) { assert Commits(Last(run), u, log); }
      forall u | u in Last(run1).nodes && u !in todo - {v} ensures Applied(Last(run1), u, log) {
        if u != v { assert Applied(Last(run), u, log); }
      }
      run' := PumpAll(run1, log, todo - {v});
    }
  }

  // ---------------------------------------------------------------- the theorem

  /** A leader with all others behind it takes a command and brings it to every store. */
  lemma LeaderDelivers(run: seq<Cluster>, p: Id, x: Command) returns (run': seq<Cluster>, log: Log)
    requires IsRun(run) && |Last(run).nodes| >= 2 && p in Last(run).nodes
    requires Last(run).nodes[p].role == Leader && Last(run).nodes[p].nextIndex == map[]
    requires forall v :: v in Others(Last(run), p) ==> MayFollow(Last(run), v, Last(run).nodes[p].currentTerm)
    ensures IsRun(run') && run <= run' && Last(run').nodes.Keys == Last(run).nodes.Keys
    ensures log == Last(run).nodes[p].log + [Entry(Last(run).nodes[p].currentTerm, x)]
    ensures forall v :: v in Last(run').nodes ==> Applied(Last(run'), v, log)
  {
    var c := Last(run);
    var term := c.nodes[p].currentTerm;
    log := c.nodes[p].log + [Entry(term, x)];
    run' := Take(run, Submit(p, x));
    assert Others(Last(run'), p) == Others(c, p);
    assert Others(c, p) != {} by { assert |c.nodes.Keys| == |Others(c, p)| + 1; }
    forall v | v in Others(c, p) ensures Behind(Last(run'), p, v, term) { assert MayFollow(c, v, term); }
    run' := LevelAll(run', p, term, log, Others(c, p));
    assert Commits(Last(run'), p, log);
    run' := CommitAll(run', p, term, log, Others(c, p));
    run' := PumpAll(run', log, Last(run').nodes.Keys);
  }

  /** The command has been handed over as entry `index`. */
  predicate Delivered(n: Node, index: nat, x: Command) {
    |n.pushed| == index + 1 && n.pushed[index].index == index && n.pushed[index].command == x
  }

  /**
   * Progress is always possible: from every reachable state of a cluster of at least two servers
   * there is a run in which a given command is handed to the store of every server, at an index
   * that no server had reached.
   */
  lemma CommandsCanAlwaysBeDelivered(run: seq<Cluster>, x: Command) returns (run': seq<Cluster>, index: nat)
    requires IsRun(run) && |Last(run).nodes| >= 2
    ensures IsRun(run') && run <= run' && Last(run').nodes.Keys == Last(run).nodes.Keys
    ensures forall id :: id in Last(run').nodes ==> Delivered(Last(run').nodes[id], index, x)
    ensures forall id :: id in Last(run).nodes ==> |Last(run).nodes[id].pushed| <= index
  {
    var floor := TermBound(Last(run), Last(run).nodes.Keys);
    var p, log;
    run', p := BestStands(run, floor);
    run' := Elected(run', p, floor);
    run', log := LeaderDelivers(run', p, x);
    index := |log| - 1;
    forall id | id in Last(run').nodes ensures Delivered(Last(run').nodes[id], index, x) {
      assert Applied(Last(run'), id, log);
      DeliveryIsTheCommittedLog(run', |run'| - 1, id);
    }
    forall id | id in Last(run).nodes ensures |Last(run).nodes[id].pushed| <= index {
      assert Applied(Last(run'), id, log);
      DeliveryIsTheCommittedLog(run, |run| - 1, id);
      CommittedForever(run', |run| - 1, |run'| - 1, id);
      Reached(run, id);
      var n := Last(run).nodes[id];
      var committed := n.log[..n.commitIndex + 1];
      assert forall i :: 0 <= i <= n.commitIndex ==> committed[i] == n.log[i] && committed[i] == Last(run').nodes[id].log[i];
    }
  }

  // ---------------------------------------------------------------- delivery at any time

  lemma {:induction false} MessagesStay(run: seq<Cluster>, i: nat, j: nat)
    requires IsRun(run) && i <= j < |run|
    ensures run[i].msgs <= run[j].msgs && run[i].nodes.Keys == run[j].nodes.Keys
    decreases j
  {
    if i < j {
      MessagesStay(run, i, j - 1);
      assert StepAt(run, j);
      var step :| Enabled(run[j - 1], step) && run[j] == Apply(run[j - 1], step);
    }
  }

  /** Whatever has been sent can be taken by whom it is for at any later moment, as often as one likes. */
  lemma TakenAtAnyTime(run: seq<Cluster>, i: nat, j: nat, id: Id, m: Message)
    requires IsRun(run) && i <= j < |run| && m in run[i].msgs && id in run[i].nodes
    ensures m.RequestVote? && id != m.candidate ==> Enabled(run[j], ReceiveVoteRequest(id, m))
    ensures m.VoteReply? && id == m.candidate ==> Enabled(run[j], ReceiveVoteReply(id, m))
    ensures m.AppendEntries? && id == m.peer ==> Enabled(run[j], ReceiveAppend(id, m))
    ensures m.AppendReply? && id == m.leader ==> Enabled(run[j], ReceiveAppendReply(id, m))
  {
    MessagesStay(run, i, j);
  }

  // ---------------------------------------------------------------- one server alone

  /** A server alone asks for votes and gets no answer. */
  ghost predicate Alone(c: Cluster, id: Id) {
    && c.nodes.Keys == {id} && c.nodes[id].role != Leader && c.nodes[id].log == [] && c.nodes[id].pushed == []
    && c.nodes[id].commitIndex == -1 && c.nodes[id].lastApplied == -1
    && forall m :: m in c.msgs ==> m.RequestVote? && m.candidate == id
  }

  lemma {:induction false} StaysAlone(run: seq<Cluster>, i: nat, id: Id)
    requires IsRun(run) && i < |run| && run[0].nodes.Keys == {id}
    ensures Alone(run[i], id)
  {
    if i > 0 {
      StaysAlone(run, i - 1, id);
      assert StepAt(run, i);
      var step :| Enabled(run[i - 1], step) && run[i] == Apply(run[i - 1], step);
    }
  }

  ghost predicate CanDeliver(run: seq<Cluster>, x: Command) {
    exists run', index :: DeliversIn(run, x, run', index)
  }

  /** The run goes on to where every server has the command, at an index none had reached. */
  ghost predicate DeliversIn(run: seq<Cluster>, x: Command, run': seq<Cluster>, index: nat) {
    && 0 < |run| && IsRun(run') && run <= run'
    && (forall id :: id in Last(run').nodes ==> Delivered(Last(run').nodes[id], index, x))
    && forall id :: id in Last(run).nodes ==> |Last(run).nodes[id].pushed| <= index
  }

  /** A server without peers never delivers anything; it takes two, and two are enough. */
  lemma DeliversIff(run: seq<Cluster>, x: Command)
    requires IsRun(run)
    ensures CanDeliver(run, x) <==> |run[0].nodes| >= 2
  {
    MessagesStay(run, 0, |run| - 1);
    if |run[0].nodes| >= 2 {
      assert |Last(run).nodes| == |Last(run).nodes.Keys|;
      var run', index := CommandsCanAlwaysBeDelivered(run, x);
      assert DeliversIn(run, x, run', index);
    } else if CanDeliver(run, x) {
      var run', index: nat :| DeliversIn(run, x, run', index);
      var id := Member(run[0].nodes.Keys);
      assert |run[0].nodes.Keys - {id}| == 0;
      assert run[0].nodes.Keys == {id};
      assert id in Last(run').nodes ==> Delivered(Last(run').nodes[id], index, x);
      StaysAlone(run', |run'| - 1, id);
    }
  }

  // ---------------------------------------------------------------- the first command of three servers

  const THREE: Cluster := Cluster(map[0 := FRESH_NODE, 1 := FRESH_NODE, 2 := FRESH_NODE], {})

  lemma Asks() returns (run: seq<Cluster>)
    ensures IsRun(run) && run[0] == THREE && RequestVote(1, 0, -1, -1) in Last(run).msgs
    ensures Last(run).nodes == map[
      0 := FRESH_NODE.(currentTerm := 1, votedFor := 0, role := Candidate, votes := {0}), 1 := FRESH_NODE, 2 := FRESH_NODE]
  {
    run := [THREE];
    assert |THREE.nodes.Keys| > 0;
    assert IsRun(run) by { assert Init(run[0]); }
    run := Take(run, Timeout(0));
  }

  /** Server 0 is elected with the vote of server 1. */
  lemma FirstElection() returns (run: seq<Cluster>)
    ensures IsRun(run) && run[0] == THREE
    ensures Last(run).nodes == map[
      0 := FRESH_NODE.(currentTerm := 1, votedFor := 0, role := Leader, votes := {0, 1}),
      1 := FRESH_NODE.(currentTerm := 1, votedFor := 0),
      2 := FRESH_NODE]
  {
    run := Asks();
    run := Take(run, ReceiveVoteRequest(1, RequestVote(1, 0, -1, -1)));
    assert VoteReply(1, true, 1, 0) in Last(run).msgs;
    assert Last(run).nodes.Keys == {0, 1, 2} && |{0 as Id, 1, 2}| == 3 && |{0 as Id, 1}| == 2;
    assert {0 as Id} + {1} == {0, 1};
    run := Take(run, ReceiveVoteReply(0, VoteReply(1, true, 1, 0)));
  }

  /** It takes a command, and server 1 has it. */
  lemma FirstEntry(x: Command) returns (run: seq<Cluster>)
    ensures IsRun(run) && run[0] == THREE && AppendReply(1, true, 1, 0, 1, 0, 1) in Last(run).msgs
    ensures Last(run).nodes == map[
      0 := Node(1, 0, [Entry(1, x)], Leader, {0, 1}, map[], map[], -1, -1, 0, []),
      1 := Node(1, 0, [Entry(1, x)], Follower, {}, map[], map[], -1, -1, 0, []),
      2 := FRESH_NODE]
  {
    run := FirstElection();
    run := Take(run, Submit(0, x));
    var l := Last(run).nodes[0];
    assert l.log == [Entry(1, x)] && l.log[0..] == [Entry(1, x)];
    WholeLogTaken(Last(run).nodes[1], l, 0, 1);
    run := Deliver(run, 0, 1);
  }

  lemma FirstCommit(x: Command) returns (run: seq<Cluster>)
    ensures IsRun(run) && run[0] == THREE
    ensures Last(run).nodes == map[
      0 := Node(1, 0, [Entry(1, x)], Leader, {0, 1}, map[1 := 1], map[1 := 0], 0, -1, 1, []),
      1 := Node(1, 0, [Entry(1, x)], Follower, {}, map[], map[], -1, -1, 0, []),
      2 := FRESH_NODE]
  {
    run := FirstEntry(x);
    var l := Last(run).nodes[0];
    var l1 := l.(nextIndex := map[1 := 1], matchIndex := map[1 := 0]);
    assert Last(run).nodes.Keys == {0, 1, 2} && |{0 as Id, 1, 2}| == 3;
    assert Holders(l1, 0, {0, 1, 2}, 0) == {0, 1} && |{0 as Id, 1}| == 2;
    assert RaftNode.Committable(l1, 0, {0, 1, 2}, 0);
    run := Take(run, ReceiveAppendReply(0, AppendReply(1, true, 1, 0, 1, 0, 1)));
  }

  /**
   * From three fresh servers: one is elected, takes a command, replicates it to a second, commits
   * it, and both hand it over with index 0, while the third has heard nothing.
   */
  lemma FirstCommand(x: Command) returns (run: seq<Cluster>)
    ensures IsRun(run) && run[0] == THREE && 0 in Last(run).nodes && 1 in Last(run).nodes && 2 in Last(run).nodes
    ensures Last(run).nodes[0].pushed == [CommitEntry(x, 0, 1)] && Last(run).nodes[1].pushed == [CommitEntry(x, 0, 1)]
    ensures Last(run).nodes[2] == FRESH_NODE
  {
    run := FirstCommit(x);
    run := Take(run, Pump(0));
    var l := Last(run).nodes[0];
    assert AppendFor(l, 0, 1) == AppendEntries(1, 0, 1, 0, 1, [], 0);
    run := Deliver(run, 0, 1);
    run := Take(run, Pump(1));
  }
}
