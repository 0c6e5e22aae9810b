/**
 * The vote counter of one election as written: every peer's goroutine reads the shared counter
 * without the lock, adds its vote to the copy, and later stores the copy back under the lock.
 */
module RaftVoteCounter {
  import opened Quorum
  import opened Basics
  import opened RaftAsWritten
  import opened RaftElection

  datatype Worker = Waiting | Holding(updated: nat) | Finished

  datatype Tally = Tally(votesReceived: nat, workers: map<u64, Worker>)

  datatype TallyStep = Read(peer: u64) | WriteBack(peer: u64)

  /** One goroutine for every peer that has answered. */
  function Opening(e: Contest): Tally {
    Tally(1, map p | p in e.answers :: Waiting)
  }

  predicate Possible(e: Contest, t: Tally, step: TallyStep) {
    && step.peer in t.workers && step.peer in e.answers
    && match step
       case Read(p) => t.workers[p] == Waiting
       case WriteBack(p) => t.workers[p].Holding?
  }

  function Count(e: Contest, t: Tally, step: TallyStep): Tally
    requires Possible(e, t, step)
  {
    match step
    case Read(p) =>
      Tally(t.votesReceived, t.workers[p := Holding(GotVote(e.term, t.votesReceived, e.answers[p]))])
    case WriteBack(p) =>
      Tally(t.workers[p].updated, t.workers[p := Finished])
  }

  /** Every step of the schedule can be taken when its turn comes. */
  predicate Legal(e: Contest, steps: seq<TallyStep>)
    decreases |steps|, 0
  {
    steps == [] ||
    var front := steps[..|steps| - 1];
    Legal(e, front) && Possible(e, After(e, front), steps[|steps| - 1])
  }

  /** The counter at the end of a schedule. */
  function After(e: Contest, steps: seq<TallyStep>): Tally
    requires Legal(e, steps)
    decreases |steps|, 1
  {
    if steps == [] then Opening(e) else Count(e, After(e, steps[..|steps| - 1]), steps[|steps| - 1])
  }

  function Grants(e: Contest): set<u64> {
    set p | p in e.answers && Granted(e, p)
  }

  /** `value` counts the node itself and the grants in `backing`, all of them already read. */
  ghost predicate BackedBy(e: Contest, t: Tally, backing: set<u64>, value: nat) {
    && value == |backing| + 1
    && forall p :: p in backing ==> Granted(e, p) && p in t.workers && t.workers[p] != Waiting
  }

  ghost predicate Backed(e: Contest, t: Tally, value: nat) {
    exists backing :: BackedBy(e, t, backing, value)
  }

  ghost predicate CounterInv(e: Contest, t: Tally) {
    && t.workers.Keys == e.answers.Keys
    && Backed(e, t, t.votesReceived)
    && forall p :: p in t.workers && t.workers[p].Holding? ==> Backed(e, t, t.workers[p].updated)
  }

  lemma BackedStays(e: Contest, t: Tally, t': Tally, value: nat)
    requires Backed(e, t, value) && t'.workers.Keys == t.workers.Keys
    requires forall p :: p in t.workers && t.workers[p] != Waiting ==> t'.workers[p] != Waiting
    ensures Backed(e, t', value)
  {
    var backing :| BackedBy(e, t, backing, value);
    assert BackedBy(e, t', backing, value);
  }

  lemma BackedByGrants(e: Contest, t: Tally, value: nat)
    requires Backed(e, t, value)
    ensures exists backing: set<u64> :: backing <= Grants(e) && value == |backing| + 1
  {
    var backing :| BackedBy(e, t, backing, value);
    assert forall p :: p in backing ==> Granted(e, p);
    assert forall p :: p in backing ==> p in Grants(e);
  }

  lemma CounterStep(e: Contest, t: Tally, step: TallyStep)
    requires CounterInv(e, t) && Possible(e, t, step)
    ensures CounterInv(e, Count(e, t, step))
  {
    var t' := Count(e, t, step);
    BackedStays(e, t, t', t.votesReceived);
    forall p | p in t.workers && t.workers[p].Holding? ensures Backed(e, t', t.workers[p].updated) {
      BackedStays(e, t, t', t.workers[p].updated);
    }
    if step.Read? && Granted(e, step.peer) {
      var backing :| BackedBy(e, t, backing, t.votesReceived);
      assert BackedBy(e, t', backing + {step.peer}, t.votesReceived + 1);
    }
  }

  /**
   * Under every interleaving of reads and write-backs the counter, less one for the node itself,
   * is the size of some set of distinct peers that granted their vote in this election: updates
   * may be lost, never invented.
   */
  lemma {:induction false} NeverOvercounts(e: Contest, steps: seq<TallyStep>)
    requires Legal(e, steps)
    ensures CounterInv(e, After(e, steps))
    ensures exists backing: set<u64> :: backing <= Grants(e) && After(e, steps).votesReceived == |backing| + 1
    decreases |steps|
  {
    var t := After(e, steps);
    if steps == [] {
      assert BackedBy(e, t, {}, 1);
    } else {
      var front := steps[..|steps| - 1];
      NeverOvercounts(e, front);
      CounterStep(e, After(e, front), steps[|steps| - 1]);
    }
    BackedByGrants(e, t, t.votesReceived);
  }

  /** So an election the racy counter declares won really has a majority of the cluster behind it. */
  lemma WonMeansMajority(e: Contest, peers: set<u64>, steps: seq<TallyStep>) returns (voters: set<u64>)
    requires Legal(e, steps) && e.candidate !in peers && e.answers.Keys <= peers
    requires 2 * After(e, steps).votesReceived > |peers| + 1
    ensures Majority(voters, peers + {e.candidate})
    ensures e.candidate in voters && voters <= Backers(e)
  {
    NeverOvercounts(e, steps);
    var backing: set<u64> :| backing <= Grants(e) && After(e, steps).votesReceived == |backing| + 1;
    voters := backing + {e.candidate};
  }

  /** Two grants that are both read before either is written back count as one. */
  lemma UpdatesCanBeLost(e: Contest, p: u64, q: u64)
    requires p != q && Granted(e, p) && Granted(e, q)
    ensures
      var steps := [Read(p), Read(q), WriteBack(p), WriteBack(q)];
      Legal(e, steps) && After(e, steps).votesReceived == 2
  {
    var steps := [Read(p), Read(q), WriteBack(p), WriteBack(q)];
    assert steps[..3][..2] == steps[..2] && steps[..2][..1] == steps[..1] && steps[..1][..0] == [];
    assert Legal(e, []) && After(e, []) == Opening(e);
    assert Legal(e, steps[..1]);
    assert Legal(e, steps[..2]);
    assert Legal(e, steps[..3]);
  }

  /** Every goroutine writes back before the next one reads. */
  function OneByOne(order: seq<u64>): (steps: seq<TallyStep>) {
    if order == [] then []
    else OneByOne(order[..|order| - 1]) + [Read(order[|order| - 1])] + [WriteBack(order[|order| - 1])]
  }

  function Granting(e: Contest, order: seq<u64>): set<u64> {
    set p | p in order && Granted(e, p)
  }

  /** The goroutines of `order` are done, the others have not begun, and no vote is lost. */
  ghost predicate CountedAll(e: Contest, order: seq<u64>, t: Tally) {
    && t.votesReceived == |Granting(e, order)| + 1 && t.workers.Keys == e.answers.Keys
    && forall p :: p in e.answers ==> t.workers[p] == if p in order then Finished else Waiting
  }

  lemma CountOne(e: Contest, steps: seq<TallyStep>, p: u64)
    requires Legal(e, steps) && p in e.answers && p in After(e, steps).workers && After(e, steps).workers[p] == Waiting
    ensures
      var t := After(e, steps);
      && Legal(e, steps + [Read(p)] + [WriteBack(p)])
      && After(e, steps + [Read(p)] + [WriteBack(p)]) == Tally(GotVote(e.term, t.votesReceived, e.answers[p]), t.workers[p := Finished])
  {
    OneMore(e, steps, Read(p));
    OneMore(e, steps + [Read(p)], WriteBack(p));
  }

  lemma OneMoreGrant(e: Contest, front: seq<u64>, p: u64, t: Tally)
    requires CountedAll(e, front, t) && p in e.answers && p !in front
    ensures CountedAll(e, front + [p], Tally(GotVote(e.term, t.votesReceived, e.answers[p]), t.workers[p := Finished]))
  {
    assert Granting(e, front + [p]) == Granting(e, front) + if Granted(e, p) then {p} else {};
  }

  /** One after the other no vote is lost: the counter is one more than the number of grants. */
  lemma {:induction false} OneByOneCountsAll(e: Contest, order: seq<u64>)
    requires forall i :: 0 <= i < |order| ==> order[i] in e.answers
    requires forall i, j :: 0 <= i < j < |order| ==> order[i] != order[j]
    ensures Legal(e, OneByOne(order)) && CountedAll(e, order, After(e, OneByOne(order)))
    decreases |order|
  {
    if order == [] {
      assert Granting(e, order) == {};
    } else {
      var front, p := order[..|order| - 1], order[|order| - 1];
      assert order == front + [p];
      OneByOneCountsAll(e, front);
      CountOne(e, OneByOne(front), p);
      OneMoreGrant(e, front, p, After(e, OneByOne(front)));
    }
  }

  lemma OneMore(e: Contest, steps: seq<TallyStep>, step: TallyStep)
    requires Legal(e, steps) && Possible(e, After(e, steps), step)
    ensures Legal(e, steps + [step]) && After(e, steps + [step]) == Count(e, After(e, steps), step)
  {
    assert (steps + [step])[..|steps|] == steps;
  }

  /** A copy read early and written back late undoes what was counted in between. */
  lemma CounterCanFall(e: Contest, p: u64, q: u64, r: u64)
    requires p != q && q != r && p != r && Granted(e, p) && Granted(e, q) && Granted(e, r)
    ensures
      var steps := [Read(p)] + [Read(q)] + [WriteBack(q)] + [Read(r)] + [WriteBack(r)];
      && Legal(e, steps) && After(e, steps).votesReceived == 3
      && Legal(e, steps + [WriteBack(p)]) && After(e, steps + [WriteBack(p)]).votesReceived == 2
  {
    assert Legal(e, []) && After(e, []) == Opening(e);
    OneMore(e, [], Read(p));
    assert [] + [Read(p)] == [Read(p)];
    OneMore(e, [Read(p)], Read(q));
    OneMore(e, [Read(p)] + [Read(q)], WriteBack(q));
    OneMore(e, [Read(p)] + [Read(q)] + [WriteBack(q)], Read(r));
    OneMore(e, [Read(p)] + [Read(q)] + [WriteBack(q)] + [Read(r)], WriteBack(r));
    OneMore(e, [Read(p)] + [Read(q)] + [WriteBack(q)] + [Read(r)] + [WriteBack(r)], WriteBack(p));
  }
}
