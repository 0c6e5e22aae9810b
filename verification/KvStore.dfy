/**
 * The key-value store fed by the pump: every committed entry sets the key in `db` and stores the
 * entry's index, as eight bytes, under the same key in `committedLog`.
 */
module KvStore {
  import opened Basics
  import opened Bytes
  import opened RaftNode
  import opened RaftCluster
  import opened RaftSafety

  type Store = map<string, seq<byte>>

  // ---------------------------------------------------------------- replay

  function ReplayValues(es: seq<CommitEntry>): Store {
    if es == [] then map[]
    else
      var last := es[|es| - 1];
      ReplayValues(es[..|es| - 1])[last.command.key := last.command.value]
  }

  function ReplayIndexes(es: seq<CommitEntry>): Store {
    if es == [] then map[]
    else
      var last := es[|es| - 1];
      ReplayIndexes(es[..|es| - 1])[last.command.key := PutUint64(last.index)]
  }

  /** Position of the last entry for `key`, or -1. */
  function LastFor(es: seq<CommitEntry>, key: string): (p: int)
    ensures -1 <= p < |es|
    ensures p >= 0 ==> es[p].command.key == key
    ensures forall i :: p < i < |es| ==> es[i].command.key != key
  {
    if es == [] then -1
    else if es[|es| - 1].command.key == key then |es| - 1
    else LastFor(es[..|es| - 1], key)
  }

  /** Replaying keeps, for each key, the value and the index of its last committed entry. */
  lemma {:induction false} ReplayKeepsTheLast(es: seq<CommitEntry>, key: string)
    ensures
      var p := LastFor(es, key);
      && (key in ReplayValues(es) <==> p >= 0)
      && (key in ReplayIndexes(es) <==> p >= 0)
      && (p >= 0 ==> ReplayValues(es)[key] == es[p].command.value)
      && (p >= 0 ==> ReplayIndexes(es)[key] == PutUint64(es[p].index))
    decreases |es|
  {
    if es != [] {
      ReplayKeepsTheLast(es[..|es| - 1], key);
    }
  }

  // ---------------------------------------------------------------- the objects

  class VolatileStorage {
    var storage: Store

    constructor ()
      ensures storage == map[]
    {
      storage := map[];
    }

    method Set(key: string, value: seq<byte>)
      modifies this
      ensures storage == old(storage)[key := value]
    {
      storage := storage[key := value];
    }

    method Get(key: string) returns (value: seq<byte>, found: bool)
      ensures found <==> key in storage
      ensures value == if found then storage[key] else []
    {
      found := key in storage;
      value := if found then storage[key] else [];
    }

    method GetCopy() returns (copy: Store)
      ensures copy == storage
    {
      copy := map[];
      var rest := storage.Keys;
      while rest != {}
        invariant rest <= storage.Keys
        invariant copy.Keys == storage.Keys - rest
        invariant forall k :: k in copy ==> copy[k] == storage[k]
        decreases |rest|
      {
        var key :| key in rest;
        copy := copy[key := storage[key]];
        rest := rest - {key};
      }
    }

    method Size() returns (n: nat)
      ensures n == |storage|
    {
      n := |storage|;
    }
  }

  datatype GetValueRespond = GetValueRespond(val: seq<byte>, index: nat, success: bool)

  datatype ServiceState = Init | Running | Disconnected | Shutdown

  /** Where the caller gives up: before the value is taken, before the index is taken, or not at all. */
  datatype Patience = GivesUpFirst | GivesUpSecond | Waits

  /** What a read returns: a respond, the part of it at hand when the caller gave up, or an error of the server. */
  datatype Answer = Answered(resp: GetValueRespond) | Cancelled(resp: GetValueRespond) | NotServing

  class Server {
    const db: VolatileStorage
    const committedLog: VolatileStorage
    var serverState: ServiceState

    ghost predicate Holds(es: seq<CommitEntry>)
      reads db, committedLog
    {
      && db != committedLog
      && db.storage == ReplayValues(es)
      && committedLog.storage == ReplayIndexes(es)
    }

    constructor ()
      ensures fresh(db) && fresh(committedLog) && Holds([]) && serverState == Init
    {
      serverState := Init;
      db := new VolatileStorage();
      committedLog := new VolatileStorage();
    }

    /** One commit taken from the channel. */
    method Apply(c: CommitEntry, ghost es: seq<CommitEntry>)
      requires Holds(es)
      modifies db, committedLog
      ensures Holds(es + [c])
    {
      db.Set(c.command.key, c.command.value);
      var buf := PutUint64(c.index);
      committedLog.Set(c.command.key, buf);
      assert (es + [c])[..|es|] == es;
    }

    /** The commit loop over everything the channel delivers. */
    method ReadCommits(commits: seq<CommitEntry>, ghost es: seq<CommitEntry>)
      requires Holds(es)
      modifies db, committedLog
      ensures Holds(es + commits)
    {
      var i := 0;
      assert es + commits[..0] == es;
      while i < |commits|
        invariant 0 <= i <= |commits|
        invariant Holds(es + commits[..i])
      {
        Apply(commits[i], es + commits[..i]);
        assert es + commits[..i] + [commits[i]] == es + commits[..i + 1];
        i := i + 1;
      }
      assert commits[..i] == commits;
    }

    /**
     * Between two commits a running server returns the last committed value with its own index,
     * or failure exactly when the key was never committed; a caller that gives up gets what was
     * read so far; any other server answers with an error.
     */
    method GetValue(key: string, patience: Patience, ghost es: seq<CommitEntry>) returns (a: Answer)
      requires Holds(es)
      requires forall i :: 0 <= i < |es| ==> es[i].index < TWO64
      ensures a == NotServing <==> serverState != Running
      ensures
        var p := LastFor(es, key);
        var val := if p < 0 then [] else es[p].command.value;
        serverState == Running ==>
          match patience
          case GivesUpFirst => a == Cancelled(GetValueRespond([], 0, false))
          case GivesUpSecond => a == Cancelled(GetValueRespond(val, 0, false))
          case Waits => a == Answered(GetValueRespond(val, if p < 0 then 0 else es[p].index, p >= 0))
    {
      if serverState == Shutdown { return NotServing; }
      if serverState == Init || serverState == Disconnected { return NotServing; }
      ReplayKeepsTheLast(es, key);
      if patience == GivesUpFirst { return Cancelled(GetValueRespond([], 0, false)); }
      var val, valOk := db.Get(key);
      if patience == GivesUpSecond { return Cancelled(GetValueRespond(val, 0, false)); }
      var buf, indexOk := committedLog.Get(key);
      var index := ReadUint64(buf);
      if LastFor(es, key) >= 0 { Uint64RoundTrip(es[LastFor(es, key)].index); }
      a := Answered(GetValueRespond(val, index, valOk && indexOk));
    }
  }

  // ---------------------------------------------------------------- replicas

  lemma {:induction false} SameCommandsSameStore(a: seq<CommitEntry>, b: seq<CommitEntry>)
    requires |a| == |b|
    requires forall i :: 0 <= i < |a| ==> a[i].command == b[i].command && a[i].index == b[i].index
    ensures ReplayValues(a) == ReplayValues(b) && ReplayIndexes(a) == ReplayIndexes(b)
    decreases |a|
  {
    if a != [] {
      SameCommandsSameStore(a[..|a| - 1], b[..|b| - 1]);
    }
  }

  /**
   * Replicas agree: at any two moments of any run, two servers that have applied equally far hold
   * equal values and equal indexes.
   */
  lemma ReplicasAgree(run: seq<Cluster>, i: nat, j: nat, a: Id, b: Id)
    requires IsRun(run) && i < |run| && j < |run| && a in run[i].nodes && b in run[j].nodes
    requires run[i].nodes[a].lastApplied == run[j].nodes[b].lastApplied
    ensures ReplayValues(run[i].nodes[a].pushed) == ReplayValues(run[j].nodes[b].pushed)
    ensures ReplayIndexes(run[i].nodes[a].pushed) == ReplayIndexes(run[j].nodes[b].pushed)
  {
    var p, q := run[i].nodes[a].pushed, run[j].nodes[b].pushed;
    DeliveryIsTheCommittedLog(run, i, a);
    DeliveryIsTheCommittedLog(run, j, b);
    forall x | 0 <= x < |p| ensures p[x].command == q[x].command && p[x].index == q[x].index {
      StateMachineSafety(run, i, j, a, b, x, x);
    }
    SameCommandsSameStore(p, q);
  }
}
