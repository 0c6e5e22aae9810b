/**
 * The cluster as a state machine: a map of nodes and a growing set of sent messages. A message
 * stays deliverable for ever, so loss, duplication and reordering are all covered.
 */
module RaftCluster {
  import opened RaftNode

  datatype Cluster = Cluster(nodes: map<Id, Node>, msgs: set<Message>) {
    ghost predicate WellFormed() {
      |nodes| > 0 && forall id :: id in nodes ==> id >= 0
    }

    function Set(id: Id, n: Node): Cluster {
      Cluster(nodes[id := n], msgs)
    }

    function SetAndSend(id: Id, n: Node, m: Message): Cluster {
      Cluster(nodes[id := n], msgs + {m})
    }
  }

  datatype Step =
    | Timeout(id: Id)
    | ReceiveVoteRequest(id: Id, m: Message)
    | ReceiveVoteReply(id: Id, m: Message)
    | Submit(id: Id, command: Command)
    | Send(id: Id, peer: Id)
    | ReceiveAppend(id: Id, m: Message)
    | ReceiveAppendReply(id: Id, m: Message)
    | Pump(id: Id)

  predicate Enabled(c: Cluster, step: Step) {
    && step.id in c.nodes
    && match step {
      case Timeout(id) => c.nodes[id].role != Leader
      case ReceiveVoteRequest(id, m) => m in c.msgs && m.RequestVote? && id != m.candidate
      case ReceiveVoteReply(id, m) => m in c.msgs && m.VoteReply? && m.candidate == id
      case Submit(id, command) => true
      case Send(id, peer) =>
        && peer in c.nodes && peer != id
        && c.nodes[id].role == Leader
        && 0 <= NextIndex(c.nodes[id], peer) <= |c.nodes[id].log|
      case ReceiveAppend(id, m) => m in c.msgs && m.AppendEntries? && m.peer == id
      case ReceiveAppendReply(id, m) => m in c.msgs && m.AppendReply? && m.leader == id
      case Pump(id) =>
        && c.nodes[id].signals > 0
        && -1 <= c.nodes[id].lastApplied && c.nodes[id].commitIndex < |c.nodes[id].log|
    }
  }

  function Apply(c: Cluster, step: Step): Cluster
    requires Enabled(c, step)
  {
    var n := c.nodes[step.id];
    match step
    case Timeout(id) =>
      var n' := StartElection(n, id);
      c.SetAndSend(id, n', RequestVote(n'.currentTerm, id, LastIndex(n.log), LastTerm(n.log)))
    case ReceiveVoteRequest(id, m) =>
      var (n', reply) := OnRequestVote(n, id, m);
      c.SetAndSend(id, n', reply)
    case ReceiveVoteReply(id, m) =>
      c.Set(id, OnVoteReply(n, m, |c.nodes|))
    case Submit(id, command) =>
      c.Set(id, OnSubmit(n, command))
    case Send(id, peer) =>
      c.SetAndSend(id, n, AppendFor(n, id, peer))
    case ReceiveAppend(id, m) =>
      var (n', reply) := OnAppendEntries(n, m);
      c.SetAndSend(id, n', reply)
    case ReceiveAppendReply(id, m) =>
      c.Set(id, OnAppendReply(n, id, c.nodes.Keys, m))
    case Pump(id) =>
      c.Set(id, OnPump(n))
  }

  ghost predicate Init(c: Cluster) {
    && c.WellFormed()
    && c.msgs == {}
    && forall id :: id in c.nodes ==> c.nodes[id] == FRESH_NODE
  }

  ghost predicate Next(c: Cluster, c': Cluster) {
    exists step :: Enabled(c, step) && c' == Apply(c, step)
  }

  ghost predicate StepAt(run: seq<Cluster>, i: nat) {
    0 < i < |run| ==> Next(run[i - 1], run[i])
  }

  /** A finite run from an initial state; the theorems hold of every prefix of every behaviour. */
  ghost predicate IsRun(run: seq<Cluster>) {
    && |run| > 0
    && Init(run[0])
    && forall i :: StepAt(run, i)
  }
}
