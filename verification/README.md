# A verified model of the key-value cluster

The repository is a replicated key-value store: servers agree on a log of commands with Raft
(`pkg/server/consensus.go`), a pump hands the committed commands to an in-memory store, and around
it stand a radix tree, a traffic generator with its Internet checksum, and a load balancer with a
round-robin pool. This project models the parts whose correctness takes an argument and proves it.

## The parts

**Raft, as meant.** `RaftNode` holds one server with integers and -1 for "none" and one function
per handler; `RaftCluster` is the state machine: a map of servers and a set of messages that only
grows, so that loss, duplication and reordering need no steps of their own. A step is one handler
run atomically. `RaftInvariant` states the inductive invariant over a history of elections, ballots
and acknowledgements, `RaftVoteSteps` and `RaftLogSteps` prove that each step keeps it, and
`RaftSafety` draws the theorems, which speak of runs and no longer of histories. `RaftProgress`
proves the other half: from every reachable state the run can go on to deliver any command.

**Raft, as written.** `RaftAsWritten` holds the class `RaftProtocol` with the 64-bit fields and the
loops of the source, MaxUint64 standing for "none", and proves each method against a function on
the fields. `RaftRefinement` and `RaftCommitRefinement` compare these functions with the handlers
as meant, and say exactly when they agree. What holds of the code as it stands is proved of these
functions directly: `RaftElection` says which steps an election must avoid for a term to have one
leader, and `RaftElectionFailures` gives a run for each of them that ends with two;
`RaftLogMatching` proves log matching over the runs without such steps. `RaftCompleteness` and
`RaftAgreement` say which further steps must be avoided for nothing committed ever to be lost or
contradicted, and prove it; `RaftLogFailures` gives runs with a single such step that commit two
commands at one index.
`RaftReplication` treats one leader and one follower, catching up and the order of delivery;
`RaftDelivery` treats the pump; `RaftVoteCounter` treats the vote counter that goroutines read
without the lock.

**The store.** `KvStore` replays commits into the two storages of a server and joins this to the
runs of the cluster; `Bytes` is the eight-byte form of the commit index.

**The radix tree.** `RadixEdges`, `RadixTree`, `RadixUpdate`, `RadixRemove`, `RadixWalk`,
`RadixQueries`, `RadixMap`, `RadixPopulated` and `RadixCompact` treat trees as values: what each
operation computes, that it is an operation on a finite map, when it leaves subtrees without leaves,
and when the tree stays the smallest, and the only one, for its map. `RadixHeap`
has the nodes as linked objects that are changed in place, each with the value it stands for and
the objects it is made of; `RadixObject` has the tree with the loops of the source.

**Checksum and pool.** `Checksum` and `ServerPool`.

## Where the code departs from what it says

The cluster model follows the stated intent; the model as written follows the code, and the
lemmas named here tell them apart.

- The vote guard (`pkg/server/consensus.go:193-194`) joins its two tests with "or" and never reads
  votedFor, against the comment at 184-187: `VoteAgreement`, `TwoLeadersByTwoVotes`,
  `CommittedTwiceByAnOldLog`.
- The term a candidate asks for is read (597) before it is incremented (604), so a node that has
  voted in a term can still ask for that term: `ElectionAsksForThePreviousTerm`,
  `RunningElectionCountsOtherVotes`, `TwoLeadersByStanding`. And the voter stays in the term before
  the one its candidate will lead, and goes on taking entries from the leader of that term:
  `CommittedTwiceInATermLeft`.
- The goroutines of an election look at the state of the node but not at its term (640), so an
  answer to an earlier election can win a later one: `VoteReplyAgreement`, `TwoLeadersByALateAnswer`.
- makeFollower stores the term and clears the vote unconditionally (690), and its callers at 652
  and 827 compare with a saved term: `TermGoesBack`, `TermGoesBackOnVote`, `ReplyAgreement`,
  `TwoLeadersByALateRefusal`, `TwoLeadersByATermSetBack`, `TwoLeadersByAnAnswerSetBack`.
- startLeader (727) never resets nextIndex and matchIndex, so a leader counts what peers held in an
  earlier leadership: `VoteReplyAgreement`, `KeptMatchIndexCommits`. A missing matchIndex reads as
  0, and an empty success at nextIndex 0 stores MaxUint64 (838): `CountAgreement`,
  `PhantomMajority`.
- The comparisons at 194, 283, 285 and 760 are unsigned, so "none" is the largest value:
  `TakeCommitAgreement`, `IdleLeaderCommitsEverything`.
- Line 835 compares the reply with the term of the request but not with currentTerm, so a late
  success of an earlier leadership is stored and counted: `ReplyAgreement`, `StaleSuccessCommits`.
- Line 798 reads commitIndex after the lock is released, so it can lie beyond the entries sent, and
  285 takes the length of the follower's log as the bound: `LateCommit`, `LateCommitOfAnotherEntry`.
  In the cluster model building a message is one step.
- Lines 779-799 check neither the state nor the term before sending, and groupBroadcast reads the
  term once more after the state was looked at: `SendAgreement`, `AppendKeepsCommittedIff`,
  `DeposedLeaderErases`.
- An append of the same term makes a candidate a follower and clears its vote (236-240). The
  cluster model keeps this, and election safety holds with it.
- Slips in the radix tree are corrected: the field is `bits` in `pkg/radix/edge.go:7` and `label` in
  `pkg/radix/node.go:57`; addNode gets the nil child instead of the parent and stores the whole key
  as prefix (`pkg/radix/radix.go:77-84`, `pkg/radix/radix.go:118`); searchLen is never refreshed
  (`pkg/radix/radix.go:188-192`); update tests the bound after indexing (`pkg/radix/node.go:42`).
- removePrefix empties a node without taking it out of its parent, and remove takes the last edge
  of a node without looking at the node again, so subtrees without leaves remain and Min or Max can
  miss keys. This is kept: `RemovePrefixKeepsPopulatedIff`, `RemoveKeepsPopulatedIff`,
  `MinIsLeastIff`, `MaxIsGreatestIff`, `RemovePrefixHidesTheRest`, `RemoveHidesTheRest`. For the same
  reason a node with one edge and no leaf can remain: `RemoveKeepsCompactIff`, `RemoveLeavesAChain`.
- The round-robin counter wraps around to 0, which is the next place only if the pool size divides
  2^64: `ServesInOneRoundIff`, `WrapPassesOver`.

## Model

| member | source | states |
|---|---|---|
| `RaftSafety.StateMachineSafety` | pkg/server/consensus.go:957-991 | In every run, at any two moments, two commit entries pushed by any two servers with the same index carry the same command. |
| `RaftSafety.LeaderCompleteness` | pkg/server/consensus.go:840-858 | Everything the leader of a term ever counted as committed is a prefix of the log of every leader of every later term, whichever is looked at first. |
| `RaftSafety.LogMatching` | pkg/server/consensus.go:253-276 | Two logs, of any servers at any moments, with the same term at an index agree on every entry up to it. |
| `RaftSafety.ElectionSafety` | pkg/server/consensus.go:595-676 | No term ever has two leaders in a run, at whatever moments they lead. |
| `RaftSafety.CommittedPrefixesAgree` | pkg/server/consensus.go:840-858 | Committed prefixes of any two servers at any two moments are prefixes one of the other. |
| `RaftProgress.CommandsCanAlwaysBeDelivered` | pkg/server/consensus.go:595-680 | From every reachable state of a cluster of at least two servers, old leaders, lost messages and stray entries included, the run can go on to where any given command has been pushed by every server, at one index that none had reached. |
| `RaftProgress.DeliversIff` | pkg/server/consensus.go:361-372 | That is possible if and only if the cluster has two servers; one alone never leads and never pushes. |
| `RaftProgress.LeaderDelivers` | pkg/server/consensus.go:777-863 | A leader whose peers follow it takes a command, and appends and replies bring it into every log, every commit index and every store. |
| `RaftProgress.FirstCommand` | pkg/server/consensus.go:595-680 | A run of eleven steps from three fresh servers: an election, a command submitted, sent, acknowledged and committed, and pushed with index 0 by two servers while the third is fresh. |
| `RaftProgress.TakenAtAnyTime` | pkg/server/consensus.go:161-316 | Whatever has been sent can be taken by its receiver at any later moment of the run, repeatedly and in any order. |
| `RaftSafety.CommittedForever` | pkg/server/consensus.go:257-276 | What a server has committed stays in its log for the rest of the run: truncation never reaches it. |
| `RaftSafety.CommitIndexMonotone` | pkg/server/consensus.go:283-290 | No commit index ever moves back in a run. |
| `RaftSafety.DeliveryIsTheCommittedLog` | pkg/server/consensus.go:957-988 | In every reachable state the pushed entries are exactly the log up to lastApplied with indexes 0, 1, 2, ...; lastApplied <= commitIndex < log length; no pending signal means lastApplied = commitIndex. |
| `RaftSafety.NextIndexStaysInLog` | pkg/server/consensus.go:780-789 | A leader's nextIndex for any peer lies within its log in every reachable state, so building an append never slices out of range. |
| `RaftSafety.StepKeepsInvariant` | pkg/server/consensus.go:161-991 | Every enabled step of every handler keeps the inductive invariant, for a history of elections, ballots and acknowledgements that only grows. |
| `RaftSafety.RunHistories` | pkg/server/consensus.go:361-411 | Every run from the initial state has at each moment a history for which the invariant holds, and later histories extend earlier ones. |
| `RaftSafety.InitialInvariant` | pkg/server/consensus.go:361-411 | The freshly built cluster satisfies the invariant with the empty history. |
| `RaftVoteSteps.TimeoutStep` | pkg/server/consensus.go:595-606 | Starting an election keeps the invariant. |
| `RaftVoteSteps.VoteRequestStep` | pkg/server/consensus.go:161-209 | Answering a vote request under the intended guard keeps the invariant, recording the ballot it casts. |
| `RaftVoteSteps.VoteReplyStep` | pkg/server/consensus.go:637-673 | Counting a vote, and becoming leader with a majority, keeps the invariant. |
| `RaftVoteSteps.OneWinner` | pkg/server/consensus.go:661-673 | Whoever has the ballots of a majority in a term is that term's one leader: two majorities would share a voter. |
| `RaftVoteSteps.WinnerHolds` | pkg/server/consensus.go:184-194 | A candidate elected by a majority holds every entry that may have been chosen in an earlier term: the up-to-date check and majority intersection. |
| `RaftLogSteps.SubmitStep` | pkg/server/consensus.go:917-932 | Appending a client command to the leader's log keeps the invariant. |
| `RaftLogSteps.SendStep` | pkg/server/consensus.go:777-799 | Sending an append built from any nextIndex of the leader keeps the invariant. |
| `RaftLogSteps.ReceiveAppendStep` | pkg/server/consensus.go:214-316 | Answering an append, whatever its age, keeps the invariant, recording the acknowledgement it gives. |
| `RaftLogSteps.ReceiveAppendReplyStep` | pkg/server/consensus.go:826-863 | Taking an append reply, with the commit it may trigger, keeps the invariant. |
| `RaftLogSteps.HoldersChose` | pkg/server/consensus.go:842-851 | An index of the current term that a majority is known to hold has been chosen: the majority acknowledged it in that term. |
| `RaftLogSteps.TooLate` | pkg/server/consensus.go:842-851 | Once a later term has a leader, an entry that an older leader still appends can no longer be chosen. |
| `RaftLogSteps.PumpStep` | pkg/server/consensus.go:957-991 | A turn of the pump keeps the invariant. |
| `RaftHistory.HoldingIsUpToDate` | pkg/server/consensus.go:184-194 | A log that holds part of a leader's log is at least as up to date as the last entry of that part. |
| `RaftHistory.ClaimMeansHolding` | pkg/server/consensus.go:184-194 | A log that is at least as up to date as a part that may have been chosen holds that part. |
| `RaftVoteSteps.FreshTerm` | pkg/server/consensus.go:661-673 | The term a candidate wins had no leader before. |
| `RaftHistory.SameTermSamePrefix` | pkg/server/consensus.go:253-276 | Two well-formed logs with the same term at an index come from the same leader's log and agree up to it. |
| `RaftMerge.MergeResult` | pkg/server/consensus.go:257-276 | Merging entries of a leader's log into a log that matches it leaves the leader's log up to the last entry sent, and either the old log unchanged or nothing else. |
| `RaftMerge.MergeKeepsCommon` | pkg/server/consensus.go:257-276 | A merge keeps every prefix the follower shares with the leader. |
| `RaftMerge.MergeKeepsIff` | pkg/server/consensus.go:257-276 | A merge of any entries keeps the first entries of the log if and only if the scan finds no conflict, or one beyond them. |
| `RaftNode.AgreeingUnique` | pkg/server/consensus.go:257-271 | The scan for the first conflicting entry has exactly one place to stop. |
| `RaftNode.MergeMeaning` | pkg/server/consensus.go:253-276 | The log an append leaves, entry by entry: unchanged if it has the terms sent; else cut at the end of what was sent, with the terms sent from its start on, each entry the one sent or the old one, and the old entries before it. |
| `RaftNode.GrantsExactly` | pkg/server/consensus.go:184-194 | A vote as the comment asks for it: granted exactly if the term is not older, no other candidate has the vote in it, and the last term is newer whatever the lengths, or equal in a log at least as long; with the whole new state and reply either way. |
| `RaftNode.UpToDateIsTotal` | pkg/server/consensus.go:184-194 | Of two logs one is at least as up to date as the other, and each only if they end with the same term at the same length. |
| `RaftNode.NewerTermIsJoined` | pkg/server/consensus.go:676-692 | Any reply or refused append of a newer term makes the receiver a follower of that term without a vote and changes nothing else. |
| `RaftNode.OlderTermIsIgnored` | pkg/server/consensus.go:214-250 | Any reply or append of an older term changes nothing, and the append is answered with the newer one. |
| `RaftNode.AcceptedAppend` | pkg/server/consensus.go:236-290 | An append of the term or a newer one whose predecessor is there succeeds, merges, and moves the commit index to the leader's as far as the log goes, with a signal, exactly if the leader's is ahead. |
| `RaftNode.RefusedAppend` | pkg/server/consensus.go:236-250 | A refused append of the receiver's own term ends a candidacy or leadership and changes nothing else. |
| `RaftNode.AdvanceCommit` | pkg/server/consensus.go:840-851 | The greatest index above the old one that is of the current term and held by a strict majority, or the old one if there is none. |
| `RaftNode.CommitEntries` | pkg/server/consensus.go:975-988 | The entries of a turn are the log slice, in order, each with its own index. |
| `Quorum.MajoritiesMeet` | pkg/server/consensus.go:667-667 | Two strict majorities of the same cluster share a member. |
| `RaftReplication.CatchUp` | pkg/server/consensus.go:777-862 | With the handlers as written, in repeated append and reply exchanges of one term the follower rejects exactly nextIndex minus the largest fitting point times, nextIndex - 1 never wraps around, and from the first acceptance on the follower's log starts with the leader's whole log. |
| `RaftReplication.ExchangeResult` | pkg/server/consensus.go:826-862 | One exchange as written ends the catch-up if the append fits and otherwise, never at 0, moves nextIndex back by one and leaves the follower alone. |
| `RaftReplication.DeliveryOutcome` | pkg/server/consensus.go:257-276 | After any accepted deliveries of one leader's messages, with whatever commit indexes, the log depends only on how far the messages reach. |
| `RaftReplication.DeliveryOrderIndependence` | pkg/server/consensus.go:257-276 | Two deliveries of the same set of messages, in any orders with any repeats and any commit indexes, leave the same log. |
| `RaftReplication.CommitOutcome` | pkg/server/consensus.go:283-290 | If every message carries a real commit index within what it brings, the follower's ends as the largest of them and its own. |
| `RaftReplication.CommitOrderIndependence` | pkg/server/consensus.go:283-290 | Then the commit index does not depend on the order either. |
| `RaftReplication.LateCommit` | pkg/server/consensus.go:283-290 | A commit index beyond the entries sent makes the follower commit what the leader committed if and only if the entries conflict with its log, or reach as far as it will commit, or its log has there an entry of the leader's term. |
| `RaftReplication.LateCommitOfAnotherEntry` | pkg/server/consensus.go:791-799 | Otherwise it can commit an entry of its own: an empty append with a commit index read later. |
| `RaftDelivery.OrderedDelivery` | pkg/server/consensus.go:957-988 | As written, in every interleaving of pump turns with commit advances that keep what is committed, the slice is in range, the pushed entries are exactly the log up to lastApplied with indexes 0, 1, 2, ..., and no pending signal means lastApplied = commitIndex. |
| `RaftDelivery.ReplyAdvances` | pkg/server/consensus.go:826-863 | Any append reply is such an advance. |
| `RaftDelivery.AppendAdvancesIff` | pkg/server/consensus.go:214-290 | An append is one if and only if it is refused, or first conflicts with the log beyond what is committed and brings no commit index to a node without entries. |
| `RaftDelivery.SubmitAdvances` | pkg/server/consensus.go:917-932 | Taking a command is one. |
| `RaftReplication.NothingIsErased` | pkg/server/consensus.go:257-276 | After all deliveries the log still starts with the leader's log up to the end of each message delivered: a late shorter one erases nothing. |
| `RaftVoteCounter.NeverOvercounts` | pkg/server/consensus.go:608-675 | Under every interleaving of the unlocked read and the later write-back, the counter less one is the size of some set of distinct peers that granted in this election. |
| `RaftVoteCounter.WonMeansMajority` | pkg/server/consensus.go:661-673 | A counter that passes the majority test is backed by a real majority of voters, the candidate included. |
| `RaftVoteCounter.UpdatesCanBeLost` | pkg/server/consensus.go:553-564 | Two grants both read before either is written back count as one. |
| `RaftVoteCounter.OneByOneCountsAll` | pkg/server/consensus.go:553-564 | When every goroutine writes back before the next one reads, the counter is one more than the number of distinct grants. |
| `RaftVoteCounter.CounterCanFall` | pkg/server/consensus.go:553-564 | A copy read early and written back late takes a counter of three back to two. |
| `RaftAsWritten.NewRaftProtocol` | pkg/server/consensus.go:361-411 | A node exactly when there are peers: a follower of term 0 with an empty log and MaxUint64 for every "none". |
| `RaftAsWritten.RaftProtocol.MakeFollower` | pkg/server/consensus.go:685-695 | Follower of the given term, whatever the old term, with no vote; nothing else changes. |
| `RaftAsWritten.RaftProtocol.LastLogIndexAndTerm` | pkg/server/consensus.go:579-590 | Index and term of the last entry, MaxUint64 twice for an empty log. |
| `RaftAsWritten.RaftProtocol.OnRequestVote` | pkg/server/consensus.go:161-209 | The whole new state and reply are those of the 64-bit vote function that VoteAgreement compares with the intended rule. |
| `RaftAsWritten.RaftProtocol.BeginElection` | pkg/server/consensus.go:595-640 | The new state and the request sent are those of the 64-bit election function, with the term read before the increment. |
| `RaftAsWritten.RaftProtocol.OnVoteReply` | pkg/server/consensus.go:637-673 | The new state and counter are those of the 64-bit reply function that VoteReplyAgreement compares with what is meant, given the copy of the counter read. |
| `RaftAsWritten.RaftProtocol.OnAppendEntries` | pkg/server/consensus.go:214-316 | The whole new state and reply are those of the 64-bit append function that AppendAgreement compares with the integer handler. |
| `RaftAsWritten.RaftProtocol.TakeEntries` | pkg/server/consensus.go:257-290 | An accepted append merges its entries and then moves the commit index by the unsigned rules, and changes nothing else. |
| `RaftAsWritten.RaftProtocol.FollowCommit` | pkg/server/consensus.go:282-290 | The commit index and the signal move by the unsigned rules and nothing else changes. |
| `RaftAsWritten.RaftProtocol.MergeEntries` | pkg/server/consensus.go:257-276 | The scan loop with its truncation leaves the log Merge gives. |
| `RaftAsWritten.RaftProtocol.Submit` | pkg/server/consensus.go:917-932 | Exactly a leader appends, one entry of its own term at the end. |
| `RaftAsWritten.RaftProtocol.CountMatchIndex` | pkg/server/consensus.go:757-765 | The loop counts the peers whose stored matchIndex, 0 when missing, is at least the index. |
| `RaftAsWritten.RaftProtocol.BroadcastRequest` | pkg/server/consensus.go:779-799 | The request is the one SendAgreement relates to the integer message: previous entry by wrap-around, all entries from nextIndex on. |
| `RaftAsWritten.RaftProtocol.OnAppendReply` | pkg/server/consensus.go:826-863 | The whole new state is that of the 64-bit reply function that ReplyAgreement and TermGoesBack are about. |
| `RaftAsWritten.RaftProtocol.AdvanceCommit` | pkg/server/consensus.go:840-858 | The loop leaves commitIndex where CommitLoop does and signals the pump exactly when it changed. |
| `RaftAsWritten.CommitLoop` | pkg/server/consensus.go:840-851 | The greatest index in range of the current term matched by a strict majority, or the old commit index when there is none. |
| `RaftAsWritten.RaftProtocol.CommitTurn` | pkg/server/consensus.go:957-991 | One wake-up pushes exactly the newly committed entries in order and sets lastApplied to commitIndex. |
| `RaftRefinement.VoteAgreement` | pkg/server/consensus.go:161-209 | Decoded, the vote handler as written equals the intended one if and only if: for a newer term the candidate is up to date; for the same term it also has no rival vote; for an older term it does not look newer and the node is not in term MaxUint64. |
| `RaftRefinement.SubmitAgreement` | pkg/server/consensus.go:917-932 | Decoded, taking a command as written is the intended step: a leader's log grows by one entry of its term with the command, nothing else changes, and nobody else takes it. |
| `RaftRefinement.ElectionAsksForThePreviousTerm` | pkg/server/consensus.go:595-640 | The node moves to the next term as intended, but its request carries the term before. |
| `RaftElection.SoundRunsElectOneLeader` | pkg/server/consensus.go:161-209 | Election safety as written: in every run of elections, with answers delayed and any append traffic beside them, no term ever has two leaders, provided no vote overwrites another candidate's in its term, nobody stands who has voted for another in the term it asks for, no late answer lowers the term or wins a later election, and no append reply lowers the term or wipes out a vote. |
| `RaftElection.SoundRun` | pkg/server/consensus.go:595-680 | Every such run keeps the invariant that each voter backs one candidate per term asked for, and contests only gain answers. |
| `RaftElection.AskStep` | pkg/server/consensus.go:161-209 | A vote that overwrites none keeps the invariant. |
| `RaftElection.TimeOutStep` | pkg/server/consensus.go:595-606 | Standing without a vote for another keeps the invariant. |
| `RaftElection.HearStep` | pkg/server/consensus.go:637-673 | Counting an answer in time keeps the invariant; a counter past half the cluster is backed by a majority. |
| `RaftElectionFailures.AgreedVoteIsKept` | pkg/server/consensus.go:184-194 | A vote handled as intended overwrites none. |
| `RaftElectionFailures.TwoLeadersByTwoVotes` | pkg/server/consensus.go:193-194 | A run of three fresh nodes, sound but for one vote under the guard as written, that ends with two leaders of term 1. |
| `RaftElectionFailures.TwoLeadersByStanding` | pkg/server/consensus.go:597-604 | A run, sound but for one node that stands after voting for another in the term it asks for, that ends with two leaders of term 1. |
| `RaftElectionFailures.TwoLeadersByALateAnswer` | pkg/server/consensus.go:640-673 | A run, sound but for one answer to an earlier election that is counted in a later one, that ends with two leaders of term 2. |
| `RaftElectionFailures.TwoLeadersByALateRefusal` | pkg/server/consensus.go:826-829 | A run, sound but for one late append reply that wipes out the vote of its term, that ends with two leaders of term 3. |
| `RaftElectionFailures.TwoLeadersByATermSetBack` | pkg/server/consensus.go:826-829 | A run, sound but for one late append reply that sets a term back, that ends with two leaders of term 3. |
| `RaftElectionFailures.TwoLeadersByAnAnswerSetBack` | pkg/server/consensus.go:651-654 | A run, sound but for one late vote answer that sets a term back, that ends with two leaders of term 3. |
| `RaftLogMatching.LogMatchingAsWritten` | pkg/server/consensus.go:253-276 | As written, in every run with sound steps whose appends come from leaders in their own term, delivered late, repeatedly or never, two logs that ever hold the same term at an index agree on every entry up to it. |
| `RaftLogMatching.RunReigns` | pkg/server/consensus.go:595-680 | Every such run has, per term led, one leader and one log that only grows, and every entry of every log is traced to it. |
| `RaftLogMatching.TakeLogs` | pkg/server/consensus.go:214-276 | Taking such an append, with the truncation, leaves a traced log. |
| `RaftAgreement.StateMachineSafetyAsWritten` | pkg/server/consensus.go:842-851 | Agreement as written: in every run of the 64-bit handlers whose steps are sound and careful, with appends and successes delivered late or repeatedly, no two nodes at any two moments have different entries committed at one index. Careful means: a vote goes to an up to date log, a voter takes no more entries of the term it voted in, a new leader starts with an empty matchIndex, no append tells a node with commits that nothing is committed, and a success commits only what its counted peers hold. The commit index in an append is the one the leader had when it built the entries. |
| `RaftAgreement.LeaderCompletenessAsWritten` | pkg/server/consensus.go:184-194 | In every careful run what a node has committed in a term is in the log of every leader of a later term, at any moment before or after. |
| `RaftAgreement.CommittedStays` | pkg/server/consensus.go:262-288 | In every careful run a node keeps what it has committed through every truncation, and its commit index does not fall, unsigned comparisons included. |
| `RaftAgreement.RunHistories` | pkg/server/consensus.go:161-316 | Every careful run carries, per term, the leader's log and how much of it each node has held, with every invariant at every moment. |
| `RaftAgreement.StepCommits` | pkg/server/consensus.go:826-863 | Each careful step keeps every committed prefix within a part of some leader's log that a majority has held, and loses no commit. |
| `RaftAgreement.MatchedIsChosen` | pkg/server/consensus.go:842-851 | An index of the leader's term that a majority of matchIndex reaches has been held by a majority. |
| `RaftAgreement.TakenCommit` | pkg/server/consensus.go:282-288 | An accepted append that does not carry "nothing committed" to a node with commits leaves the later of the two commit indexes. |
| `RaftCompleteness.StepSafe` | pkg/server/consensus.go:161-316 | Each careful step keeps the invariant: what a majority may yet have held is in the log of everybody who held it and in the log every later leader was elected with. |
| `RaftCompleteness.WinnerHolds` | pkg/server/consensus.go:662-673 | A candidate with a majority, counted in the term before the one it will lead, holds everything that may have been chosen in earlier terms. |
| `RaftCompleteness.BackerIsClosed` | pkg/server/consensus.go:597-606 | Whoever has backed a contest has left the term asked for and all before it, or stands in it as a follower with its vote given. |
| `RaftCompleteness.TooLate` | pkg/server/consensus.go:917-932 | Once a later term has been won, an entry that only the leader of an earlier term holds can no longer be held by a majority. |
| `RaftLogFailures.CommittedTwiceInATermLeft` | pkg/server/consensus.go:597-604 | A run with every step sound, careful but for one append taken in a term the node has voted in, after which two leaders have committed different commands at index 0. |
| `RaftLogFailures.CommittedTwiceByAnOldLog` | pkg/server/consensus.go:193-194 | The same by one vote, the first of its term, that the guard as written gives to a candidate without the committed entry. |
| `RaftLogFailures.CarefulRunCommits` | pkg/server/consensus.go:842-851 | A careful run of three fresh nodes elects a leader and commits its first entry. |
| `RaftRefinement.VoteReplyAgreement` | pkg/server/consensus.go:637-673 | A candidate handles a vote reply as meant if and only if a reply newer than the election is newer than the current term, any other is not, the counter is the number of votes of the current term, and a majority is brought by this reply with no indexes left of an earlier leadership. |
| `RaftRefinement.RunningElectionCountsOtherVotes` | pkg/server/consensus.go:597-604 | No vote of a running election is handled as meant: it is one for the term before the candidate's own. |
| `RaftRefinement.AppendAgreement` | pkg/server/consensus.go:214-290 | Decoded, append handling as written equals the integer handler if and only if an accepted message neither carries "nothing committed" to a node that has committed something nor a real commit index that leaves the log empty, and the node is not in term MaxUint64 when the message is of another. |
| `RaftRefinement.TakeCommitAgreement` | pkg/server/consensus.go:283-290 | The unsigned comparisons agree with the signed ones except in exactly those two cases. |
| `RaftRefinement.IdleLeaderCommitsEverything` | pkg/server/consensus.go:283-285 | A heartbeat from a leader with nothing committed makes a follower that has committed something commit its whole log. |
| `RaftRefinement.SendAgreement` | pkg/server/consensus.go:779-799 | Decoded, the append built with wrap-around is one a server of the cluster can send if and only if the node is a leader and the term read before is still its own. |
| `RaftRefinement.AppendKeepsCommittedIff` | pkg/server/consensus.go:257-276 | An accepted append, from whomever, keeps what the node has committed if and only if its entries do not conflict with the log, or first beyond the commit index. |
| `RaftRefinement.DeposedLeaderErases` | pkg/server/consensus.go:784-799 | The role is not checked: a leader that has stepped down sends its log in the name of the new term, which no server of any cluster can do, and a follower whose committed entry conflicts takes it and loses the entry. |
| `RaftCommitRefinement.CountAgreement` | pkg/server/consensus.go:757-765 | The count as written never misses a holder, and is the number of peers that hold the entry if and only if no peer is counted for a missing or MaxUint64 matchIndex. |
| `RaftCommitRefinement.CommitLoopAgreement` | pkg/server/consensus.go:840-851 | With no such peer above the commit index the loop as written is the integer loop. |
| `RaftCommitRefinement.CommitLoopAgreesIff` | pkg/server/consensus.go:840-851 | The two loops end at the same index if and only if every index the count as written lets through lies below one a majority really holds. |
| `RaftCommitRefinement.PhantomMajority` | pkg/server/consensus.go:757-765 | A leader of five whose peers hold nothing commits its entry after one empty success. |
| `RaftCommitRefinement.ReplyAgreement` | pkg/server/consensus.go:826-863 | For a request of any term the reply handler as written equals the integer one if and only if: a node that steps down does so for a newer term, or was a follower of that term without a vote already; a reply of an older term changes none of a leader's indexes; and one of the current term commits nothing by peers that are counted without holding it. |
| `RaftCommitRefinement.StaleSuccessCommits` | pkg/server/consensus.go:835-851 | A success to a request of term 1 makes a leader of term 3 commit an entry only it holds; as meant it commits nothing. |
| `RaftCommitRefinement.KeptMatchIndexCommits` | pkg/server/consensus.go:718-750 | A leader that keeps matchIndex from an earlier leadership commits an entry only it holds, with no peer counted for a missing index; with the indexes reset it commits nothing. |
| `RaftCommitRefinement.TermGoesBack` | pkg/server/consensus.go:826-829 | A stale append reply lowers currentTerm if and only if its term lies strictly between the term of the request and the current term. |
| `RaftCommitRefinement.TermGoesBackOnVote` | pkg/server/consensus.go:651-654 | The same for a vote reply and the saved election term. |
| `RaftCommitRefinement.PumpAgreement` | pkg/server/consensus.go:957-991 | With ordered indexes the pump as written is in range and, decoded, is the integer pump. |
| `Bytes.LittleEndianRoundTrip` | pkg/server/main_server.go:296-298 | Every value below 256^n survives n bytes little-endian. |
| `Bytes.Uint64RoundTrip` | pkg/io/utils.go:38-42 | Reading back the eight bytes written for a 64-bit index gives the index. |
| `Bytes.WriteAfterRead` | pkg/io/utils.go:38-42 | Writing what was read gives the same bytes back. |
| `Bytes.ByteAt` | pkg/server/main_server.go:296-298 | Byte i of what is written is the i-th digit of the value to base 256, the lowest first. |
| `Bytes.ReadsEight` | pkg/io/utils.go:38-42 | Reading uses the first eight bytes alone, and gives 0 when there are fewer. |
| `KvStore.ReplayKeepsTheLast` | pkg/server/main_server.go:278-309 | After any sequence of commits each key has the value and the index of its last committed entry, and only committed keys are there. |
| `KvStore.VolatileStorage.constructor` | pkg/server/storage.go:100-103 | A new storage is empty. |
| `KvStore.VolatileStorage.Set` | pkg/server/storage.go:137-146 | The key has the value; every other key is as before. |
| `KvStore.VolatileStorage.Get` | pkg/server/storage.go:105-135 | Found exactly when the key is there, with its value. |
| `KvStore.VolatileStorage.GetCopy` | pkg/server/storage.go:177-188 | The loop builds an equal map. |
| `KvStore.VolatileStorage.Size` | pkg/server/storage.go:193-197 | The number of keys. |
| `KvStore.Server.constructor` | pkg/server/main_server.go:278-309 | Both storages of a new server are those of an empty replay. |
| `KvStore.Server.Apply` | pkg/server/main_server.go:290-298 | Both storages, from the replay of what was applied, become the replay with one more commit. |
| `KvStore.Server.ReadCommits` | pkg/server/main_server.go:278-309 | After the loop both storages are the replay of everything delivered. |
| `KvStore.Server.GetValue` | pkg/server/main_server.go:380-417 | Between two commits a running server returns the value and the index of the last entry committed for the key, or failure exactly when there is none; a caller that gives up gets what was read so far; a server that is not running answers with an error. |
| `KvStore.SameCommandsSameStore` | pkg/server/main_server.go:278-309 | Equal commands with equal indexes replay to equal storages. |
| `KvStore.ReplicasAgree` | pkg/server/main_server.go:278-309 | In every run two servers that have applied equally far, at whatever moments, hold equal values and equal indexes. |
| `RadixObject.Tree.constructor` | pkg/radix/radix.go:55-68 | A new tree stands for the empty map and is populated. |
| `RadixObject.Tree.Insert` | pkg/radix/radix.go:91-155 | The linked tree stays a tree without sharing and stands for the old map with the key set; the old value is returned; size stays the cardinality; a populated tree stays populated. |
| `RadixObject.Tree.Remove` | pkg/radix/radix.go:180-211 | The tree stands for the old map without the key and returns its old value; a populated tree stays so if and only if the removed node has edges or its parent is the root, has a leaf or has another edge. |
| `RadixObject.Tree.RemovePrefix` | pkg/radix/radix.go:216-270 | Exactly the keys with the prefix go, and their number is returned; a populated tree stays so if and only if the prefix is empty or no key has it. |
| `RadixObject.Tree.Len` | pkg/radix/radix.go:70-72 | The cardinality of the map. |
| `RadixObject.Tree.Lookup` | pkg/radix/radix.go:288-319 | The value the map has for the key, or none. |
| `RadixObject.Tree.LongestPrefix` | pkg/radix/radix.go:324-363 | The longest key of the map that is a prefix of the query with its value; none exactly when no key is one. |
| `RadixObject.Tree.Min` | pkg/radix/radix.go:368-388 | The smallest key of the map with its value, in every populated tree; in any tree if and only if the map is empty or no subtree without leaves hangs on the leftmost path. |
| `RadixObject.Tree.Max` | pkg/radix/radix.go:394-413 | The largest key of the map with its value, in every populated tree; in any tree if and only if the map is empty or no subtree without leaves hangs on the rightmost path. |
| `RadixObject.Tree.Walk` | pkg/radix/radix.go:418-420 | The walk visits the leaves in strictly increasing key order, one per key of the map, until the callback stops it. |
| `RadixObject.Tree.WalkPrefix` | pkg/radix/radix.go:425-452 | The walk visits the leaves under the prefix, in order, and no others, until the callback stops it. |
| `RadixObject.PreorderWalk` | pkg/radix/radix.go:491-503 | Visits and stops as a left-to-right pass over the list of leaves does. |
| `RadixObject.Empty` | pkg/radix/radix.go:225-246 | The subtree is emptied and the number of its leaves returned. |
| `RadixObject.RemovePrefixBelow` | pkg/radix/radix.go:223-270 | The linked subtree, changed in place, stands for what RemovePrefixAt gives, with its count, and uses no new objects. |
| `RadixHeap.TreeNode.Search` | pkg/radix/node.go:57-59 | Binary search over the links finds the first label that is not below the byte. |
| `RadixHeap.TreeNode.GetEdge` | pkg/radix/node.go:53-63 | The child behind the byte exactly when the sorted edges have the byte. |
| `RadixHeap.TreeNode.Add` | pkg/radix/node.go:23-26 | The node stays a tree and has one more edge, in its sorted place. |
| `RadixHeap.TreeNode.Update` | pkg/radix/node.go:31-48 | The edge with the byte leads to the new node, whose objects replace those of the old child; the other edges are as before. |
| `RadixHeap.TreeNode.DelEdge` | pkg/radix/node.go:65-75 | The edge with the byte is gone, if it was there; the other edges are as before. |
| `RadixHeap.TreeNode.Join` | pkg/radix/radix.go:275-283 | The node takes over leaf and edges of its only child under the concatenated prefix and stays a tree. |
| `RadixHeap.InsertBelow` | pkg/radix/radix.go:91-155 | The linked subtree, changed in place, stands for what InsertAt gives; it grows by fresh objects only. |
| `RadixHeap.SplitEdge` | pkg/radix/radix.go:131-153 | The new node between parent and child stands for Split; only the parent, the child and new objects change. |
| `RadixHeap.RemoveNode` | pkg/radix/radix.go:159-175 | The node loses its leaf and is dropped or joined, as Strip says, and the parent stays a tree. |
| `RadixHeap.RemoveKeyBelow` | pkg/radix/radix.go:180-211 | The linked subtree, changed in place, stands for what RemoveBelow gives, with the old value. |
| `RadixHeap.OthersApart` | pkg/radix/radix.go:91-155 | What is behind one edge shares no object with the rest of its node. |
| `RadixMap.TreeIsAMap` | pkg/radix/radix.go:91-283 | Over every sequence of Insert, Remove and RemovePrefix the tree stays valid, equals the finite map under the same operations, and gives the same answers. |
| `RadixMap.UpdateRefines` | pkg/radix/radix.go:91-283 | Each operation on a valid tree is the operation on its map, with the same answer. |
| `RadixPopulated.InsertKeepsPopulated` | pkg/radix/radix.go:91-155 | Insert keeps the property that every node but the root has a leaf below it. |
| `RadixPopulated.RemoveKeepsPopulatedIff` | pkg/radix/radix.go:159-211 | Remove keeps it if and only if it does not take the last edge of a node that has no leaf and is not the root. |
| `RadixPopulated.RemovePrefixKeepsPopulatedIff` | pkg/radix/radix.go:216-270 | removePrefix keeps it if and only if the prefix is empty or no key has it. |
| `RadixPopulated.CleanRunsKeepTheEnds` | pkg/radix/radix.go:368-413 | After any sequence of updates that keep it, inserts alone for one, Min and Max are the smallest and the largest key of the map. |
| `RadixPopulated.RemovePrefixHidesTheRest` | pkg/radix/radix.go:225-246 | Two inserts and a prefix removal leave a subtree without leaves before the one key left. |
| `RadixPopulated.RemoveHidesTheRest` | pkg/radix/radix.go:159-175 | So do three inserts and two removals of single keys. |
| `RadixCompact.CompactIsCanonical` | pkg/radix/radix.go:91-155 | A map has one tree in which every node below the root has a leaf or forks: two such trees are equal if and only if they hold the same map. |
| `RadixCompact.HistoryDoesNotShow` | pkg/radix/radix.go:91-211 | Two sequences of updates that keep it so, inserts in any two orders for example, end in the same tree if and only if they end in the same map. |
| `RadixCompact.CompactIsSmall` | pkg/radix/radix.go:91-155 | Such a tree has at most 2n + 1 nodes for n keys. |
| `RadixCompact.InsertKeepsCompact` | pkg/radix/radix.go:91-155 | Insert keeps every node below the root one with a leaf or a fork. |
| `RadixCompact.RemoveKeepsCompactIff` | pkg/radix/radix.go:159-211 | Remove keeps it if and only if it does not take one of just two edges of a leafless node below the root. |
| `RadixCompact.RemovePrefixKeepsCompactIff` | pkg/radix/radix.go:216-270 | removePrefix keeps it if and only if the prefix is empty or no key has it. |
| `RadixCompact.RemoveLeavesAChain` | pkg/radix/radix.go:159-175 | Of the tree of three inserts a single removal leaves a leafless node with one edge. |
| `RadixCompact.CuttingJoins` | pkg/radix/radix.go:241-246 | A prefix cut from such a node joins it with what is left of its child. |
| `RadixPopulated.StubHidesTheRest` | pkg/radix/radix.go:368-388 | In that tree Min finds nothing although a key is stored. |
| `RadixUpdate.InsertFind` | pkg/radix/radix.go:91-155 | After Insert lookup has the new value at the key and the old answers everywhere else; the value returned is the old one. |
| `RadixUpdate.InsertOk` | pkg/radix/radix.go:91-155 | Insert keeps paths, labels and sortedness well formed. |
| `RadixUpdate.SplitFind` | pkg/radix/radix.go:131-153 | Splitting an edge adds the new key and changes no other lookup. |
| `RadixRemove.RemoveFind` | pkg/radix/radix.go:180-211 | After remove lookup has nothing at the key and the old answers everywhere else. |
| `RadixRemove.RemoveOk` | pkg/radix/radix.go:159-211 | Remove, with its drops and joins, keeps the tree well formed. |
| `RadixRemove.JoinFind` | pkg/radix/radix.go:275-283 | Joining a leafless node with its only child changes no lookup. |
| `RadixRemove.RemovePrefixFind` | pkg/radix/radix.go:223-270 | Lookup has nothing under the prefix and the old answers elsewhere. |
| `RadixRemove.RemovePrefixOk` | pkg/radix/radix.go:223-270 | removePrefix keeps the tree well formed. |
| `RadixRemove.RemovePrefixCount` | pkg/radix/radix.go:225-246 | The number returned is the number of leaves that went. |
| `RadixTree.FindMeansLeaf` | pkg/radix/radix.go:288-319 | Lookup finds a value if and only if the leaf with that key and value is in the tree. |
| `RadixWalk.LeavesIncrease` | pkg/radix/radix.go:491-503 | The preorder list of leaves is strictly increasing in byte order. |
| `RadixWalk.FindIsContents` | pkg/radix/radix.go:288-319 | Under lookup a well-formed tree is the finite map of its leaves. |
| `RadixWalk.ContentsSize` | pkg/radix/radix.go:70-72 | The map has one key per leaf. |
| `RadixWalk.VisitIsPrefix` | pkg/radix/radix.go:491-503 | A stopped visit is a prefix of the list that ends at the first leaf that stops it; an unstopped one is the whole list. |
| `RadixQueries.DeepestIsLongest` | pkg/radix/radix.go:324-363 | No stored prefix of the query is longer than the deepest leaf met on the way down. |
| `RadixQueries.LongestMeaning` | pkg/radix/radix.go:324-363 | The deepest leaf met on the way down is the longest stored prefix of the query; there is none exactly when no key is a prefix. |
| `RadixQueries.UnderExact` | pkg/radix/radix.go:425-452 | The list of leaves under a prefix holds all leaves with the prefix, only those, in increasing order. |
| `RadixQueries.StepDown` | pkg/radix/radix.go:432-451 | Each step of the prefix walk loses no leaf under the prefix. |
| `RadixQueries.MinIsLeastIff` | pkg/radix/radix.go:368-388 | Min is the smallest key if and only if the map is empty or no subtree without leaves hangs on the leftmost path above any leaf. |
| `RadixQueries.MaxIsGreatestIff` | pkg/radix/radix.go:394-413 | Max is the largest key if and only if the map is empty or no subtree without leaves hangs on the rightmost path. |
| `RadixQueries.EndsOfPopulated` | pkg/radix/radix.go:368-413 | Where every node but the root has a leaf below it, Min and Max are the smallest and the largest key of the map. |
| `RadixEdges.Position` | pkg/radix/node.go:57-59 | The first edge whose byte is not below the one searched. |
| `RadixEdges.AppendAndSort` | pkg/radix/node.go:23-26 | Any sorted arrangement of the old edges and the new one is insertion at the searched position. |
| `RadixEdges.SortedIsUnique` | pkg/radix/edge.go:11-25 | Edges with distinct bytes have only one sorted arrangement. |
| `RadixEdges.ChildAfterAdd` | pkg/radix/node.go:23-26 | An addition changes the child behind its own byte only. |
| `RadixEdges.ChildAfterUpdate` | pkg/radix/node.go:31-48 | An update keeps the edges sorted and changes the child behind its own byte only. |
| `RadixEdges.ChildAfterDel` | pkg/radix/node.go:65-75 | A deletion keeps the edges sorted and removes the child behind its own byte only. |
| `RadixKeys.LongestMatch` | pkg/radix/radix.go:12-29 | The length of the longest common prefix: equal up to there and different at the next byte, if both have one. |
| `Checksum.ComputeChecksum` | pkg/flow/flow_headers.go:36-52 | Never zero; together with what the 32-bit accumulator holds it folds to 0xffff, which no other result does; words plus result fold to 0xffff if and only if the number of carries the 32-bit accumulator lost is a multiple of 65535. |
| `Checksum.ByteCounts` | pkg/flow/flow_headers.go:37-43 | Each byte of a buffer counts 256 times at an even position, the last one of an odd buffer included, and once at an odd position. |
| `Checksum.WordsAddUp` | pkg/flow/flow_headers.go:37-43 | The sum of an even number of bytes and whatever follows is the sum of both sums. |
| `Checksum.PaddingIsZero` | pkg/flow/flow_headers.go:40-42 | An odd buffer sums as if a zero byte followed it. |
| `Checksum.ChecksumIsUnique` | pkg/flow/flow_headers.go:47-51 | A sum has only one checksum other than zero with which it checks out. |
| `Checksum.Iphdr.WireFields` | pkg/flow/flow_headers.go:16-34 | Each of the twenty bytes is the byte of the field that belongs there, high byte first. |
| `Checksum.Iphdr.WireSum` | pkg/flow/flow_headers.go:29-34 | The words of the header are its fields. |
| `Checksum.Udphdr.WireFields` | pkg/flow/flow_headers.go:61-85 | Both addresses, zero, protocol, length, ports, length, checksum and payload stand in this order at their offsets. |
| `Checksum.Udphdr.WireSum` | pkg/flow/flow_headers.go:61-85 | The sum over the wire is that of both addresses, the protocol, twice the length, both ports, the checksum and the payload. |
| `Checksum.NothingIsLost` | pkg/flow/flow_headers.go:37-43 | Up to 131074 bytes the accumulator does not overflow. |
| `Checksum.LongBuffersLoseCarries` | pkg/flow/flow_headers.go:37-43 | 131076 bytes of 0xff lose one carry: the bound is tight. |
| `Checksum.FoldIsResidue` | pkg/flow/flow_headers.go:44-46 | The fold loop preserves the value modulo 65535, ends within 16 bits, and gives zero for zero only. |
| `Checksum.AllOnesIff` | pkg/flow/flow_headers.go:44-46 | A sum folds to 0xffff if and only if it is a positive multiple of 65535. |
| `Checksum.WordAt` | pkg/flow/flow_headers.go:29-34 | Installing a word at an even offset adds exactly its value to the sum. |
| `Checksum.Iphdr.InstallChecksum` | pkg/flow/flow_headers.go:29-34 | The 20-byte header, and the sum of its fields, with the checksum in place fold to 0xffff; the checksum is not zero and no other field changes. |
| `Checksum.Udphdr.InstallChecksum` | pkg/flow/flow_headers.go:61-75 | Pseudo header, header and payload with the checksum in place fold to 0xffff exactly when no carries are lost modulo 65535, so for every payload up to 131054 bytes; the checksum is never zero. |
| `ServerPool.Pool.constructor` | pkg/loadbalancer/serverpool.go:59-67 | An empty pool with its counter at zero. |
| `ServerPool.Pool.Add` | pkg/loadbalancer/serverpool.go:59-67 | The member goes to the end, poolSize stays the number of members, the counter stays. |
| `ServerPool.Pool.UpdateMemberStatus` | pkg/loadbalancer/serverpool.go:84-95 | The first member with the URL has the flag; every other member keeps its own. |
| `ServerPool.Pool.Next` | pkg/loadbalancer/serverpool.go:72-79 | The counter goes up by one, wrapping at 2^64, and is reduced by the pool size. |
| `ServerPool.Pool.RoundRobin` | pkg/loadbalancer/serverpool.go:100-118 | The scan loop selects and leaves the counter as Pick says, for the flags at the call. |
| `ServerPool.FirstAlive` | pkg/loadbalancer/serverpool.go:107-116 | The first live place around the pool from the start, or none after a full round. |
| `ServerPool.PickSucceedsIff` | pkg/loadbalancer/serverpool.go:100-118 | A call succeeds if and only if some member is alive, and then selects a live one. |
| `ServerPool.PickIsFirst` | pkg/loadbalancer/serverpool.go:100-118 | A call selects the first live member on the way round from the place after the counter, and leaves the counter there, or just moved by one if that member was the first looked at. |
| `ServerPool.FailingCall` | pkg/loadbalancer/serverpool.go:100-118 | A call that finds nobody alive still moves the counter by one, to 0 after 2^64 - 1. |
| `ServerPool.AfterFailingCalls` | pkg/loadbalancer/serverpool.go:73-79 | After j calls in vain a call that finds everybody alive selects the member j + 1 places after the counter and leaves the counter j + 1 further, modulo 2^64. |
| `ServerPool.PickComesCloser` | pkg/loadbalancer/serverpool.go:100-118 | A call selects a live member and, short of the wrap-around or at it in a pool whose size divides 2^64, selects a given one or comes strictly closer to it; at the wrap-around the counter is below the pool size. |
| `ServerPool.NoStarvation` | pkg/loadbalancer/serverpool.go:100-118 | A member alive at every call is selected within 2n calls, n the pool size, from any counter and however other flags change between calls, and within n from a steady one. |
| `ServerPool.ServesInOneRoundIff` | pkg/loadbalancer/serverpool.go:100-118 | For all flags every member that stays alive is selected within n calls if and only if the counter does not wrap around in fewer than n further calls, or does so at the first, or n divides 2^64. |
| `ServerPool.WrapPassesOver` | pkg/loadbalancer/serverpool.go:72-79 | From every other counter, with all members alive, n calls pass over a member that is named. |

## Left out

- gRPC, REST, metrics, templates, configuration, and the test knobs that drop or force messages.
- Timers and tickers: a timeout is a step that may happen at any time. RaftProgress shows that progress is always possible, not that timers bring it about.
- Crash and restart, Start, Shutdown, Disconnect and Reconnect, and the Dead state: nothing is persisted that a restart could be proved about.
- Mutex order and bounded channels: a handler is one step, the signal queue of the pump is unbounded; the split read and write of the vote counter is the exception.
- The races of goroutines outside the vote counter, among them a read by GetValue between the two Sets of one commit.
- FileStorage and its gob encoding; HashSelection and the hash functions; the retry callbacks of the load balancer; sniffer, traffic generator and service discovery.
- NewFromMap with a non-nil map, and the path walk PreorderWalk of the tree: they add nothing beyond Insert and preorderWalk.
- RaftAsWritten.RaftProtocol.CommitTurn: requires the slice of log entries to be in range, where the source would panic; PumpAgreement shows that ordered indexes suffice.
- RadixHeap.InsertBelow: the source goes down in a loop, the model by calls, so that the ghost fields of the nodes passed can follow on the way back; the same holds for RadixHeap.RemoveKeyBelow. The source's leaf records are values in the node's field here, so sharing one between two nodes is not modelled.
- RadixHeap.TreeNode.Add: puts the edge in its sorted place at once; that append followed by any correct sort gives the same is RadixEdges.AppendAndSort. Sharing of a backing array between slices is not modelled.
- RadixObject.Tree.Walk: the callback is a pure function of key and value; that a callback changes other state is not modelled.
- ServerPool.NoStarvation: calls are serialised, membership is fixed, and the pool is smaller than half of 2^64.
- ServerPool.Pool.RoundRobin: requires a non-empty pool, since the source divides by its size.
- KvStore.Server.GetValue: is a read between two commits.
- RaftElection.SoundRunsElectOneLeader: the conditions on the steps are sufficient, and for each half of each of them a run shows that it cannot be dropped; that every unsound step leads to two leaders in some continuation is not claimed. The counter of an election is updated in one step here; RaftVoteCounter has the split read and write.
- RaftAgreement.StateMachineSafetyAsWritten: the conditions on the steps are sufficient; that two of them cannot be dropped is shown by runs (RaftLogFailures), for the others by single steps that commit what no majority holds or what the leader does not have (KeptMatchIndexCommits, IdleLeaderCommitsEverything, PhantomMajority, StaleSuccessCommits, LateCommitOfAnotherEntry). The pump is no step of these runs; RaftDelivery has it.
