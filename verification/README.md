# A verified model of the distributed synchronization system

The project models the four cores of the system and proves what they are for:

- **Raft consensus** (`src/consensus/raft.py`). `RaftTypes` and `RaftHandlers` give the state of a
  node and what each handler does to it, `RaftNodes.RaftNode` is the object whose methods change that
  state in place, and `RaftCluster` is the cluster: any number of nodes and a set of messages that may
  be lost, delayed, reordered or delivered again. A handler is one step, because no handler suspends
  between reading and writing the state; winning an election and appending the no-op entry is one step
  too. `RaftSafety` has the theorems about runs, `RaftDelivery` and `RaftAnswers` those about single
  messages, `RaftOrigins` where entries come from, and `RaftProgress` a run in which all goes well.
- **Replicated locks** (`src/nodes/lock_manager.py`). `LockTable` is the lock table as a value,
  `LockManagers` the objects, `LockExclusion` who holds together with whom, `WaitGraph` the cycle
  search, `LockEdges` and `LockWaits` which edges there are and what they mean, `LockLedger` what becomes
  of every request, `ReplicatedLocks` the table on top of the replicated log.
- **The queue** (`src/nodes/queue_node.py`). `QueueLifecycle` is several nodes around one store,
  `QueueOrder` the order of delivery, `QueueNodes` the objects, `RangeAssignment` the partitions of a
  consumer group, `HashRings` the consistent hash ring.
- **The LFU store** (`src/nodes/cache_node.py`). `LfuCaches` holds the frequency buckets and the plain
  cache of counts that they are proved to refine, `LfuLimits` where exactly that holds.

## Three guards

The protocol of Ongaro and Ousterhout (2014, sections 5.2 to 5.4) relies on three checks that the code
intends and does not always make. Every handler takes a value of type `Guards` that says which of them
are made, so that the code and its repair are the same functions; `AsWritten` is the code.

- `keepVote`: the vote is cleared only when the term rises. `_become_follower` clears it always
  (`raft.py:297`), and `handle_append_entries` calls it for the current term too (`raft.py:416`).
- `leaderOnly`: AppendEntries is built only by a leader. `_replicate_to_peer` (`raft.py:316-338`) does
  not check, and a call spawned at `raft.py:471` can run after its node has stepped down.
- `currentTermAck`: an AppendEntries response counts only in the term it was given in.
  `raft.py:350-366` rejects only responses of a higher term.

`RaftGuards.AgreementNeedsEveryGuard` is the exact condition: all nodes apply the same commands in
every run if and only if all three are there. For each missing guard `RaftFlaws` has a concrete run that
goes wrong; without the first, three nodes are enough for two leaders in one term. Election safety needs
the first guard only. The claims of the class docstring about strong consistency and linearizable
semantics (`raft.py:69-74`) and of "No split-brain scenarios" (`lock_manager.py:145`) do not hold of the
code as it is; the agreement they rest on holds of the repaired protocol.

## Other findings

- Bounding the commit index by the length of the log can lower it at a node whose log was cut below it
  (`RaftAnswers.CommitCanFall`, with `RaftAnswers.CommitTakenExactly` for the exact condition); in runs of
  the repaired protocol it never falls.
- A cancelled request leaves its edges in the wait-for graph, and the detector can report a deadlock
  that is not there (`LockWaits.CancelledWaitStays`); `LockWaits.CancelKeepsWaits` says exactly when.
- The first read of a cached line does not move it to a higher bucket. An eviction can throw out a key
  that was read and keep one that never was (`LfuLimits.ReadKeyThrownOut`);
  `LfuLimits.VictimIsLeastUsed` says exactly when.
- Overwriting a cached line that was read twice, or invalidating any cached line, leaves a stale entry in
  a bucket (`LfuLimits.OverwriteKeepsIndex`, `LfuLimits.InvalidateKeepsIndex`), and a later put raises an
  exception when that entry heads the least bucket of a full cache (`LfuLimits.PutRaisesExactly`, with
  `LfuLimits.PutFailsAfterInvalidate` and `LfuLimits.OverwriteLeadsToFault` as examples). Runs whose
  index stays sound never raise, and `LfuLimits.IndexSoundExactly` says which runs these are.
- Adding a node to the hash ring and removing it again loses keys of other nodes exactly when virtual
  replicas collide (`HashRings.AddThenRemove`), and exactly then it matters in which order nodes join
  (`HashRings.JoiningOrder`).

## Model

| member | source | states |
|---|---|---|
| `RaftSafety.StateMachineSafety` | src/consensus/raft.py:483-495 | over whole runs of any cluster size, the sequences any two nodes have applied at any two moments are prefixes of one another |
| `RaftSafety.LeadersHaveCommitted` | src/consensus/raft.py:223-238 | whatever a node has committed at some moment is in the log of every later leader of its term or a higher one |
| `RaftLogs.LeaderCompleteness` | src/consensus/raft.py:373-398 | an entry of the leader's own term stored on a quorum is in the log of the leader of every later term |
| `RaftSafety.LogMatching` | src/consensus/raft.py:420-437 | in every reachable state, equal terms at one index mean equal logs up to it; terms never fall along a log and each entry carries its own position |
| `RaftSafety.AppliedInOrder` | src/consensus/raft.py:483-495 | the applied sequence is the beginning of the log, without a gap and in index order, and never passes the commit index |
| `RaftSafety.CommitNeverFalls` | src/consensus/raft.py:439-443 | along every run no commit index falls and no applied entry is taken back |
| `RaftSafety.ActionInv` | src/consensus/raft.py:158-495 | every step of the cluster keeps the invariant that ties logs, votes, acknowledgements, commit indexes and messages in flight to the history of the run |
| `RaftLogs.QuorumsMeet` | src/consensus/raft.py:265-267 | any two sets of n//2+1 nodes out of n share a node |
| `RaftLogs.MergeCanonical` | src/consensus/raft.py:429-437 | the append loop ends with the old log if that already has the message's part of the leader's log, else with exactly that part; what the two logs had in common survives |
| `RaftDelivery.RedeliveryIsIgnored` | src/consensus/raft.py:400-445 | in every run, once a node has answered an AppendEntries message of its present term with success, every message of that term that reaches no further, the same one again or an older and shorter one, passes the consistency check and leaves its log alone |
| `RaftReplicationSteps.MergedLogOk` | src/consensus/raft.py:420-437 | an accepted message keeps every acknowledged and committed entry of the follower and leaves the leader's log up to the message's end at the front of its log |
| `RaftReplicationSteps.CutLogOk` | src/consensus/raft.py:424-427 | cutting the log on a refused message loses nothing acknowledged and nothing committed |
| `RaftDelivery.FollowerCommitsLeadersPrefix` | src/consensus/raft.py:439-443 | in every run, a delivery that raises a follower's commit index raises it to what the sender, then leading the message's term, had committed on sending, and the committed entries of the two are the same |
| `RaftDelivery.FollowersCatchUp` | src/consensus/raft.py:439-443 | in every run, after an accepted message, with or without entries, the follower has committed exactly up to the greater of its old commit index and the one in the message, within its log |
| `RaftAnswers.CommitTakenExactly` | src/consensus/raft.py:439-443 | under any guards, after a success the commit index is the greater of the old one and what the message lets the new log commit, if and only if the message does not lead past a log that has become shorter than the old commit index; then it falls to the length of the log |
| `RaftAnswers.CommitCanFall` | src/consensus/raft.py:439-443 | an input on which it falls |
| `RaftAnswers.RefusedExactly` | src/consensus/raft.py:412-427 | a message is refused exactly when its term is older or the entry before it is missing or conflicts; a refusal moves no commit index and cuts the log only before that conflict; answers carry the new term |
| `RaftAnswers.VoteGrantedExactly` | src/consensus/raft.py:213-248 | in terms of the state before the request, a vote is granted exactly to an up-to-date candidate of a newer term, or of the present one when the vote is free or already its own; answers carry the new term |
| `RaftAnswers.VoteCountedExactly` | src/consensus/raft.py:250-268 | an answer makes a leader exactly when it is a vote of the present term that completes a majority; a later term ends the candidacy; every other answer changes nothing but the votes |
| `RaftAnswers.LaterTermStepsDown` | src/consensus/raft.py:353-358 | an AppendEntries answer of a later term makes any node a follower of that term with its log intact |
| `RaftAnswers.LoneNodeLeads` | src/consensus/raft.py:170-173 | a node without peers leads as soon as it stands and asks nobody |
| `RaftAnswers.ResponseRecorded` | src/consensus/raft.py:360-371 | what a follower is known to store never falls; a success raises it to the end of the message, a refusal moves the next index back by one and never before the first entry |
| `RaftAnswers.QuorumCommits` | src/consensus/raft.py:378-398 | after a success the leader has committed every entry of its own term that a quorum, itself included, is known to store |
| `RaftOrigins.CommandsWereProposed` | src/consensus/raft.py:455-464 | under any guards, in every run, a command in a log, applied or in a message is the no-op of a new leader or was proposed to a leader at an earlier step |
| `RaftDelivery.MessagesReachTheirCommit` | src/consensus/raft.py:327-338 | in every run, every AppendEntries message reaches at least as far as the commit index it carries |
| `RaftDelivery.WasSentByLeader` | src/consensus/raft.py:316-338 | in every run, every AppendEntries message is what some earlier state of its sender, leading the term, said |
| `RaftReplicationSteps.EligibleIsCommitted` | src/consensus/raft.py:381-390 | an index the leader's scan accepts really is stored by a quorum in the leader's term |
| `RaftElectionSteps.Win` | src/consensus/raft.py:263-286 | a candidate with a quorum starts the only reign of its term, with a log that keeps everything its voters acknowledged |
| `RaftElection.ElectionSafety` | src/consensus/raft.py:208-268 | with votes kept within a term, at most one node ever leads in a given term, whatever the other guards are |
| `RaftGuards.AgreementNeedsEveryGuard` | src/consensus/raft.py:293-300 | all runs apply the same commands everywhere if and only if all three guards are there |
| `RaftGuards.ElectionSafetyNeedsKeptVotes` | src/consensus/raft.py:412-418 | all runs have at most one leader per term if and only if votes are kept |
| `RaftGuards.AsWrittenFails` | src/consensus/raft.py:293-300 | the code without the guards has runs with two leaders in a term and runs in which two nodes apply different commands |
| `RaftFlaws.TwoLeaders` | src/consensus/raft.py:293-297 | a run of three nodes in which a heartbeat of the current term erases a vote and two nodes lead in term 3 |
| `RaftFlaws.VoteLost` | src/consensus/raft.py:412-418 | when votes are not kept, three nodes reach a state in which two of them have applied different first entries, one of term 1 and one of term 3 |
| `RaftFlaws.OldLogCommitted` | src/consensus/raft.py:316-338 | with votes kept but anyone allowed to send its log, three nodes reach a state in which two of them have applied different first entries, one of term 1 and one of term 2 |
| `RaftFlaws.StaleAckCounted` | src/consensus/raft.py:347-366 | with the first two guards and not the third, five nodes reach a state in which two of them have applied the same first entry and different second ones |
| `RaftFlaws.SuccessorCommits` | src/consensus/raft.py:158-398 | under all guards that keep votes, the repaired ones included, there is a run in which a second leader is elected, commits its entry with a follower and applies it, so the safety theorems are not empty |
| `RaftProgress.FollowerApplies` | src/consensus/raft.py:430-496 | under any guards there is a run in which a leader commits an entry, a heartbeat without entries tells a follower so, and the follower applies it |
| `RaftHandlers.Advance` | src/consensus/raft.py:373-398 | the new commit index is the old one or the greatest index above it that is of the current term and on a majority |
| `RaftNodes.RaftNode.constructor` | src/consensus/raft.py:87-111 | a new node is the initial node of the cluster |
| `RaftNodes.RaftNode.StartElection` | src/consensus/raft.py:158-195 | the object becomes the candidate of the specification and asks every peer with its last index and term, or wins at once alone |
| `RaftNodes.RaftNode.HandleVoteRequest` | src/consensus/raft.py:208-248 | the reply and the whole new state are those of the specification the election theorems are about |
| `RaftNodes.RaftNode.HandleVoteResponse` | src/consensus/raft.py:250-268 | the new state is that of the specification, with the leader's first entry when a quorum is reached |
| `RaftNodes.RaftNode.BecomeLeader` | src/consensus/raft.py:272-286 | the indexes of all peers are reset and the no-op entry is appended |
| `RaftNodes.RaftNode.BecomeFollower` | src/consensus/raft.py:293-300 | the role, term and vote are those of the specification under the object's guards |
| `RaftNodes.RaftNode.Propose` | src/consensus/raft.py:455-464 | a leader, and only a leader, appends the command with its term and the next position |
| `RaftNodes.RaftNode.ReplicateToPeer` | src/consensus/raft.py:316-338 | the message is the leader's whole suffix from the peer's next index, with the entry before it |
| `RaftNodes.RaftNode.AppendAll` | src/consensus/raft.py:429-437 | the loop that appends entry by entry computes the merge that the log theorems are about |
| `RaftNodes.RaftNode.HandleAppendEntries` | src/consensus/raft.py:400-445 | the reply and the whole new state are those of the specification on every path |
| `RaftNodes.RaftNode.CountStoring` | src/consensus/raft.py:384-387 | the count is one plus the number of peers known to store the entry |
| `RaftNodes.RaftNode.AdvanceCommitIndex` | src/consensus/raft.py:373-398 | the descending loop stops at the greatest eligible index, and changes nothing when there is none |
| `RaftNodes.RaftNode.HandleAppendEntriesResponse` | src/consensus/raft.py:347-371 | the new state is that of the specification: match index never lowered, next index moved on success and back by one, never below one, on failure |
| `RaftNodes.AppliesWhatIsDue` | src/consensus/raft.py:486-493 | the loop brings the last applied index up to the commit index and hands over exactly the log entries in between, in order, and nothing else changes |
| `RaftNodes.LoopIsApplies` | src/consensus/raft.py:486-493 | the loop, in any state of any run, is a run of single applications of that node |
| `RaftNodes.RaftNode.ApplyCommitted` | src/consensus/raft.py:486-493 | afterwards the last applied index has reached the commit index and the applied sequence has grown by exactly the entries due |
| `LockTable.ReplayOk` | src/nodes/lock_manager.py:266-372 | after every sequence of commands each table entry has a holder, an exclusive lock has just one, requests wait in their own queue, and the reverse index is the inverse of the holders |
| `LockTable.StepOk` | src/nodes/lock_manager.py:266-283 | every single command keeps that invariant |
| `LockTable.SharedFront` | src/nodes/lock_manager.py:391-394 | the batch of readers is all shared requests at the front of the queue, and stops at the first exclusive one |
| `LockExclusion.AcquireGrantedExactly` | src/nodes/lock_manager.py:285-335 | an acquire is granted by its own command exactly when the resource is free or lock and request are both shared; otherwise it goes to the end of the queue and holders, kind and counter stay |
| `LockExclusion.JoinersShare` | src/nodes/lock_manager.py:61-65 | no command lets a client join a holder who stays unless the lock and the joining request are both shared |
| `LockExclusion.ExclusiveStaysAlone` | src/nodes/lock_manager.py:301-311 | over every sequence of commands, from the command that grants an exclusive request until its client lets go, that client is the only holder |
| `LockExclusion.HoldersHoldByGrants` | src/nodes/lock_manager.py:285-401 | after any commands every holder holds by a grant of the kind the lock has, made to it by one of the commands and not let go since |
| `LockExclusion.HandOverIsMaximal` | src/nodes/lock_manager.py:374-401 | a hand-over grants one writer alone, or all readers at the front up to the first writer, who are then exactly the holders |
| `LockManagers.HandOneMore` | src/nodes/lock_manager.py:374-401 | each request popped during a hand-over can be granted, and popping and acquiring for it grants exactly one more |
| `LockManagers.LockManager.constructor` | src/nodes/lock_manager.py:148-175 | a new manager has no locks and meets the invariant |
| `LockManagers.LockManager.ApplyCommand` | src/nodes/lock_manager.py:266-283 | the object's table, reverse index, graph and counters are those after the command; the table invariant and the hold of every awaited client are kept, and so are justified edges unless the command is a cancellation |
| `LockManagers.LockManager.ApplyAcquire` | src/nodes/lock_manager.py:285-344 | the request is granted or queued in place, with an edge to every holder |
| `LockManagers.LockManager.ApplyRelease` | src/nodes/lock_manager.py:346-362 | the lock is let go in place and handed over, or its entry deleted |
| `LockManagers.LockManager.ApplyCancel` | src/nodes/lock_manager.py:364-367 | the request leaves its queue and nothing else changes |
| `LockManagers.LockManager.GrantNext` | src/nodes/lock_manager.py:374-401 | the popping loop terminates and grants one exclusive request or all shared ones at the front, together; with an empty queue nothing happens |
| `LockManagers.LockManager.FindVictim` | src/nodes/lock_manager.py:405-427 | no victim means no cycle; a victim is on a cycle, the resources are exactly those it holds, and aborting it on them breaks that cycle, whatever was cancelled before; where all edges are justified the cycle is a genuine circular wait |
| `LockManagers.WaitForGraph.AddWaits` | src/nodes/lock_manager.py:337-339 | the loop adds an edge from the waiter to every holder and changes no other edge |
| `LockManagers.WaitForGraph.RemoveNode` | src/nodes/lock_manager.py:89-93 | an edge stays if and only if it neither leaves nor enters the node |
| `WaitGraph.Search.Dfs` | src/nodes/lock_manager.py:104-121 | the search terminates, returns only simple cycles, and without one leaves the path as it was and the node finished before everything that reaches it |
| `WaitGraph.DetectCycle` | src/nodes/lock_manager.py:95-128 | a returned list is a simple cycle with its closing edge; nothing is returned only when the graph has no closed walk at all |
| `LockWaits.EdgesAreWaits` | src/nodes/lock_manager.py:326-339 | in every run without cancellations, an edge from w to h means that h holds a resource w queues for |
| `LockEdges.EdgesExactly` | src/nodes/lock_manager.py:326-339 | after any commands the graph has exactly the edges that a queued acquire added to a holder and that have since lost neither their waiter to a grant or a release nor their head to a release |
| `LockEdges.EdgesAfter` | src/nodes/lock_manager.py:75-93 | for every command, the edges afterwards are those before that it does not end and those it adds |
| `LockWaits.CycleIsDeadlock` | src/nodes/lock_manager.py:410-418 | then a cycle of the graph is a circular wait |
| `LockWaits.HeadsAlwaysHold` | src/nodes/lock_manager.py:266-372 | after every sequence of commands, cancellations included, whoever is waited for holds some resource |
| `LockWaits.AbortBreaksCycle` | src/nodes/lock_manager.py:423-434 | aborting the last client of a cycle on all it holds, in any order, adds no edge, leaves none at it and breaks the cycle; no edge has to be justified for that |
| `LockWaits.EveryDeadlockCanBeBroken` | src/nodes/lock_manager.py:423-434 | after every sequence of commands, the last client of a cycle holds something, and the aborts proposed for it lead to a table without that cycle |
| `LockWaits.CancelKeepsWaits` | src/nodes/lock_manager.py:364-367 | a cancellation leaves every edge justified if and only if each edge of the cancelled client has another reason |
| `LockWaits.CancelledWaitStays` | src/nodes/lock_manager.py:364-372 | five commands after which the graph has a cycle although nobody waits in a circle |
| `LockLedger.RequestsConserved` | src/nodes/lock_manager.py:285-401 | after any commands the requests for a resource are those granted, waiting, or cancelled, as multisets; each command gives the lock to exactly the clients of the requests it is recorded to grant and takes it only from the client that leaves; the acquire counter is the number of recorded grants |
| `LockLedger.ExactlyOnePlace` | src/nodes/lock_manager.py:285-401 | with unique ids each request is in exactly one of these places, once, and a granted one was granted by exactly one command, after which its client holds the lock |
| `LockLedger.HoldersFollowGrants` | src/nodes/lock_manager.py:285-401 | the holders of a lock after a command are those before, without the one who left, with exactly the clients of the requests granted |
| `LockLedger.AcquiredCountsGrants` | src/nodes/lock_manager.py:306-311 | over all resources and any commands, the acquire counter counts every recorded grant once |
| `LockLedger.ReleasedCountsReleases` | src/nodes/lock_manager.py:346-354 | the release counter counts exactly the releases and aborts of locks in the table |
| `LockLedger.FirstComeFirstServed` | src/nodes/lock_manager.py:374-401 | with unique ids the uncancelled requests ever queued are, in order of arrival, those handed out followed by those still waiting; `RequestsConserved` ties being handed out to the table |
| `ReplicatedLocks.LocksAgree` | src/nodes/lock_manager.py:266-283 | of two lock tables anywhere in a run of the cluster the one that has applied more is the other one resumed, so equal progress means equal holders and queues |
| `ReplicatedLocks.OneOwner` | src/nodes/lock_manager.py:306-311 | no two nodes at the same applied index name different owners of an exclusive lock |
| `ReplicatedLocks.ExclusiveEverywhere` | src/nodes/lock_manager.py:301-311 | once some node has applied an exclusive grant, no table anywhere in the run that has applied it shows another holder until that client has let go |
| `QueueLifecycle.MessagesConserved` | src/nodes/queue_node.py:182-305 | in every run of any number of nodes, a produced message that was not acknowledged is in exactly one of its own partition's list, one node's in-flight map, or its own dead letters, in one unaltered copy; an acknowledged one is nowhere |
| `QueueLifecycle.DeliveriesBounded` | src/nodes/queue_node.py:280-305 | no message is delivered more often than the retry limit; its copy has counted every finished delivery, and it is a dead letter exactly when it has reached the limit |
| `QueueLifecycle.WorkRunsOut` | src/nodes/queue_node.py:245-305 | deliveries and their answers in a run are at most twice the limit for each message produced |
| `QueueLifecycle.ActionOk` | src/nodes/queue_node.py:155-305 | every action of every node keeps the account of all messages, and every delivery, acknowledgement and negative acknowledgement lowers the work left |
| `QueueLifecycle.CountersBalance` | src/nodes/queue_node.py:191-290 | each counter of a node counts exactly the productions, deliveries, acknowledgements and negative acknowledgements of that node, and consumed is in-flight plus acknowledged plus negatively acknowledged |
| `QueueLifecycle.AckedNeverReturns` | src/nodes/queue_node.py:266-278 | an acknowledged message is never delivered again |
| `QueueOrder.FirstDeliveriesInOrder` | src/nodes/queue_node.py:182-251 | in every run a partition's messages are delivered for the first time in the order in which they were produced, whatever is redelivered in between, and the rest are the undelivered ones of its list in order |
| `QueueOrder.RetriesGoFirst` | src/nodes/queue_node.py:299-302 | in every run retried messages stand before all never delivered in their partition |
| `QueueNodes.TakenAreInFlight` | src/nodes/queue_node.py:244-264 | what a consume call returns is what it put in flight and counted: messages of the partitions named, in that order, one for each mention at most, no more than the batch, each the copy that its list held |
| `QueueNodes.ConsumeIsTakes` | src/nodes/queue_node.py:244-264 | a consume call in any reachable state is a run of single takes of that node, so it inherits every theorem about runs |
| `QueueNodes.DistributedQueue.constructor` | src/nodes/queue_node.py:118-141 | a new node has nothing in flight and all counters at zero |
| `QueueNodes.DistributedQueue.Produce` | src/nodes/queue_node.py:155-196 | the message goes to the end of the list its key hashes to and is counted; a message that is too large, or a queue without partitions, changes nothing |
| `QueueNodes.DistributedQueue.PartitionOf` | src/nodes/queue_node.py:100-103 | the partition is below the number of partitions and is the remainder of the hash |
| `QueueNodes.DistributedQueue.OneReader` | src/nodes/queue_node.py:320-337 | on every node, each partition is assigned to exactly one member of every group that has members |
| `QueueNodes.DistributedQueue.Deliver` | src/nodes/queue_node.py:250-260 | one pop moves the head of the list into the in-flight map |
| `QueueNodes.DistributedQueue.Consume` | src/nodes/queue_node.py:229-264 | the consumer joins its group, and the call does the takes of the specification: it touches only lists of the topic that are named or, when none is, in the range of the consumer's place among the sorted members, and unless it fills the batch it takes from each of these that has a message |
| `QueueNodes.DistributedQueue.Acknowledge` | src/nodes/queue_node.py:266-278 | exactly a message in flight here is settled |
| `QueueNodes.DistributedQueue.NegativeAcknowledge` | src/nodes/queue_node.py:280-305 | exactly a message in flight here goes to the front of its list, or to its dead letters at the limit |
| `RangeAssignment.EveryPartitionOnce` | src/nodes/queue_node.py:320-337 | for every number of partitions and every non-empty group, each partition is read by exactly one member |
| `RangeAssignment.AssignedExactly` | src/nodes/queue_node.py:329-337 | a member reads exactly the partitions of its equal share, counted by its place in the order of the names, and the last one the rest |
| `RangeAssignment.StandsAtPlace` | src/nodes/queue_node.py:329-330 | in the sorted list every member stands where the number of names before it says |
| `RangeAssignment.InOrder` | src/nodes/queue_node.py:333-337 | the ranges follow each other without a gap from the first partition to the last |
| `RangeAssignment.SpanSizes` | src/nodes/queue_node.py:332-336 | every member but the last gets the quotient and the last one the remainder as well, also with more members than partitions |
| `RangeAssignment.OutsiderReadsFirstSpan` | src/nodes/queue_node.py:330 | a consumer outside the group gets the range of the member whose name comes first |
| `HashRings.AddMovesOnlyToNewNode` | src/nodes/queue_node.py:75-81 | for any hash, adding a node changes the owner of a key only to that node |
| `HashRings.RemoveMovesOnlyOwned` | src/nodes/queue_node.py:83-88 | removing a node changes the owner only of keys it owned, and leaves it none |
| `HashRings.AddThenRemove` | src/nodes/queue_node.py:75-88 | adding and removing a node restores the ring if and only if its virtual replicas collide with no key of the ring |
| `HashRings.JoiningOrder` | src/nodes/queue_node.py:75-81 | two nodes can join in either order if and only if their virtual replicas do not collide |
| `HashRings.OneOwner` | src/nodes/queue_node.py:90-98 | every hash has exactly one owner, none only in the empty ring |
| `HashRings.ConsistentHashRing.AddNode` | src/nodes/queue_node.py:75-81 | the loop puts all virtual replicas of the node on the ring, overwriting collisions, and keeps the keys sorted |
| `HashRings.ConsistentHashRing.RemoveNode` | src/nodes/queue_node.py:83-88 | exactly the keys that map to the node go |
| `HashRings.ConsistentHashRing.GetNode` | src/nodes/queue_node.py:90-98 | the result is the node of the first key at or after the hash, or of the first key of all |
| `LfuCaches.BucketsRefineCounts` | src/nodes/cache_node.py:95-133 | for every capacity and every run of gets and puts in which no put overwrites a key found more than once, the buckets give the same hits and evictions as a plain cache that evicts the key of least rank that has held it longest, and the index stays sound |
| `LfuCaches.StepOk` | src/nodes/cache_node.py:95-133 | every get, and every put that does not overwrite a key found more than once, keeps each cached key in the one bucket of its rank, the cached minimum right, the size within the capacity, and agrees with the plain cache |
| `LfuLimits.IndexSoundExactly` | src/nodes/cache_node.py:95-133 | that condition on runs is exact: the index is sound throughout a run of gets and puts if and only if no put overwrites a key found more than once |
| `LfuLimits.PutRaisesExactly` | src/nodes/cache_node.py:121-133 | put raises if and only if the cache is full, the key is new and the oldest key of the bucket with the cached minimum is no longer cached; then no line is stored or removed |
| `LfuLimits.SoundRunsNeverRaise` | src/nodes/cache_node.py:95-133 | no put raises in a run of gets and puts whose index stays sound |
| `LfuLimits.VictimIsLeastUsed` | src/nodes/cache_node.py:121-127 | a put into a full cache evicts a key found least often if and only if the first bucket is empty, or its oldest line was never found, or all its lines were found once |
| `LfuLimits.OverwriteLeadsToFault` | src/nodes/cache_node.py:118-120 | six calls, gets and puts only, in which overwriting a key found twice makes the last put raise |
| `LfuLimits.ReadKeyThrownOut` | src/nodes/cache_node.py:95-133 | four calls of which the last evicts the key that was read and keeps the one that was not |
| `LfuLimits.OverwriteKeepsIndex` | src/nodes/cache_node.py:118-120 | overwriting a cached key with a fresh line keeps the index if and only if the key was found at most once |
| `LfuLimits.InvalidateKeepsIndex` | src/nodes/cache_node.py:135-136 | invalidating keeps the index if and only if the key is not cached |
| `LfuLimits.PutFailsAfterInvalidate` | src/nodes/cache_node.py:122-127 | five calls of which the last, a put, raises an exception |
| `LfuCaches.LFUCache.constructor` | src/nodes/cache_node.py:89-93 | a new cache is the empty index |
| `LfuCaches.LFUCache.UpdateFrequency` | src/nodes/cache_node.py:95-104 | the buckets and the cached minimum change as in the specification, lines do not |
| `LfuCaches.LFUCache.Lookup` | src/nodes/cache_node.py:106-112 | a hit returns the very line that is cached, counts it and moves its key as in the specification; values do not change |
| `LfuCaches.LFUCache.Evict` | src/nodes/cache_node.py:122-127 | a full cache loses the head of its least bucket, and the exception is raised exactly when that key is not cached |
| `LfuCaches.LFUCache.Store` | src/nodes/cache_node.py:114-133 | the new state and the evicted key are those of the specification, on every path |
| `LfuCaches.LFUCache.Drop` | src/nodes/cache_node.py:135-136 | the line is returned and leaves the cache, the buckets stay as they are |

## Left out

- HTTP, Redis and asyncio plumbing, timers and task cancellation: timeouts, heartbeats and expiry become steps that may happen at any moment; a Redis call is atomic and succeeds.
- Crashes and recovery: the state that `raft.py` calls persistent is never written out, so a restarted node is not part of this model. `recover_in_flight` reads keys that nothing writes.
- Liveness: no claim that an election ends or an entry is committed. A cluster of one node never commits, since only a response leads to `_advance_commit_index`.
- RaftNodes.RaftNode.Propose: models the append and not the result after waiting, because `_pending_commits` is not cleared on stepping down, so True does not mean that the caller's command was committed.
- Snapshots and membership changes are named in the class docstring of `raft.py` and have no code. `current_leader` is read by nobody in the protocol.
- The state of the repository's own protocol beyond the guards: the safety theorems are about the repaired protocol, and about the code only as far as `RaftGuards` says.
- Locks are values in a map that the manager replaces, not objects shared by reference; the manager holds the only reference to each. Expiry, lock ids, priorities and the futures of waiting callers are left out, and the expiry task proposes releases like any other client.
- LockManagers.WaitForGraph.RemoveWait: models the call without a holder, the only one the manager makes.
- Completeness of deadlock detection: after a hand-over the remaining waiters get no edge to the new holder, so a real deadlock can stay unseen.
- QueueNodes.DistributedQueue.Consume: models one call without interruption; that other nodes act between its pops is covered by `QueueLifecycle`, where every pop is its own step.
- Queue offsets, batch production, headers and timestamps; the id, the size of the serialized message and the hash are parameters. Two ids are never equal.
- LfuCaches.BucketsRefineCounts: says nothing about runs that overwrite a key found more than once, because the index is broken from that call on (`LfuLimits.IndexSoundExactly`) and a later put can raise (`LfuLimits.OverwriteLeadsToFault`).
- LfuCaches.StepOk: leaves out the same overwrites, for the same reason.
- LfuCaches.LFUCache.Store: demands a line object that is not cached under another key, as both callers create a new one; the MESI state, the version and the dirty flag of a line are left out, since the index never reads them.
- MESI coherence and the LRU store: invalidations reach only locally known sharers, and `LRUCache.put` does not store the line of a present key, so a proof would be about a different protocol.
- The failure detector, metrics, configuration and benchmarks: floating-point and reporting code beside the cores.
