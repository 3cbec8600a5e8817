# A verified model of a distributed key-value store

This project models the cores of a distributed key-value store written in Go and proves what they promise. `dafny verify
dfyconfig.toml` verifies the whole of it.

## What is modelled

**Raft** (`RaftTypes` to `RaftSafety`, `RaftElectability`, `RaftCatchUp`, `RaftProgress`, `RaftNode`, `KvStore`,
`SafetyValidator`). Each handler of a server is a function on the server's record (`RaftSteps`). A cluster step
(`RaftCluster`) is a timeout, a message sent or received, a client command, an entry applied or a restart; messages stay
in a growing set, so they can be lost, delayed, duplicated and reordered. The cluster also remembers the votes cast, the
log of the leader of each term, and what each server confirmed; no handler reads these. The safety proofs are invariants
of every step, lifted to all runs. The class `RaftNode.Server` is the imperative form of the handlers, each method
proved equal to its step function as the program has it; the class `KvStore.StateMachine` is the replicated store.

The program differs in four places from the protocol it cites, sections 5.1 to 5.4 of Ongaro and Ousterhout, "In Search of
an Understandable Consensus Algorithm (Extended Version)". Steps take the first two as a `Rules` parameter: `AS_WRITTEN` is
the program, `INTENDED` the protocol. For each place the theorems of `RaftElectionLimits` and `RaftCommitLimits` say, for
clusters of every size, exactly when the promise survives; their witnesses are runs of clusters of any size (`RaftRuns`).

- A server clears its vote on every AppendEntries request of its own term (`internal/consensus/raft.go:651-654`). Election
  safety then fails, and `OneLeaderPerTermExactly` says exactly when it holds.
- A follower's commit index is bounded by its last log entry (`internal/consensus/raft.go:722-730`), although the comment
  above asks for the last new entry. `CommitRulesAgree` says when the two bounds agree, `CommitSafetyExactly` that the
  written one breaks commit safety in every cluster of more than two servers, and `SafeWithoutHeartbeats` that requests with
  the whole rest of the log never make them differ.
- The majority is floor((n + 1) / 2) of n servers (`internal/consensus/raft.go:371-373`), which two disjoint halves of an
  even cluster both reach; with two servers a candidate that was refused becomes leader. The run theorems are for odd n;
  `QuorumsIntersectIffOdd`, `OneLeaderPerTermExactly` and `CommitSafetyExactly` show that this is needed.
- A restart reloads the term and the vote but not the log (`internal/consensus/raft.go:749-760`). Election safety and log
  matching hold over all restarts; the commit theorems ask that a restarted server had an empty log, and
  `LeaderCompletenessExactly` and `CommitSafetyAnyRestartsExactly` show that otherwise only a single server is safe.

What a cluster can always still do is proved beside this. From every reachable state every majority can elect a leader
by its own steps, exactly if it has two servers or more (`RaftElectability`), a leader brings its peers' logs up to its
own (`RaftCatchUp`), and so a majority can commit any command (`RaftProgress`). These theorems give a run that goes on
from the state; they do not say that timers and the network take it.

**Arena allocator** (`Arena`, `ArenaObject`). Reusing a freed chunk appends a second record for the same offset, so the
proof marks each record as primary or as an inert duplicate. `StrayFreeExactly` and `RequestClashesExactly` say what
calls outside the proper ones lead to.

**Consistent hash ring** (`Seqs`, `RingModel`, `RingRouting`, `RingWalk`, `RingReplicas`, `RingRanges`, `HashRing`). The hash
function is a parameter that gives the point of each virtual node. A ring is consistent when no two virtual nodes share a
point. On other rings the loop that collects replicas may never end; `WalkEndsExactly` says when it ends on any ring with
points, and `StopsWithReplicas` with what.

**LRU cache with expiry** (`LruModel`, `LruInclusion`, `LruHistory`, `LruObject`). The recency list is the model; the
class has the doubly linked list with its two sentinels and the map. The clock is a parameter.

**Log storage, message batcher, shard ranges, two-phase commit** (`LogStorage`, `Batching`, `Shards`, `TwoPhaseCommit`).
Here the proofs also found limits of the program, each stated as an exact condition with inputs that show it: a fetch that
starts at the compaction point misses an entry (`FetchExact`, `FetchMissesEntry`); compacting past the last entry loses the
log's position (`CompactRepresents`, `CompactedPastEnd`); a merge of shards across the end of the hash space empties the
range (`MergeRepartitions`, `MergeAcrossEnd`); a second execution can abort a committed transaction
(`CommittedIsFinalExactly`, `CommittedThenAborted`); and a commit can reach some participants only (`AtomicExactly`,
`PartialCommit`).

**Data file** (`BufferedReader`, `DataFile`). The scan reads lengths in full but keys and values with a single plain read of
a buffered reader, which gives no more than its 4096-byte buffer holds, or one read of the file, of at most 2^30 bytes, when
it holds nothing. The reader is modelled by its two positions, so which bytes a read gives follows from the lengths of the
records alone. `FileRoundTrip` and `ShortRoundTrip` say exactly which files read back, and `RecordAcrossBuffer` is a record
that does not. Reads by the index start at the record instead of the value (`IndexedReadExactly`).

## Model

| member | source | states |
|---|---|---|
| RaftSafety.ElectionSafety | internal/consensus/raft.go:390-557 | over any run with restarts, two servers that are ever leader in the same term are the same server |
| RaftSafety.TermsNeverDecrease | internal/consensus/raft.go:518-571 | along any run no server's term goes down |
| RaftSafety.LogMatching | internal/consensus/raft.go:633-746 | two logs of any two moments of a run that share a term at an index are equal up to it |
| RaftSafety.LeaderCompleteness | internal/consensus/raft.go:980-1006 | whatever any server ever committed is a prefix of the log of every leader of the same or a later term from then on |
| RaftSafety.CommitSafety | internal/consensus/safety.go:233-266 | of the committed logs of any two servers at any two moments one is a prefix of the other |
| RaftSafety.StateMachineSafety | internal/consensus/raft.go:776-805 | servers never apply different entries at an index, and equal applied indices mean equal key-value data |
| RaftSafety.LogsIndexed | internal/consensus/raft.go:814-833 | in every log of every reachable state the entry at place k has index k + 1 |
| RaftSafety.ReplicationVouches | internal/consensus/raft.go:868-905 | a replication request never announces a commit index beyond the entries it covers |
| RaftSafety.SafeWithoutHeartbeats | internal/consensus/raft.go:720-730 | without empty heartbeats the written commit bound is as safe as the intended one |
| RaftElectability.FavoursOrders | internal/consensus/raft.go:560-571 | of any two logs one is up to date for the other, both are exactly when they end with the same term and index, and the relation is transitive |
| RaftElectability.VoteGivenExactly | internal/consensus/raft.go:518-557 | a vote is given if and only if the term is not earlier, no other candidate has the vote of that term, and the candidate's log ends in a later term, or in the same one and is not shorter; the answer carries the request's term with a grant and the server's old one with a refusal |
| RaftElectability.StaleCandidateStepsDown | internal/consensus/raft.go:455-466 | a candidate that asks a server of a later term steps down into that term on the answer, and the server is not disturbed |
| RaftElectability.LeaderStepsDownExactly | internal/consensus/raft.go:376-660 | a leader steps down exactly on a vote request of a later term, an append request of its own or a later term, or a restart, never on a timeout or an answer |
| RaftElectability.LeadersAreAnswered | internal/consensus/raft.go:440-508 | no server becomes leader but a candidate on an answer for its current term |
| RaftElectability.NewestWins | internal/consensus/raft.go:390-557 | a server that is not leader and whose log is up to date for all of a majority of two or more, timing out into a term above all of theirs and campaigning, is given the vote by all of them and leads |
| RaftElectability.EveryMajorityElects | internal/consensus/raft.go:376-557 | from every state of every run, whatever the rules and the size of the cluster, every majority of two or more can elect one of its own in a term above all of theirs, with the votes of all of them, by steps of its own servers alone, and no log changes |
| RaftElectability.ElectableExactly | internal/consensus/raft.go:371-557 | a majority can do so from every reachable state if and only if it has two servers or more |
| RaftElectability.AloneElectsNobody | internal/consensus/raft.go:440-484 | a server by itself never comes to lead a new cluster, also where one server is a majority |
| RaftCatchUp.AnswerTells | internal/consensus/raft.go:633-746 | the answer to an append request tells the receiver's term and last index as they are afterwards, and is a success if and only if the term is not earlier and the entry before those sent is there |
| RaftCatchUp.HeartbeatIsEmptyRequest | internal/consensus/raft.go:610-630 | a heartbeat is the replication request without its entries: it is accepted exactly when that would be, and changes no log |
| RaftCatchUp.RoundsConverge | internal/consensus/raft.go:868-977 | rounds of request, answer and count with a peer not in a later term are rejected exactly until the logs meet, fewer times than the next index, each going back one place; the next one leaves the leader's log at the start of the peer's, brings its commit index up and, if it carried entries, sets the match index to the whole log and commits all that may be |
| RaftCatchUp.PeerCatchesUp | internal/consensus/raft.go:868-977 | from every state of every run in which votes are single, a leader brings any such peer up to its log by those rounds and no step of another server |
| RaftProgress.EveryMajorityCommits | internal/consensus/raft.go:376-1006 | from every such state, every majority of two or more can, by steps of its own servers alone, elect a leader that takes any given command and commits it, with all before it, on every server of that majority |
| RaftElectionLimits.OneLeaderPerTermExactly | internal/consensus/raft.go:371-373 | every reachable state has one leader per term if and only if the cluster is odd and votes are kept on equal terms, or has one server |
| RaftElectionLimits.EvenClusterSplits | internal/consensus/raft.go:371-373 | every even cluster of at least four servers reaches a state with two leaders in a term, whatever the rules |
| RaftElectionLimits.PairSplits | internal/consensus/raft.go:455-484 | in a cluster of two both servers can lead one term, whatever the answers are |
| RaftElectionLimits.ForgottenVotesSplit | internal/consensus/raft.go:651-654 | clearing the vote on an equal-term request lets every odd cluster of at least three servers elect two leaders in a term |
| RaftCommitLimits.CommitSafetyExactly | internal/consensus/raft.go:720-730 | over runs whose restarts lose no log, what any servers ever commit agrees if and only if the cluster is odd and both rules are the intended ones, or has one server |
| RaftCommitLimits.CommitSafetyAnyRestartsExactly | internal/consensus/raft.go:749-760 | with restarts that lose the log it agrees if and only if there is one server, whatever the rules |
| RaftCommitLimits.LeaderCompletenessKeepingLogsExactly | internal/consensus/raft.go:980-1006 | over runs whose restarts lose no log, leaders have what servers of their own or earlier terms committed before, under the same condition and no other |
| RaftCommitLimits.LeaderCompletenessExactly | internal/consensus/raft.go:749-760 | with restarts that lose the log they do if and only if there is one server |
| RaftCommitLimits.RivalsCommit | internal/consensus/raft.go:663-712 | two leaders of one term make two servers commit different entries at one index, in clusters of every size above one |
| RaftCommitLimits.HeartbeatSplits | internal/consensus/raft.go:610-630 | with the written bound a heartbeat makes a server commit an entry the leader lacks, in every cluster of more than two servers |
| RaftCommitLimits.RestartSplits | internal/consensus/raft.go:749-760 | after restarts without the log a leader of a later term lacks a committed entry, in every cluster of more than one server |
| RaftTypes.QuorumsIntersectIffOdd | internal/consensus/raft.go:371-373 | every two majorities share a server if and only if the number of servers is odd |
| RaftElection.OneWinner | internal/consensus/raft.go:518-557 | two candidates with a majority of the votes of one term are the same |
| RaftElection.ElectionKept | internal/consensus/raft.go:390-571 | every step keeps: votes are single per term, tallies are votes cast, each term's leader has a majority |
| RaftMerge.MergeAdopts | internal/consensus/raft.go:663-712 | the truncate and append loops leave a log that already has all that was sent as it is, and otherwise make it the leader's log up to the last entry sent |
| RaftMerge.ReplayIsHarmless | internal/consensus/raft.go:663-712 | after a request, an older and shorter one of the same leader is accepted and changes nothing |
| RaftLogs.LogKept | internal/consensus/raft.go:633-746 | every step keeps: each log prefix is the prefix of the log of the leader of its last term, and requests are cut from such logs |
| RaftLogs.RequestsAreCut | internal/consensus/raft.go:868-905 | a replication request is a stretch of the leader's log with the term of the entry before it |
| RaftCompleteness.UpToDateCarries | internal/consensus/raft.go:560-571 | a log that passes the up-to-date comparison carries every entry the voter's log carries that may have been committed |
| RaftCompleteness.LaterLeadersHold | internal/consensus/raft.go:487-508 | an entry a majority confirmed in a term is in the log of every leader of that or a later term |
| RaftCompleteness.CompletenessKept | internal/consensus/raft.go:518-571 | every step keeps that leaders, logs and granted votes carry whatever may have been committed before |
| RaftCommit.CommitPointSound | internal/consensus/raft.go:980-1006 | the leader commits up to the highest index that holds an entry of its own term and that a majority acknowledged, or stays where it is |
| RaftCommit.CommitRulesAgree | internal/consensus/raft.go:720-730 | the written and the intended commit bound give the same index if and only if the leader's commit index or the merged log reaches no further than the entries covered or what is committed already |
| RaftCommit.FinalsAgree | internal/consensus/safety.go:233-266 | two logs each covered by committed prefixes are prefixes of one another |
| RaftCommit.CommitKept | internal/consensus/raft.go:718-746 | every step keeps that commit indices, requests, match indices and stores rest on committed prefixes |
| RaftNode.Server.constructor | internal/consensus/raft.go:157-214 | a new server has the record of a fresh follower with the persisted term and vote |
| RaftNode.Server.HandleElectionTimeout | internal/consensus/raft.go:376-404 | a server that is not leader becomes candidate of the next term with its own vote, persisted |
| RaftNode.Server.IsLogUpToDate | internal/consensus/raft.go:560-571 | the answer is the comparison of last terms and then last indices, the order that `FavoursOrders` describes and `EveryMajorityElects` rests on |
| RaftNode.Server.HandleVoteRequest | internal/consensus/raft.go:518-557 | the record and the answer are those of the vote step, which `VoteGivenExactly` describes, and the grant is persisted |
| RaftNode.Server.CountVote | internal/consensus/raft.go:440-484 | the record is that of the counting step, which elects at a majority |
| RaftNode.Server.GetMajority | internal/consensus/raft.go:371-373 | the majority is that of a cluster of the peers and the server itself |
| RaftNode.Server.BecomeLeader | internal/consensus/raft.go:487-508 | every peer's next index is the last index plus one and its match index zero |
| RaftNode.Server.AppendEntry | internal/consensus/raft.go:814-846 | a leader's log gains the entry at the next index in its term, also when storing it fails and the caller gets an error; others refuse |
| RaftNode.Server.ReplicationRequest | internal/consensus/raft.go:868-905 | the request carries the log from the peer's next index to its end |
| RaftNode.Server.HandleAppendEntries | internal/consensus/raft.go:633-746 | the record and the answer are those of the append step with the written rules |
| RaftNode.Server.CountReplicas | internal/consensus/raft.go:986-997 | the count is the number of servers whose match index reaches the index |
| RaftNode.Server.UpdateCommitIndex | internal/consensus/raft.go:980-1006 | the commit index becomes the commit point of the match indices |
| RaftNode.Server.HandleAppendEntriesResponse | internal/consensus/raft.go:938-977 | the record is that of the answer step, on which `RoundsConverge` rests: match and next index move up, or next index back by one |
| RaftNode.Server.ApplyEntries | internal/consensus/raft.go:776-805 | the applied index reaches the commit index |
| RaftNode.ApplyPendingReplays | internal/consensus/raft.go:776-805 | applying all that is pending leaves the store of the whole committed log |
| RaftNode.Merged | internal/consensus/raft.go:676-712 | the two loops compute the merge of log and entries |
| RaftNode.LeaderIndices | internal/consensus/raft.go:492-499 | the loop over peers gives each its leader's starting index |
| RaftNode.PersistentState.Save | internal/consensus/persistent_state.go:72-82 | the saved term and vote are those given |
| RaftNode.PersistentState.UpdateTerm | internal/consensus/persistent_state.go:118-129 | a higher term is stored and clears the vote; otherwise nothing changes |
| RaftNode.PersistentState.UpdateVote | internal/consensus/persistent_state.go:132-142 | the vote is stored if and only if the term is the current one; the term never changes |
| KvStore.StateMachine.Apply | internal/consensus/state_machine.go:66-95 | the store after an entry is the one the replicated model computes, about whose contents `StoreHolds` is proved, and the outcome tells the kind, the old value and the version |
| KvStore.StoreHolds | internal/consensus/state_machine.go:66-150 | after a log is executed a key has a value if and only if the last entry that writes or deletes it is a write; the value is the one written there, and the version the number of writes since the last deletion |
| KvStore.StateMachine.ApplyPut | internal/consensus/state_machine.go:98-129 | the key gets the value and its version counter goes up by one, from one |
| KvStore.StateMachine.ApplyDelete | internal/consensus/state_machine.go:132-150 | key and version go, and the old value is reported if there was one |
| SafetyValidator.ValidateElectionSafety | internal/consensus/safety.go:28-50 | passes if and only if no two leaders have the same term |
| SafetyValidator.ValidateLogPairMatching | internal/consensus/safety.go:85-112 | passes if and only if wherever both logs have the same index and term at a place, they have so at every earlier place |
| SafetyValidator.ValidateLogMatching | internal/consensus/safety.go:55-82 | passes if and only if every pair of logs passes |
| SafetyValidator.ValidateLeaderCompleteness | internal/consensus/safety.go:117-160 | passes if and only if every later leader has each committed entry |
| SafetyValidator.ValidateStateMachineSafety | internal/consensus/safety.go:165-196 | passes if and only if all applied entries of an index agree |
| SafetyValidator.ValidateCommitSafety | internal/consensus/safety.go:233-266 | passes if and only if all committed entries agree with each other and the record, and then the record has them all and nothing else is new |
| SafetyValidator.AppliedExactly | internal/consensus/safety.go:165-196 | the state machine validator passes if and only if no two entries with the same index, among those the servers applied, differ in term or data |
| SafetyValidator.CommittedExactly | internal/consensus/safety.go:233-266 | without a record the commit validator passes if and only if no two such entries differ among those the servers committed |
| SafetyValidator.RecordExactly | internal/consensus/safety.go:233-266 | with a record it passes if and only if it passes without and no committed entry differs in term or data from the one on record |
| SafetyValidator.RunHasNoRivals | internal/consensus/safety.go:28-50 | the condition of the election validator holds in every state of every run in which votes are single |
| SafetyValidator.RunLogsMatch | internal/consensus/safety.go:55-112 | the condition of the log matching validator holds in every state of those runs |
| SafetyValidator.CommitCheckPasses | internal/consensus/safety.go:233-266 | the commit validator passes in every state of every safe run, with any record built from earlier states of it |
| SafetyValidator.ApplyCheckPasses | internal/consensus/safety.go:165-196 | the state machine validator passes in every state of every safe run |
| SafetyValidator.LeaderCheckPasses | internal/consensus/safety.go:117-160 | the leader completeness validator passes for a leader of a safe run and entries committed earlier in it |
| Arena.ArenaSafety | internal/performance/memory.go:473-565 | over any history of positive requests and frees of held offsets, held regions are non-empty, in bounds, 8-aligned and disjoint, and the account is the sum of their sizes |
| Arena.AllocateKeeps | internal/performance/memory.go:473-523 | an allocation keeps the invariant with one more region, at an offset that was not held, or changes nothing |
| Arena.ReleaseKeeps | internal/performance/memory.go:527-548 | freeing a held offset keeps the invariant with exactly that region gone |
| Arena.CoalesceKeeps | internal/performance/memory.go:551-565 | merging adjacent free chunks keeps the invariant |
| Arena.CoalesceIsComplete | internal/performance/memory.go:551-565 | the loop, which stays at a place after a merge, ends with no two neighbours that could merge |
| Arena.RefusalMeansFull | internal/performance/memory.go:506-523 | a request is refused if and only if neither the rest of the arena nor any free chunk is large enough |
| Arena.StrayFreeExactly | internal/performance/memory.go:527-565 | after any proper history, freeing an offset that is not held leaves the arena safe if and only if no record in use has that offset, and then changes nothing |
| Arena.DoubleFreeOverlaps | internal/performance/memory.go:527-548 | a history with a double free hands out one region twice |
| Arena.RequestClashesExactly | internal/performance/memory.go:473-523 | after any proper history, an accepted request of more than -8 bytes leaves the arena safe, and a later one is then given an offset that is still held if and only if it asked for no byte and there is room left at the end |
| Arena.EmptyRequestLeaks | internal/performance/memory.go:473-548 | an empty request and the next one get the same offset, and freeing it leaves the bytes of the second on the account with nobody to hold them |
| ArenaObject.MemoryArena.constructor | internal/performance/memory.go:460-470 | a new arena is empty |
| ArenaObject.MemoryArena.Allocate | internal/performance/memory.go:473-503 | the arena and the offset are those of the allocation function |
| ArenaObject.MemoryArena.FindFreeSpace | internal/performance/memory.go:506-523 | bump allocation first, then the first free chunk that fits, shrunk to the size |
| ArenaObject.MemoryArena.Deallocate | internal/performance/memory.go:527-548 | the arena is that of the free function |
| ArenaObject.MemoryArena.CoalesceChunks | internal/performance/memory.go:551-565 | the loop computes the coalesced list |
| RingModel.AddConsistent | internal/partitioning/hash_ring.go:104-132 | adding a node keeps the ring consistent if and only if its points meet neither each other nor the ring |
| RingModel.RemoveConsistent | internal/partitioning/hash_ring.go:135-161 | removing a node keeps the ring consistent |
| RingModel.SweepExact | internal/partitioning/hash_ring.go:146-154 | the removal loop drops exactly the node's points when no point occurs twice or the name is empty |
| RingModel.SweepAscending | internal/partitioning/hash_ring.go:146-154 | the removal loop keeps the points in order, with or without collisions |
| RingModel.RemoveUndoesAdd | internal/partitioning/hash_ring.go:104-161 | adding a node and removing it gives the ring back if and only if its points met no point of the ring and, unless its name is empty, not each other |
| RingRanges.CollisionLeavesOrphan | internal/partitioning/hash_ring.go:147-153 | after a collision, removal leaves a point nobody owns, and every key is routed to the empty name |
| RingRouting.RotationIsWalk | internal/partitioning/hash_ring.go:174-184 | starting at the searched index and going round is going through the points at or after the hash, then those before |
| RingRouting.PreferenceComplete | internal/partitioning/hash_ring.go:213-232 | the clockwise walk meets every node, and lists each once |
| RingRouting.OwnerFirst | internal/partitioning/hash_ring.go:164-188 | a key's owner is the first node of its walk |
| RingRouting.AddMovesOnlyToNew | internal/partitioning/hash_ring.go:104-132 | with the new node left out, every key's preference list is the one before |
| RingRouting.RemoveMovesOnlyFromOld | internal/partitioning/hash_ring.go:135-161 | every key's preference list is the one before without the removed node |
| RingRouting.AddKeepsOwners | internal/partitioning/hash_ring.go:104-188 | adding a node moves a key to it or not at all |
| RingRouting.RemoveKeepsOwners | internal/partitioning/hash_ring.go:135-188 | removing a node moves only its own keys |
| RingReplicas.ReplicaCount | internal/partitioning/hash_ring.go:191-239 | the replicas are distinct active nodes, as many as asked for or all there are, and an error means there are none |
| RingReplicas.ReplicaPrefix | internal/partitioning/hash_ring.go:191-239 | asking for more replicas keeps the shorter list as a prefix |
| RingReplicas.AddChangesOneReplica | internal/partitioning/hash_ring.go:191-239 | adding a node lets it into a key's replicas or changes nothing; the others keep their order and at most the last falls out |
| RingReplicas.PreferenceByDistance | internal/partitioning/hash_ring.go:201-232 | an earlier node of the list has a point nearer clockwise than every point of a later one |
| RingReplicas.OwnerIsNearest | internal/partitioning/hash_ring.go:164-188 | a key belongs to the owner of the one point nearest clockwise |
| RingReplicas.Canonical | internal/partitioning/hash_ring.go:104-161 | consistent rings with the same nodes are equal |
| RingReplicas.HistoryAscending | internal/partitioning/hash_ring.go:104-161 | any history of additions and removals, with or without collisions, leaves the points in order, as the searches need |
| RingReplicas.HistoryConsistent | internal/partitioning/hash_ring.go:104-161 | any history of additions and removals without collisions leaves a consistent ring |
| RingReplicas.HistoryIndependent | internal/partitioning/hash_ring.go:104-161 | two histories that end with the same nodes end with the same ring |
| RingRanges.RangesExact | internal/partitioning/hash_ring.go:487-521 | a node's ranges are exactly the hashes it owns if and only if the ring has more than one point or the one point is the last hash |
| RingRanges.ArcOfStart | internal/partitioning/hash_ring.go:498-517 | each hash is in the range that ends at the point its search finds and in no other, so the ranges partition the hash space |
| RingRanges.CloneIsSame | internal/partitioning/hash_ring.go:456-484 | in whatever order nodes are visited, the copy of a consistent ring is the ring |
| HashRing.SearchPoints | internal/partitioning/hash_ring.go:174-177 | binary search finds the first point at or after the hash |
| HashRing.HashRing.constructor | internal/partitioning/hash_ring.go:80-95 | a new ring is empty, with 150 virtual nodes by default |
| HashRing.HashRing.AddNode | internal/partitioning/hash_ring.go:104-132 | the ring and the answer are those of the addition function; a node is added exactly if it was not there |
| HashRing.HashRing.PlaceAll | internal/partitioning/hash_ring.go:117-123 | the loop enters the points of all virtual nodes |
| HashRing.HashRing.RemoveNode | internal/partitioning/hash_ring.go:135-161 | the ring and the answer are those of the removal function, with or without collisions; a node is removed exactly if it was there |
| HashRing.HashRing.GetNode | internal/partitioning/hash_ring.go:164-188 | the owner the routing function gives, or none on an empty ring |
| HashRing.HashRing.GetNodes | internal/partitioning/hash_ring.go:191-239 | on any ring on which the loop ends, the active ones, up to the count, among as many of the first names met as there are nodes, or an error |
| HashRing.CollectUnique | internal/partitioning/hash_ring.go:212-232 | the loop ends within one turn of the ring, with those nodes, whenever there is enough to find |
| RingWalk.WalkEndsExactly | internal/partitioning/hash_ring.go:212-232 | on any ring with points the loop ends if and only if enough active nodes own points or the distinct names read there, the empty one included, are as many as the nodes, whatever the key |
| RingWalk.StopsWithReplicas | internal/partitioning/hash_ring.go:212-239 | whichever way the loop stops, its result is the active ones among the first names of the walk |
| RingWalk.ConsistentEnough | internal/partitioning/hash_ring.go:191-239 | on a consistent ring with a node the loop always ends |
| RingWalk.CollidingRingNeverEnds | internal/partitioning/hash_ring.go:212-232 | on a ring of two nodes with the same point the loop for two replicas never ends |
| HashRing.HashRing.GetHashRange | internal/partitioning/hash_ring.go:487-521 | the ranges of the node's points in ring order, with the 64-bit wrap, and an error exactly for an unknown node |
| HashRing.HashRing.Clone | internal/partitioning/hash_ring.go:456-484 | a new ring built in some order of the nodes; equal to this one if it is consistent |
| LruInclusion.Inclusion | internal/cache/cache.go:71-171 | after any history the smaller cache's recency list is the larger one's with keys left out, and every answer of the smaller is the answer of the larger |
| LruInclusion.OpIncluded | internal/cache/cache.go:71-171 | one operation on both caches keeps that, and the difference of sizes within the difference of capacities |
| LruInclusion.CleanupIncluded | internal/cache/cache.go:238-257 | cleaning both caches at one moment keeps inclusion |
| LruHistory.RecencyOrder | internal/cache/cache.go:71-144 | after any history the list is in the order its keys were last read or written, within capacity |
| LruHistory.EvictsLeastRecent | internal/cache/cache.go:127-144 | a new key in a full cache displaces exactly the key longest unnamed, never itself |
| LruHistory.NeverStale | internal/cache/cache.go:71-95 | an answer is the value last written, not deleted or cleared since, and not expired |
| LruHistory.ExactUntilEviction | internal/cache/cache.go:71-95 | with a clock that does not go back and no eviction, a read answers exactly as an unbounded store would |
| LruHistory.ReadsUntilExpiry | internal/cache/cache.go:71-257 | a value written at time t with a time to live, and not written over, deleted, cleared or evicted since, is read at a time now if and only if the time to live is not positive or now is at most t plus it, and a cleanup drops it in exactly the other case |
| LruHistory.RoomyNeverEvicts | internal/cache/cache.go:99-144 | a cache with room for every key ever written evicts nothing |
| LruHistory.CountersAddUp | internal/cache/cache.go:71-95 | every read since the last clear is counted once, as hit or miss |
| LruObject.LruCache.constructor | internal/cache/cache.go:51-68 | two linked sentinels, capacity 1000 by default |
| LruObject.LruCache.AddToFront | internal/cache/cache.go:207-212 | the links stay a chain both ways, with the item first |
| LruObject.LruCache.RemoveFromList | internal/cache/cache.go:215-218 | the links stay a chain both ways, without the item |
| LruObject.LruCache.MoveToFront | internal/cache/cache.go:201-204 | list, map and recency model agree again, with the item first |
| LruObject.LruCache.RemoveItem | internal/cache/cache.go:221-224 | list, map and recency model agree again, without the item |
| LruObject.LruCache.EvictLru | internal/cache/cache.go:227-235 | the last item goes and is counted; an empty cache is left alone |
| LruObject.LruCache.Get | internal/cache/cache.go:71-95 | cache and answer are those of the recency model |
| LruObject.LruCache.Put | internal/cache/cache.go:99-144 | the cache is that of the recency model, for which `ReadsUntilExpiry` is proved; new nodes are fresh |
| LruObject.LruCache.Delete | internal/cache/cache.go:147-159 | cache and answer are those of the recency model |
| LruObject.LruCache.Clear | internal/cache/cache.go:161-171 | the cache is empty with its counters at zero |
| LruObject.LruCache.CleanupExpired | internal/cache/cache.go:238-257 | exactly the expired items go, in whatever order, and their number is returned |
| LogStorage.RunRepresents | internal/consensus/log_storage.go:54-158 | after any run of contiguous appends, cuts and compactor steps what is stored is the end of the uncompacted log |
| LogStorage.FetchExact | internal/consensus/log_storage.go:71-87 | a fetch is refused exactly below the compaction point, and gives the slice of the uncompacted log if and only if it starts after that point or asks for nothing there |
| LogStorage.FetchMissesEntry | internal/consensus/log_storage.go:71-87 | for any log of more than a hundred entries, appended and then compacted, the fetch of the entry at the compaction point comes back empty |
| LogStorage.TruncateRepresents | internal/consensus/log_storage.go:109-135 | an allowed cut is the cut of the uncompacted log |
| LogStorage.CompactRepresents | internal/consensus/log_storage.go:138-158 | compaction keeps the uncompacted log if and only if it does not go past the last entry |
| LogStorage.CompactedPastEnd | internal/consensus/log_storage.go:109-158 | an empty store compacted past its end holds the next entry but refuses to cut it off |
| LogStorage.CompactorRepresents | internal/consensus/log_storage.go:312-326 | a compactor step keeps the log and moves the compaction point to the index asked for, but not back and not beyond a hundred entries before the end |
| LogStorage.Storage.AppendEntries | internal/consensus/log_storage.go:54-68 | entries and last index are those of the append function |
| LogStorage.Storage.GetEntries | internal/consensus/log_storage.go:71-87 | the loop gives what the fetch function says |
| LogStorage.Storage.TruncateFrom | internal/consensus/log_storage.go:109-135 | storage and answer are those of the truncate function |
| LogStorage.Storage.Compact | internal/consensus/log_storage.go:138-158 | the storage is that of the compact function |
| LogStorage.Storage.CompactRetaining | internal/consensus/log_storage.go:312-326 | the storage is that of the compactor function, whose compaction point `CompactorRepresents` gives |
| Batching.SortByPriority | internal/performance/batching.go:392-402 | the in-place bubble sort is the stable sort by descending priority |
| Batching.ByPriorityStable | internal/performance/batching.go:392-402 | that sort is descending and keeps each priority's order |
| Batching.StableUnique | internal/performance/batching.go:392-402 | there is only one such order |
| Batching.RunOrderly | internal/performance/batching.go:230-375 | over any run, each priority's messages leave in the order they were taken, the byte count is that of the pending data, and callbacks ran exactly for what was sent or late |
| Batching.Conservation | internal/performance/batching.go:230-375 | every message taken is in one batch or pending, and no callback runs more often than its message was offered |
| Batching.TakesInTime | internal/performance/batching.go:230-265 | over any run the messages taken are, in order, those offered before the stop without a deadline or no later than it, and the late ones are the others offered before the stop |
| Batching.FlushSendsAll | internal/performance/batching.go:317-375 | a flush leaves nothing pending, sends what was pending as one batch, and then everything taken has been sent |
| Batching.ConnectionBatcher.QueueMessage | internal/performance/batching.go:230-265 | batcher and answer are those of the queue function, about which `TakesInTime` is proved |
| Batching.ConnectionBatcher.FlushPending | internal/performance/batching.go:317-375 | the batcher is that of the flush function |
| Shards.SplitRepartitions | internal/partitioning/shard_manager.go:326-372 | a split keeps ranges non-empty, disjoint and covering the same hashes if and only if the new ID is free |
| Shards.MergeRepartitions | internal/partitioning/shard_manager.go:375-406 | a merge does so if and only if the first range does not end at the last hash |
| Shards.MergeAcrossEnd | internal/partitioning/shard_manager.go:375-406 | two shards that cover the whole hash space, merged from the upper one on, cover nothing |
| Shards.SplitKeepsHolders | internal/partitioning/shard_manager.go:326-372 | with a free ID a split changes for no node and no hash whether a shard that holds the hash is replicated at the node; the lower part stays active, the upper is not yet |
| Shards.MergeKeepsHolders | internal/partitioning/shard_manager.go:375-406 | a merge keeps who holds which hash if and only if the two shards are replicated at the same nodes, or, when the first range ends at the last hash, at none |
| Shards.NextIdFree | internal/partitioning/shard_manager.go:473-481 | the new ID is in use if and only if the first and the last ID both are; until the last is in use it is above all others |
| Shards.RunRepartitions | internal/partitioning/shard_manager.go:326-406 | any run of splits and merges within those bounds does so |
| Shards.ShardManager.GenerateShardId | internal/partitioning/shard_manager.go:473-481 | one more than the largest ID, in 32 bits |
| Shards.ShardManager.SplitShard | internal/partitioning/shard_manager.go:326-372 | table and answer are those of the split function, made exactly for an active shard and a hash strictly inside its range |
| Shards.ShardManager.MergeShards | internal/partitioning/shard_manager.go:375-406 | table and answer are those of the merge function, made exactly for two active shards of which the second begins after the first, with the 64-bit wrap |
| Shards.ShardManager.GetShardForKey | internal/partitioning/shard_manager.go:184-208 | finds a shard if and only if the ring gives a node and some shard serves it and the hash, and with disjoint ranges the same one in every order of visiting |
| TwoPhaseCommit.CommitNeedsAllVotes | internal/partitioning/coordinator.go:258-385 | in any run with overlapping executions, an execution sends a commit request only after all participants voted to commit in it, and succeeds only if all acknowledged |
| TwoPhaseCommit.CommitPhaseExactly | internal/partitioning/coordinator.go:296-354 | when the prepare phase ends, the execution goes on to commit if and only if every participant voted to commit in it and no overlapping execution has since put another vote on record; otherwise it fails and the transaction is aborted |
| TwoPhaseCommit.SuccessExactly | internal/partitioning/coordinator.go:357-385 | when the commit phase ends, the execution succeeds and the transaction is committed if and only if every participant acknowledged; otherwise it fails and the transaction is aborted |
| TwoPhaseCommit.ParticipantsFrozen | internal/partitioning/coordinator.go:225-302 | once an execution has begun, operations and participants never change |
| TwoPhaseCommit.OneExecution | internal/partitioning/coordinator.go:258-293 | executed once, a transaction is committed or aborted exactly as the execution ended |
| TwoPhaseCommit.CommittedIsFinalExactly | internal/partitioning/coordinator.go:258-293 | a committed transaction stays committed in everything that can follow before a further execution begins, if and only if every execution has ended or is committing with all requests acknowledged |
| TwoPhaseCommit.CommittedUntilUndone | internal/partitioning/coordinator.go:258-293 | along a run it stays committed exactly until an execution begins, ends its prepare phase, or ends its commit phase with an error |
| TwoPhaseCommit.PartialCommitExactly | internal/partitioning/coordinator.go:357-385 | an execution that ended left some participants committed and others not if and only if its commit requests were answered both ways |
| TwoPhaseCommit.AtomicExactly | internal/partitioning/coordinator.go:258-385 | an execution ends with all participants committed or none, if and only if some participant does not vote to commit or all answer the commit request alike; in the other case some commit and it fails |
| TwoPhaseCommit.WhoIsTold | internal/partitioning/coordinator.go:258-293 | an execution on its own succeeds if and only if every participant votes to commit and acknowledges, asks all to commit if all vote to and none otherwise, and tells all to abort exactly when it does not succeed |
| TwoPhaseCommit.PartialCommit | internal/partitioning/coordinator.go:281-284 | a reachable state has a committed shard in an aborted transaction |
| TwoPhaseCommit.CommittedThenAborted | internal/partitioning/coordinator.go:258-293 | a reachable state has an aborted transaction that every shard committed |
| TwoPhaseCommit.Coordinator.BeginTransaction | internal/partitioning/coordinator.go:188-222 | refused exactly at the limit, otherwise a pending transaction without operations |
| TwoPhaseCommit.Coordinator.AddOperation | internal/partitioning/coordinator.go:225-255 | taken exactly while pending and routable, with the shard made a participant |
| TwoPhaseCommit.Coordinator.ExecuteTransaction | internal/partitioning/coordinator.go:258-293 | its outcome is that of one execution, about which atomicity is proved: it succeeds if and only if all vote to commit and acknowledge, asks all or none to commit, and tells all to abort unless it succeeds |
| TwoPhaseCommit.Coordinator.AbortTransaction | internal/partitioning/coordinator.go:388-404 | the transaction is marked aborted and every participant is told |
| TwoPhaseCommit.PreparePhase | internal/partitioning/coordinator.go:296-354 | passes if and only if every participant votes to commit |
| TwoPhaseCommit.CommitPhase | internal/partitioning/coordinator.go:357-385 | asks every participant, and passes if and only if all acknowledge |
| BufferedReader.ShortReadIsFullRead | internal/performance/storage.go:1167-1174 | repeating plain reads until a length is complete takes at most one refill of the buffer |
| BufferedReader.LongestRead | internal/performance/storage.go:1178-1195 | a large read with nothing buffered gives at most 2 to the 30 bytes, or what is left of the file |
| BufferedReader.PlainReadWhole | internal/performance/storage.go:1178-1195 | a plain read gives all it is asked for if and only if that is no more than what the buffer holds, or than one read of the file gives when it holds nothing |
| DataFile.FileRoundTrip | internal/performance/storage.go:1088-1209 | reading a file back gives the records written, in order, if and only if no key and no value straddles the end of a filled buffer or is longer than one read of the file |
| DataFile.ShortRoundTrip | internal/performance/storage.go:1088-1209 | for keys and values shorter than the buffer it does if and only if no multiple of 4096 lies strictly inside one of them |
| DataFile.SmallFileIsRead | internal/performance/storage.go:1088-1209 | a file of at most 4096 bytes reads back, and every scan of it answers with the first record of the key or finds nothing |
| DataFile.ScanFindsFirst | internal/performance/storage.go:1171-1206 | if the records up to the first of the key are whole, a scan answers with that record, or finds nothing if there is none |
| DataFile.ReadFieldCut | internal/performance/storage.go:1178-1195 | a key or value that a plain read does not give whole comes back with zeros for the rest, and the reader stays where the read ended |
| DataFile.RecordAcrossBuffer | internal/performance/storage.go:1178-1206 | for one record whose value lies across offset 4096 the scan finds the key with another value |
| DataFile.WordRoundTrip | internal/performance/storage.go:1096-1124 | a number written in four bytes reads back modulo 2 to the 32 |
| DataFile.RecordLayout | internal/performance/storage.go:1088-1124 | a record is the length of the key, the key, the length of the value, the value and the checksum, each number in four bytes with the least significant first |
| DataFile.ReadAtExactly | internal/performance/storage.go:1140-1153 | a read at an offset fails exactly before the file's start, or for bytes beyond its end; otherwise it gives the bytes there |
| DataFile.IndexedReadExactly | internal/performance/storage.go:345-356 | a read by the index gives the value if and only if the whole record begins with the value |
| DataFile.IndexedReadIsWrong | internal/performance/storage.go:345-356 | it never gives a value that does not begin with the lowest byte of the key's length |
| DataFile.File.constructor | internal/performance/storage.go:1056-1085 | an opened file has its length and an empty index |
| DataFile.File.Write | internal/performance/storage.go:1088-1138 | the file is that of the records and the new one, the size stays the file's length, and the index has the entry |
| DataFile.File.OptimizedWrite | internal/performance/storage.go:345-356 | the record is added, and reading by its index entry gives the value if and only if the record begins with it |
| DataFile.File.Scan | internal/performance/storage.go:1156-1209 | a key of the index is read by its entry; otherwise the loop gives what the scan function says, hence the first record if the records up to it are whole |

## Left out

- Timers, goroutine scheduling, channels, gRPC and HTTP: they are arbitrary steps, message delivery and replies.
- The random stand-ins for peer replies (`internal/consensus/raft.go:511-515`, `internal/consensus/raft.go:909-926`): replies come from the handlers, as in `internal/consensus/rpc.go`.
- The step-down branch of the answer handler (`internal/consensus/raft.go:946-954`): an earlier comparison of terms makes it unreachable.
- Changes of membership (AddPeer, RemovePeer, ClusterManager): membership is fixed.
- 64-bit overflow of terms and indices, timestamps in the store's metadata, and JSON decoding of commands, which is a ready-made payload or garbled.
- The copy of the Raft log that handleAppendEntries appends to the log storage (`internal/consensus/raft.go:714-717`) without cutting conflicts: the storage is proved for contiguous appends.
- RaftSafety.LeaderCompleteness: for odd clusters, and runs in which a restarted server had an empty log and votes and commits follow the intended rules or meet no request on which the written ones differ.
- RaftSafety.CommitSafety: under the same conditions.
- RaftSafety.StateMachineSafety: under the same conditions.
- RaftElectability.EveryMajorityElects: for majorities of two or more, which `ElectableExactly` shows to be needed: a candidate leads only on an answer.
- RaftProgress.EveryMajorityCommits: for odd clusters and runs in which votes are single, as log matching needs; that timers and deliveries bring the run about is not modelled.
- Arena.ArenaSafety: for positive sizes and frees of held offsets; owner names, the bytes themselves and metrics are not modelled.
- Arena.RequestClashesExactly: for sizes above -8; on smaller ones the program panics when it slices its memory with a negative length.
- RingReplicas.HistoryIndependent: for nodes whose points do not collide; SHA-256 and the spelling of virtual node keys are a parameter.
- HashRing.HashRing.GetNodes: on rings on which the loop ends, which is exactly known; a ring with nodes but no point at all, on which the program would index an empty list, is not modelled.
- Load reports, rebalancing and node status changes of the ring.
- LruObject.LruCache.Get: values are immutable strings, so the copying of byte slices is not visible.
- Batching.RunOrderly: a flush is one step; compression, checksums, metrics and the decision when to flush are not modelled, nor is concurrent flushing of one connection.
- Shards.ShardManager.SplitShard: shards are values in the table, so copies handed out are not aliased; the hash of the split key is a parameter.
- TwoPhaseCommit.CommitNeedsAllVotes: retries, timeouts and the clean-up of old transactions appear only as error replies.
- TwoPhaseCommit.Coordinator.ExecuteTransaction: the object runs one call at a time; overlapping calls are in the step model, where abort requests are not steps because nothing depends on them.
- TwoPhaseCommit.Next: the end of a prepare phase tests the votes and writes the status in one step, the program under two locks.
- RaftSteps.HeartbeatRequest: a heartbeat is put together in one step; the program reads the term under one lock and the rest under a later one, and then logs the heartbeat instead of sending it.
- LogStorage.Storage.CompactRetaining: one step; the program reads the last index and compacts in two locked sections, between which a cut may shorten the log.
- DataFile.File.Write: for writes that succeed; after a failed one the file may hold part of a record.
- DataFile.File.Scan: files are read while nothing is written to them; the checksum is read and not compared, as in the program.
- The read cache and its list in `internal/performance/storage.go`, pools, garbage collection tuning, monitoring, configuration, the API, servers and the front end: reporting, simulation or input and output.
