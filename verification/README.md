# Verified model of DBDistributed

A Dafny model of a replicated, sharded SQL database, and proofs of what its parts promise each other.

* `raft/` - replication. A cluster of nodes and a bag of in-flight calls moves by the critical sections of the node:
  elections, votes, proposals, append requests and replies, apply with log compaction, snapshot installation in its two
  parts, loss of messages, crash and restart. A history of full logs, votes and acknowledgements explains every run; from
  it follow Election Safety, Log Matching, Leader Completeness and State Machine Safety as in section 5 of Ongaro and
  Ousterhout's "In Search of an Understandable Consensus Algorithm (Extended Version)", for this code's differences from
  its Figure 2: the commit rule `min(leader_commit, LastIndex)`, a boundary inside the log, no entry by a new leader.
  `Node.dfy` holds the node as an object; each of its methods is proved to be the section the cluster moves by.
* `storage/` - the storage engine, down to the bytes of log and tables: CRC-32, write-ahead log, memtable, sorted tables,
  flush, compaction and recovery, each as an object over specification functions, and together a plain map.
* `sql/` - lexer, parser, key layout, codecs and executor. Parsing undoes writing; rows padded when read behave like rows
  rewritten by ALTER TABLE; the disk a run of statements leaves, crashed or not, decodes to the executor's database.
* `shard/` - routing by key ranges. Shards that split the rows among them behave like one database.
* `txn/` - two-phase commit over shards: the lock table, the apply callback, the coordinator with its buffer, and whole
  runs of them with an unreliable network.
* `common/` - options, the order of byte strings, sorted enumerations, sizes of finite sets.

Specification functions describe each operation once; objects with fields, loops and in-place updates are proved against
them, and the theorems are about them. What an operation means is said again without them, by cells, entries, counters and
messages before and after (`raft/Meaning.dfy`, `raft/Delivery.dfy`, `sql/Meaning.dfy`, `sql/InsertMeaning.dfy`,
`txn/Committing.dfy`), and `raft/Progress.dfy` holds a run that gets somewhere. The executor works on decoded cells
(`map<string, Cell>`); `Stored.dfy` joins it to the codecs and to the engine's bytes. Strings are sequences of bytes, one
character each. `NoSuch...`, `Thrown`, `Failed`, `Refused` and `None` stand for exceptions and error returns.

## Results that are false of the code

* A batch with two INSERTs of one row is voted on as if it had one, and COMMIT then fails half-way
  (`TxnReplicas.VoteIff`, `TxnReplicas.RepeatedKeyIff`; a history in `TxnCareless.RepeatedInsertFails`).
* Plain writes do not look at the lock table, so one can make a COMMIT fail after its yes vote
  (`TxnReplicas.PlainInsertIff`; a history in `TxnCareless.PlainInsertBreaksVote`).
* A crash between the removals of a compaction can bring a deleted key back (`StorageRecovery.MidRemoval` says exactly
  when; a run in `StorageResurrection.DeletedKeyReturns`). The comment at `src/storage/engine.cpp:166-168` holds once all
  removals are done.
* A write acknowledged after a crash can be lost: a torn record stays in the log, and the next one goes behind it
  (`StorageTornTail.OpenedWriteIff` says when; a run in `StorageTornTail.PutLostBehindTornLog`).
* A request whose prev lies past the end of the log is accepted if its term is 0, and leaves a hole
  (`RaftLogs.AppendGaplessIff`); no leader sends one (`RaftTheorems.PrevTermsPositiveOverRuns`).
* A schema without columns does not read back (`SqlCodecs.SchemaRoundTrip`); no parsed CREATE TABLE makes one.

## Model

| member | source | states |
|---|---|---|
| `RaftTheorems.StateMachineSafety` | src/raft/node.cpp:167-185 | in every run with loss, delay, reordering, crash and restart, compaction and snapshot installation, no two nodes hand different commands to the apply callback at the same index |
| `RaftTheorems.LeaderCompletenessOverRuns` | src/raft/node.cpp:493-505 | an entry any node has known to be committed is in the log or beneath the boundary of every leader of a later term, whenever in the run it is seen, and of every leader of that term from then on |
| `RaftTheorems.ElectionSafetyOverRuns` | src/raft/node.cpp:403-469 | at most one node ever leads a term, through crashes, from the persisted vote, the stale-response filter and the majority test |
| `RaftTheorems.LogMatchingOverRuns` | src/raft/log.cpp:57-117 | same term at an index, boundary pair included, means agreement on everything below that both logs still answer for, at any two times of a run |
| `RaftTheorems.CommittedEntriesAgree` | src/raft/node.cpp:493-505 | entries below the commit indices of two nodes never differ, at any two times |
| `RaftTheorems.NextKeeps` | src/raft/node.cpp:310-753 | every critical section, message loss and crash keeps the relation between the cluster and its history of full logs, votes and acknowledgements |
| `RaftTheorems.RunExplained` | src/raft/node.cpp:41-92 | every run from the initial cluster has such a history at every step, and the histories only grow |
| `RaftTheorems.CommitBoundOverRuns` | src/raft/node.cpp:548-563 | in every reachable state no request carries a commit index past its own last entry, because a leader sends its whole suffix |
| `RaftTheorems.FollowerCommitsLeadersEntries` | src/raft/node.cpp:369-372 | receiving a request leaves the commit index alone or moves it to exactly the leader's, and then whatever the follower holds at or below it is what any leader of that term holds: `min(leader_commit, LastIndex)` never commits a stale tail |
| `RaftTheorems.PrevTermsPositiveOverRuns` | src/raft/node.cpp:548-563 | in every reachable state a request whose prev is not 0 carries a term that is not 0 |
| `RaftDelivery.EachEntryOnce` | src/raft/node.cpp:167-185 | in every run, a node at which no snapshot is installed has handed its state machine exactly the entries 1, 2, 3, ... up to its applied index, in this order and each once, through any crashes and restarts |
| `RaftDelivery.AlwaysUpward` | src/raft/node.cpp:167-185 | snapshots included, what a node hands to its state machine only goes up: nothing twice, nothing late, nothing beyond its applied index |
| `RaftProgress.CommandApplied` | src/raft/node.cpp:403-613 | a run of three nodes from their first start in which one is elected, a command is offered to it, and the leader and then a follower apply exactly that command |
| `RaftMeaning.ApplyMeaning` | src/raft/node.cpp:167-185 | the state machine is handed exactly the client entries above the applied index and up to the commit index, in ascending order, each once |
| `RaftMeaning.ApplyCompacts` | src/raft/node.cpp:187-243 | after applying, fewer than the threshold of applied entries are retained, and every entry above the boundary is as before |
| `RaftMeaning.VoteMeaning` | src/raft/node.cpp:310-348 | a vote is granted if and only if no leader was in contact lately, the vote is free in a term not older, and the voter's log does not end in a later term or further on in the same; then it is recorded |
| `RaftMeaning.ExtensionGranted` | src/raft/node.cpp:332-346 | a candidate whose whole log extends the voter's gets a free vote |
| `RaftMeaning.RequestSpeaksForLog` | src/raft/node.cpp:422-434 | what a candidate asks with is the length and last term of its whole log, compacted or not |
| `RaftMeaning.CountMeaning` | src/raft/node.cpp:452-466 | a granted vote is counted, and makes a leader if and only if it completes a majority of the node and its peers |
| `RaftMeaning.StandMeaning` | src/raft/node.cpp:403-440 | only a member stands, for itself in the next term, and asks for votes unless its own is a majority |
| `RaftMeaning.AdvanceMeaning` | src/raft/node.cpp:493-523 | the commit index moves to the highest index a majority holds if and only if that is new and of the current term, and the entries passed over are delivered |
| `RaftMeaning.RequestMeaning` | src/raft/node.cpp:548-563 | a request holds every entry from the peer's next index on, each at its place, and the pair before them |
| `RaftMeaning.RequestCatchesUp` | src/raft/node.cpp:548-563 | one accepted request leaves the peer an entry of the same term wherever the leader has one |
| `RaftMeaning.AcceptMeaning` | src/raft/node.cpp:350-376 | a request is accepted if and only if its term is not older and its pair is 0 or in the log |
| `RaftMeaning.FollowerDelivers` | src/raft/node.cpp:362-375 | a follower delivers the entries up to the commit index it learns of, and otherwise nothing |
| `RaftMeaning.RefusalMeaning` | src/raft/node.cpp:603-612 | a refusal moves the peer's next index one back, never below 1, and changes nothing else |
| `RaftMeaning.BackOffReaches` | src/raft/node.cpp:603-612 | refused often enough, a leader offers a peer its log from the first entry |
| `RaftMeaning.AcknowledgeMeaning` | src/raft/node.cpp:598-602 | an acceptance raises the match index to the request's end, never lowers it, and puts the next index behind it |
| `RaftMeaning.SnapshotCatchesUp` | src/raft/node.cpp:617-753 | a snapshot brings a peer that was behind to the leader's applied index, with its term and membership |
| `RaftMeaning.SnapshotAcknowledged` | src/raft/node.cpp:668-683 | after it the leader goes on right behind the snapshot and no longer needs one |
| `RaftMeaning.StaleSnapshot` | src/raft/node.cpp:686-722 | a snapshot of an older term, or of nothing not compacted already, moves no index and is answered at once |
| `RaftMeaning.StaleAnswers` | src/raft/node.cpp:452-683 | answers that are out of date change nothing, and answers of a later term end leadership and candidacy |
| `RaftMeaning.ProposeMeaning` | src/raft/node.cpp:778-815 | a leader takes every client command, and a membership change if and only if none is uncommitted and it changes something; so never two are uncommitted |
| `RaftMeaning.RemovedLeaderStepsDown` | src/raft/node.cpp:510-523 | a leader whose own removal gets committed leads no longer |
| `RaftHandlers.AppendSection` | src/raft/node.cpp:350-376 | HandleAppendEntries keeps the node related to the history, reply included |
| `RaftHandlers.FinishSection` | src/raft/node.cpp:716-753 | the second part of a snapshot installation keeps the node related to the history, commit and apply indices included |
| `RaftHandlers.InstallAdopts` | src/raft/node.cpp:717-728 | installing a committed snapshot replaces the log by a history that still holds everything the node ever acknowledged and committed |
| `RaftHandlers.RestartSection` | src/raft/node.cpp:41-92 | a restart from the durable files keeps the node related to the history |
| `RaftElections.ElectRel` | src/raft/node.cpp:403-440 | StartElection, lone winner included, keeps the node related to the history |
| `RaftElections.VoteSection` | src/raft/node.cpp:310-348 | a granted vote is recorded once, and only for a candidate whose log covers what the voter holds |
| `RaftElections.MajorityWins` | src/raft/node.cpp:461-465 | the counter test `votes*2 > peers+1` is met only by the distinct voters of a quorum |
| `RaftSections.MajorityChosen` | src/raft/node.cpp:493-505 | what MaybeAdvanceCommitIndex commits is held by a quorum in the leader's own term |
| `RaftHistory.UpToDateCovers` | src/raft/node.cpp:332-340 | the voter's log comparison is sound: what the voter's log covers, the candidate's covers |
| `RaftHistory.LeaderCompleteness` | src/raft/node.cpp:493-505 | on histories: a chosen entry is in the log of every leader of a later term |
| `RaftHistory.QuorumsMeet` | src/raft/node.cpp:461-465 | two majorities of the members share a member, which is returned |
| `RaftLogs.QueriesRefine` | src/raft/log.cpp:54-66 | LastIndex, LastTerm, TermAt and At of a compacted log are those of the full log at and above the boundary |
| `RaftLogs.AppendRefines` | src/raft/log.cpp:68-76 | Append extends the full log by one entry |
| `RaftLogs.CompactRefines` | src/raft/log.cpp:105-117 | CompactTo leaves the full log alone at an entry it holds, and replaces it by the snapshot's history otherwise |
| `RaftLogs.MergeMeaning` | src/raft/log.cpp:83-100 | the append loop keeps everything when the request is already there, and otherwise cuts at the first conflict and puts the rest of the request there |
| `RaftLogs.AppendEntriesRefines` | src/raft/log.cpp:78-103 | AppendEntriesFrom on the compacted log does what it does on the full log, for every prev that is 0 or at least the boundary and whatever term comes with it |
| `RaftLogs.AppendCommutesWithCompact` | src/raft/log.cpp:78-117 | appending before or after a compaction, the first or a later one, gives the same log |
| `RaftLogs.MergeGapless` | src/raft/log.cpp:83-100 | indices stay consecutive for every request starting within the log |
| `RaftLogs.AppendGaplessIff` | src/raft/log.cpp:78-100 | an append leaves no hole if and only if prev lies within the log, or its term is not 0, or nothing is sent; past the end the check passes exactly for term 0 |
| `RaftLogs.RaftLog.DoAppend` | src/raft/log.cpp:68-76 | the object: memory and file both become the appended log |
| `RaftLogs.RaftLog.DoAppendEntriesFrom` | src/raft/log.cpp:78-103 | the object: result and new state are those of the specification, saved when changed; the log stays well-formed exactly if no hole is made |
| `RaftLogs.RaftLog.MergeEntries` | src/raft/log.cpp:83-100 | the in-place loop with its resize computes the merge |
| `RaftLogs.RaftLog.DoCompactTo` | src/raft/log.cpp:105-117 | the object: entries erased in place, boundary reassigned and saved |
| `RaftLogs.RaftLog.GetTermAt` | src/raft/log.cpp:57-61 | the read-only query on the object |
| `RaftLogs.RaftLog.GetAt` | src/raft/log.cpp:63-66 | the read-only query on the object |
| `RaftDurable.PersistentState.Set` | src/raft/persistent_state.cpp:23-37 | term and vote in memory and in the file are the new ones |
| `RaftDurable.PersistentState.constructor` | src/raft/persistent_state.cpp:10-21 | a start reads back exactly what was last set |
| `RaftNodes.RaftNode.DoHandleRequestVote` | src/raft/node.cpp:310-348 | the object performs the section the cluster steps use |
| `RaftNodes.RaftNode.DoHandleAppendEntries` | src/raft/node.cpp:350-376 | the object performs the section the cluster steps use |
| `RaftNodes.RaftNode.DoStartElection` | src/raft/node.cpp:403-440 | the object performs the section the cluster steps use |
| `RaftNodes.RaftNode.DoHandleVoteReply` | src/raft/node.cpp:452-466 | stale replies are dropped, others counted, a majority wins |
| `RaftNodes.RaftNode.ComputeMajorityIndex` | src/raft/node.cpp:494-502 | sorting the match indices and taking the middle one yields the highest index a majority holds |
| `RaftNodes.MiddleIsMajority` | src/raft/node.cpp:500-502 | the middle of the descending indices is the highest index a majority holds |
| `RaftNodeState.MajorityIndexUnique` | src/raft/node.cpp:500-502 | there is only one such index |
| `RaftNodeState.MajorityIndexExists` | src/raft/node.cpp:494-502 | there always is one |
| `RaftNodes.RaftNode.DoMaybeAdvanceCommitIndex` | src/raft/node.cpp:493-523 | commit only on a majority and the current term, then apply; a leader whose removal committed steps down |
| `RaftNodes.RaftNode.PrepareAppend` | src/raft/node.cpp:548-563 | the request carries the whole suffix after prev |
| `RaftNodes.RaftNode.DoHandleAppendReply` | src/raft/node.cpp:587-613 | progress only grows on success, next index backs off on failure |
| `RaftNodes.RaftNode.DoApplyCommitted` | src/raft/node.cpp:167-244 | the loop applies in order, then folds membership into the base and compacts |
| `RaftNodes.RaftNode.DoRefreshMembership` | src/raft/node.cpp:246-308 | the in-place update of peers, next and match indices is the folded membership |
| `RaftNodes.RaftNode.DoBecomeLeader` | src/raft/node.cpp:152-165 | progress of every peer is reset |
| `RaftNodes.RaftNode.DoBeginInstall` | src/raft/node.cpp:690-713 | the first part of a snapshot installation |
| `RaftNodes.RaftNode.DoFinishInstall` | src/raft/node.cpp:716-753 | the second part, with its repeated check |
| `RaftNodes.RaftNode.PrepareSnapshot` | src/raft/node.cpp:617-655 | the request carries the boundary, its term and the base membership |
| `RaftNodes.RaftNode.DoHandleSnapshotReply` | src/raft/node.cpp:668-683 | progress after an installed snapshot |
| `RaftNodes.RaftNode.DoPropose` | src/raft/node.cpp:778-815 | the append section: one pending membership change at a time, single-node commit at once |
| `RaftNodes.RestartFromFiles` | src/raft/node.cpp:41-92 | a process started on a node's files is that node restarted, whatever its bootstrap arguments |
| `RaftMembership.CompactionInvisible` | src/raft/node.cpp:196-233 | folding applied changes into the base and discarding them leaves peers, self-membership and pending self-removal as they were |
| `RaftMembership.RefreshCommutesWithCompaction` | src/raft/node.cpp:196-308 | refreshing before or after a compaction makes no difference to the node |
| `RaftMembership.RestartForgetsNothing` | src/raft/node.cpp:196-233 | a node restarted after a compaction has the membership it would have had without it |
| `RaftMembership.FoldMeaning` | src/raft/node.cpp:251-281 | the last change about a server decides whether, and at what address, it is a peer |
| `RaftMembership.FoldSelf` | src/raft/node.cpp:256-276 | a node's own last change decides, except that a leader keeps acting until its removal commits |
| `RaftMembership.RefreshKeepsTrack` | src/raft/node.cpp:284-308 | peers become the folded map, never hold the node itself, survivors keep their progress, and a leader's match index has exactly the peers as keys |
| `RaftMembership.TracksForLife` | src/raft/node.cpp:246-308 | from any state in which it holds, with whatever membership changes, messages and restarts, a node is never its own peer and a leader tracks exactly its peers |
| `RaftNodes.TracksFromFirstStart` | src/raft/node.cpp:41-92 | that holds over the whole life of a node started for the first time with seeds that leave itself out |
| `StorageCrc32.CrcIsReference` | src/storage/crc32.cpp:26-33 | processing whole bytes computes the bit-at-a-time reflected polynomial of section 3.2.9 of IEEE 802.3 |
| `StorageCrc32.ComputeTableEntry` | src/storage/crc32.cpp:7-13 | eight conditional shifts give the table entry |
| `StorageCrc32.MakeTable` | src/storage/crc32.cpp:15-22 | the array filled in place holds every entry |
| `StorageCrc32.ComputeCrc32` | src/storage/crc32.cpp:26-33 | the table loop computes the same checksum |
| `StorageCrc32.BurstDetected` | src/storage/crc32.cpp:26-33 | equal-length byte strings differing only within four consecutive bytes have different checksums |
| `StorageWal.WholeLogReplays` | src/storage/wal.cpp:56-131 | Replay undoes appending |
| `StorageWal.TornAppend` | src/storage/wal.cpp:56-131 | a crash at any byte of an append leaves a log that replays with or without the new record and nothing else |
| `StorageWal.ReplayStopsAtAltered` | src/storage/wal.cpp:56-90 | Replay delivers exactly the records before one whose key or value bytes were altered within four consecutive bytes |
| `StorageWal.WriteAheadLog.Replay` | src/storage/wal.cpp:56-90 | the reading loop delivers the records of the specification |
| `StorageWal.WriteAheadLog.AppendRecord` | src/storage/wal.cpp:112-131 | the file grows by exactly the encoded record |
| `StorageMemtable.Memtable.Put` | src/storage/memtable.cpp:13-15 | the key is found with its value, every other key answers as before, and the order is kept |
| `StorageMemtable.Memtable.Delete` | src/storage/memtable.cpp:17-19 | the key is found deleted and every other key answers as before |
| `StorageMemtable.Memtable.Scan` | src/storage/memtable.cpp:28-34 | the loop from lower_bound returns exactly the entries with the prefix |
| `StorageTables.RunExact` | src/storage/sstable.cpp:141-164 | keys sharing a prefix form one contiguous run from the lower bound |
| `Strings.PrefixContiguous` | src/storage/sstable.cpp:141-164 | nothing without a prefix lies between the prefix and a key that has it |
| `StorageSSTable.SSTableWriter.Add` | src/storage/sstable.cpp:44-58 | data and index grow by the entry, tombstones by their sentinel length |
| `StorageSSTable.SSTableWriter.Finish` | src/storage/sstable.cpp:60-76 | the published bytes are data, index and footer of the entries added |
| `StorageSSTable.SSTableReader.Open` | src/storage/sstable.cpp:80-116 | opening written bytes yields the index of those entries |
| `StorageSSTable.SSTableReader.LowerBoundIn` | src/storage/sstable.cpp:118-164 | the binary search finds the first key not below the wanted one |
| `StorageSSTable.SSTableReader.Lookup` | src/storage/sstable.cpp:118-139 | the answer is that of the entries, tombstones included |
| `StorageSSTable.SSTableReader.Scan` | src/storage/sstable.cpp:141-164 | exactly the entries with the prefix, tombstones included |
| `StorageSSTable.SSTableReader.ReadAll` | src/storage/sstable.cpp:166-188 | exactly the entries |
| `StorageSSTable.FileInjective` | src/storage/sstable.cpp:44-76 | no two tables have the same bytes |
| `StorageEngineModel.WrittenShows` | src/storage/engine.cpp:67-183 | every Put and Delete, with whatever flush and compaction follow, does to the map what it says |
| `StorageEngineModel.FlushedShows` | src/storage/engine.cpp:109-129 | a flush changes no answer |
| `StorageEngineModel.CompactedShows` | src/storage/engine.cpp:148-183 | tombstone-dropping compaction changes no answer |
| `StorageEngineModel.ScanExact` | src/storage/engine.cpp:92-107 | Scan returns exactly the live keys with the prefix, ascending, with the map's values |
| `StorageEngineModel.ScanUnique` | src/storage/engine.cpp:92-107 | there is only one such list |
| `StorageEngines.StorageEngine.Get` | src/storage/engine.cpp:79-90 | the object answers with the map |
| `StorageEngines.StorageEngine.Scan` | src/storage/engine.cpp:92-107 | the object returns the rows of the map with the prefix |
| `StorageEngines.StorageEngine.Put` | src/storage/engine.cpp:67-71 | log, memtable, tables and disk become those of the written engine, and the map gains the entry |
| `StorageEngines.StorageEngine.Delete` | src/storage/engine.cpp:73-77 | the same for a tombstone |
| `StorageEngines.StorageEngine.FlushMemtable` | src/storage/engine.cpp:109-129 | tables, memtable, log and files become those of the flushed engine |
| `StorageEngines.StorageEngine.MaybeCompact` | src/storage/engine.cpp:148-183 | merge, publication and removal of the old files |
| `StorageEngines.StorageEngine.Open` | src/storage/engine.cpp:31-65 | leftover temporary files are removed, tables are ordered newest first, the log is replayed, and the map is that of the disk |
| `StorageEngines.StorageEngine.Reset` | src/storage/engine.cpp:131-146 | everything is gone in memory; on disk the removals of the open tables and the cleared log are performed, which leaves nothing when those are the tables there |
| `StorageRecovery.WriteCrashSafe` | src/storage/engine.cpp:67-183 | a crash at any byte of the append or any step of the flush and of the compaction before its first removal opens as the map before or after the write |
| `StorageRecovery.WriteDurable` | src/storage/engine.cpp:67-183 | a finished write opens as the map after it |
| `StorageRecovery.AppendCrash` | src/storage/wal.cpp:112-131 | a crash at any byte of an append opens as the map before or after |
| `StorageRecovery.FlushCrash` | src/storage/engine.cpp:109-129 | a crash at any step of a flush opens as the same map |
| `StorageRecovery.CompactCrash` | src/storage/engine.cpp:148-176 | a crash at any step of a compaction before its first removal opens as the same map |
| `StorageRecovery.RecoversOneMap` | src/storage/engine.cpp:31-65 | a disk opens as at most one map, so opening as a map excludes every other |
| `StorageRecovery.OpensUnique` | src/storage/engine.cpp:31-65 | a disk opens in one way only |
| `StorageRecovery.MidRemoval` | src/storage/engine.cpp:180-182 | a crash between removals leaves a disk with the j newest old tables gone, which reopens as the same map if and only if no key the compaction dropped still has a value in the tables left |
| `StorageResurrection.DeletedKeyReturns` | src/storage/engine.cpp:180-182 | sixteen writes from the empty directory and a crash in the last one's compaction after which a deleted key has its value again: the disk opens neither as the map before the write nor as the one after it |
| `StorageRecovery.EveryCrashPoint` | src/storage/engine.cpp:67-183 | wherever at all a crash hits a write, the disk opens as the map before it or after it, or old tables are gone and a dropped key returns from those left |
| `StorageTornTail.OpenedWriteIff` | src/storage/wal.cpp:87-89 | on every disk the engine opens, the next write is there after the next opening if and only if the log ended with its last readable record or the write flushes it; otherwise, unless the new bytes happen to complete the unreadable ones, that opening shows the map from before the write |
| `StorageTornTail.AcknowledgedWriteLost` | src/storage/wal.cpp:112-131 | a crash in an append behind its header leaves a disk on which every acknowledged write shorter than the missing part is lost that sets off no flush |
| `StorageTornTail.PutLostBehindTornLog` | src/storage/wal.cpp:87-89 | from the empty directory: a torn put, a reopening, an acknowledged put, and after the next reopening that put is gone |
| `StorageTornTail.WholeUntilTorn` | src/storage/wal.cpp:56-90 | the log of a running engine ends with its last readable record; cut off inside an append it does not |
| `StorageRuns.RunDurable` | src/storage/engine.cpp:67-183 | after any run of writes from the empty directory the disk opens as the map they say and as no other |
| `StorageRuns.RunCrashSafe` | src/storage/engine.cpp:67-183 | a crash in the i-th write of a run, before it removes a table, opens as what the first i writes or the first i + 1 say |
| `SqlLexer.LexRender` | src/sql/lexer.cpp:15-106 | tokenizing undoes writing tokens out |
| `SqlLexer.LexShape` | src/sql/lexer.cpp:15-106 | whatever the text, there is one end token, at the end, and identifier tokens are identifiers |
| `SqlLexer.ReadLexeme` | src/sql/lexer.cpp:20-102 | one turn of the loop, branch by branch |
| `SqlLexer.ScanQuoted` | src/sql/lexer.cpp:52-70 | the loop over a literal, doubled quotes and the missing closing quote included |
| `SqlLexer.Tokenize` | src/sql/lexer.cpp:15-106 | the loops yield the tokens of the specification |
| `SqlParser.ParseUndoesPrint` | src/sql/parser.cpp:72-348 | every expressible statement written as text, with or without semicolon, parses back to itself, whatever its names and literals |
| `SqlParser.ExactlyExpressible` | src/sql/parser.cpp:72-348 | the statements texts stand for are exactly the expressible ones |
| `SqlParser.ParsedExpressible` | src/sql/parser.cpp:72-348 | whatever the text, a parsed statement can be written |
| `SqlParser.TextsDiffer` | src/sql/parser.cpp:72-348 | no two statements are written alike |
| `SqlParser.ParseStatement` | src/sql/parser.cpp:72-97 | something is read, the end token is never consumed, and the result is expressible |
| `SqlParser.ParseDefinitions` | src/sql/parser.cpp:126-147 | columns are named, have no default, and at most one is the primary key |
| `SqlParsers.Parser.DoParseStatement` | src/sql/parser.cpp:72-97 | the moving position reads what the specification reads and never leaves the tokens |
| `SqlParsers.Parser.DoParseDefinitions` | src/sql/parser.cpp:126-147 | the loop with its flag agrees with counting primary keys |
| `SqlParsers.Parser.DoParseInsert` | src/sql/parser.cpp:184-221 | the two lists and the check of their lengths |
| `SqlParsers.Parser.DoParseConditions` | src/sql/parser.cpp:332-348 | the AND chain |
| `SqlParsers.Parse` | src/sql/parser.cpp:19-97 | text to statement through both loops |
| `SqlFrontEnd.ParsedWellFormed` | src/sql/executor.cpp:153-180 | any text that parses is a statement the refinement theorems cover |
| `SqlKeys.PrefixSelects` | src/sql/executor.cpp:84-93 | a table's prefix picks out exactly that table's row keys |
| `SqlKeys.KindsApart` | src/sql/executor.cpp:84-93 | row, schema and database keys never meet |
| `SqlMeaning.StandsIff` | src/sql/executor.cpp:116-140 | each of the six comparisons is the relation it names, on bytes for TEXT and on values for INT, and throws exactly for a literal that is no number |
| `SqlMeaning.WhereMeaning` | src/sql/executor.cpp:143-151 | a row matches if and only if all conditions stand, and the clause throws if and only if all before one that cannot be evaluated stand |
| `SqlMeaning.WhereDecides` | src/sql/executor.cpp:143-151 | with known columns and readable numbers nothing throws, and a row matches if and only if all conditions stand |
| `SqlMeaning.NamedIff` | src/sql/schema.cpp:35-40 | a name means the first column that bears it, and no column exactly if none does |
| `SqlMeaning.PadMeaning` | src/sql/executor.cpp:60-64 | a padded row is the row with the defaults of the columns it lacks |
| `SqlMeaning.SelectMeaning` | src/sql/executor.cpp:285-324 | SELECT lists exactly the rows its clause picks, in key order, each with the wanted columns under their names, and changes nothing |
| `SqlMeaning.UpdateMeaning` | src/sql/executor.cpp:326-349 | after UPDATE the picked rows, up to the first that throws, hold in each assigned column the last literal assigned and in the others what they showed; every other cell is as it was; the count is that of the picked rows |
| `SqlMeaning.DeleteMeaning` | src/sql/executor.cpp:351-363 | after DELETE exactly the picked rows, up to the first that throws, are gone |
| `SqlMeaning.PlanMeaning` | src/sql/executor.cpp:328-337 | UPDATE is refused if and only if some column is unknown or the primary key or some literal does not fit |
| `SqlInsertMeaning.InsertMeaning` | src/sql/executor.cpp:258-283 | INSERT succeeds if and only if it names every column once with values that fit and the key is free; then there is that one cell more, each value in its column |
| `SqlInsertMeaning.DefinitionsMeaning` | src/sql/executor.cpp:217-256 | when the three definitions succeed, and the one cell each leaves |
| `SqlInsertMeaning.ShowTablesMeaning` | src/sql/executor.cpp:365-379 | SHOW TABLES lists exactly the tables of the database, by name, each once |
| `SqlInsertMeaning.ShowDatabasesMeaning` | src/sql/executor.cpp:381-393 | SHOW DATABASES lists exactly the databases, by name, each once |
| `SqlInsertMeaning.PinnedMeaning` | src/sql/executor.cpp:182-215 | the row a statement is pinned to is under the literal it first gives for the key column, and there is none exactly if it gives none |
| `SqlNumbers.DecimalReads` | src/sql/executor.cpp:105-121 | a number written in decimal is an integer literal and reads as itself if and only if it fits 64 bits |
| `SqlSpelling.KeywordsInAnyCase` | src/sql/parser.cpp:11-26 | a keyword is read letter by letter in whatever case |
| `SqlSpelling.NotEqualEitherWay` | src/sql/lexer.cpp:83-92 | the two signs for "not equal" lex alike |
| `SqlSpelling.BlanksDoNotMatter` | src/sql/lexer.cpp:20-26 | the blanks are six characters, and before a token they are passed over |
| `SqlSpelling.NumbersUnquoted` | src/sql/parser.cpp:53-58 | a literal is the same, number or string |
| `SqlLazyAlter.LazyEqualsEager` | src/sql/executor.cpp:241-363 | for every sequence of parsed statements, every result equals that of an executor that rewrites all rows at ALTER time |
| `SqlLazyAlter.StatementRelated` | src/sql/executor.cpp:241-363 | one statement: same result, and the stores stay related |
| `SqlLazyAlter.DefaultNeverMissing` | src/sql/executor.cpp:60-64 | in every reachable state PadRow finds a default for each column a row lacks |
| `SqlLazyAlter.NeverUnreadable` | src/sql/executor.cpp:60-64 | no statement fails on a missing default or a short row |
| `SqlCodecs.RowRoundTrip` | src/sql/executor.cpp:21-53 | DecodeRow undoes EncodeRow, whatever bytes the values hold |
| `SqlCodecs.SchemaRoundTrip` | src/sql/schema.cpp:49-82 | Deserialize undoes Serialize exactly if there is a column |
| `SqlCodecs.EncodeRowLoop` | src/sql/executor.cpp:21-31 | the loop writes the encoding |
| `SqlCodecs.DecodeRowLoop` | src/sql/executor.cpp:33-53 | the loop reads the row or throws where the specification does |
| `SqlStored.DatabaseReopens` | src/sql/executor.cpp:217-363 | whatever texts run on an engine that starts empty, the disk they leave opens as one map, and decoding it gives the executor's store |
| `SqlStored.DatabaseCrashSafe` | src/sql/executor.cpp:326-363 | a crash in the j-th engine write of a statement, before it removes a table, leaves the database of the statements before it with the first j or j + 1 row writes done |
| `SqlStored.StatementAtomic` | src/sql/executor.cpp:217-283 | a statement other than UPDATE and DELETE survives such a crash altogether or not at all |
| `SqlStored.WritesMake` | src/sql/executor.cpp:217-363 | the engine writes of a statement, exceptions half-way included, make exactly its store |
| `SqlStored.StoreRoundTrip` | src/sql/executor.cpp:21-64 | decoding by the kind of the key undoes encoding, for every store whose cells fit the files |
| `SqlExecutors.SqlExecutor.DoInsert` | src/sql/executor.cpp:258-283 | store and result are those of the specification |
| `SqlExecutors.SqlExecutor.DoSelect` | src/sql/executor.cpp:285-324 | the loop over scanned rows returns the rows of the specification |
| `SqlExecutors.SqlExecutor.DoUpdate` | src/sql/executor.cpp:326-349 | rows are rewritten one by one; an exception leaves the earlier ones rewritten |
| `SqlExecutors.SqlExecutor.DoDelete` | src/sql/executor.cpp:351-363 | rows are removed one by one |
| `SqlExecutors.SqlExecutor.DoAddColumn` | src/sql/executor.cpp:241-256 | only the schema is written |
| `SqlExecutors.SqlExecutor.DoExecute` | src/sql/executor.cpp:153-180 | dispatch to all nine statements |
| `SqlExecutors.SqlExecutor.DoTryExtractRowKey` | src/sql/executor.cpp:182-215 | the row key a statement is pinned to |
| `SqlExecutors.Matches` | src/sql/executor.cpp:143-151 | the AND chain with its exceptions |
| `SqlExecutors.Fill` | src/sql/executor.cpp:258-276 | values are put in schema order, each column once |
| `ShardRuns.ShardedRefinesSingle` | src/raft_main.cpp:655-770 | over any run of well-typed statements entered at any shard, every reply agrees with one undivided database, and the shards together are it |
| `ShardRefinement.DispatchRefines` | src/raft_main.cpp:655-770 | one statement: routed, scattered or broadcast, the shards stay the undivided database and the reply is its answer, rows in the same order |
| `ShardExecution.ScansConcatenate` | src/raft_main.cpp:695-729 | scans of the shards in start-key order concatenate to the scan of the undivided table |
| `ShardStatements.PinnedRow` | src/sql/executor.cpp:69-77 | a row matching a pinned primary key has that key |
| `ShardStatements.InsertedKey` | src/sql/executor.cpp:182-194 | a successful INSERT stores under the key TryExtractRowKey announces |
| `ShardRouting.OwnerCovers` | src/shard/routing.cpp:63-74 | in a partitioning table the search succeeds and finds the one range that covers the key |
| `ShardRouting.OwnersOrdered` | src/shard/routing.cpp:57-60 | keys of an earlier range lie below keys of a later one |
| `ShardRouting.RoutingTable.LoadFromFile` | src/shard/routing.cpp:37-61 | blank, comment and malformed lines are passed over, an unreadable peer list stops the loop with the ranges before it, a missing file and a table without ranges are refused; otherwise the ranges are those of the file with their peers, sorted by start key |
| `ShardRouting.RoutingTable.ShardFor` | src/shard/routing.cpp:63-74 | the binary search finds the owner, or none |
| `ShardRouting.RoutingTable.AllShardIds` | src/shard/routing.cpp:83-88 | all ids in start-key order |
| `TxnProtocol.RunsNeedAllVotes` | src/raft_main.cpp:276-343 | over whole runs in which any message may be applied at any time, any number of times or never, a shard runs a transaction's commands only if every shard of it voted yes |
| `TxnProtocol.NeverBoth` | src/raft_main.cpp:276-343 | no transaction is run on one shard and dropped on another |
| `TxnProtocol.ReportsAreTrue` | src/raft_main.cpp:324-342 | a reported commit ran on every shard, a reported abort ran on none, and an undelivered one ran wherever it is not reported as failed |
| `TxnProtocol.LocksOverRuns` | src/txn/participant.cpp:5-47 | at every shard the locked keys are the disjoint union of those of its pending transactions, each holding exactly what its coordinator sent there |
| `TxnBuffering.BufferedCommitsMeetNoDuplicate` | src/raft_main.cpp:616-653 | when transactions come from buffers whose statements were queued under the keys TryExtractRowKey gives, against tables their shards know, no two INSERTs for one row, and plain INSERTs avoid locked keys, no COMMIT delivered anywhere, at any time, meets a duplicate key |
| `TxnBuffering.BufferAnnounces` | src/raft_main.cpp:276-284 | a shard's share of such a buffer names the rows its INSERTs add, on any shard that knows their tables |
| `TxnBuffering.QueueMeaning` | src/raft_main.cpp:616-653 | a line is queued if and only if it is an INSERT, UPDATE or DELETE pinned to a row some shard owns, and for the shard whose range covers it |
| `TxnBuffering.CoordinatedRuns` | src/raft_main.cpp:437-477 | every run of such coordinators is careful: what they announce at the start holds at delivery, whatever ran in between |
| `TxnProtocol.CommitsMeetNoDuplicate` | src/raft_main.cpp:437-468 | in every careful run no COMMIT delivered anywhere meets a duplicate key |
| `TxnProtocol.StepKeepsInv` | src/raft_main.cpp:276-343 | every send, delivery, answer, plain write and new transaction keeps the invariant of the protocol |
| `TxnReplicas.YesVoteProtects` | src/raft_main.cpp:240-257 | in any history in which batches name the row keys of their INSERTs, no two INSERTs of a batch are for one row and plain INSERTs avoid locked keys, no COMMIT meets a duplicate key, however transactions interleave |
| `TxnReplicas.LocksStayExact` | src/txn/participant.cpp:5-47 | in every history whatsoever the locked keys are exactly those of pending transactions, no two sharing one |
| `TxnReplicas.AbortLeavesNoTrace` | src/raft_main.cpp:437-477 | whatever a new transaction is voted, and whatever runs before its ABORT about other transactions and other keys, the replica is the one that never saw it |
| `TxnReplicas.ApplyKeepsProtected` | src/raft_main.cpp:437-477 | whatever a careful command is, it leaves every prepared batch ready to run |
| `TxnCommitting.CommitMeaning` | src/raft_main.cpp:455-465 | COMMIT leaves the store that its commands leave as plain commands one by one, all of them or up to and including the first that fails, whose answer it gives; of a transaction that is not pending it changes nothing and says so |
| `TxnCommitting.CommittedRowsAreThere` | src/raft_main.cpp:455-465 | after a successful COMMIT the row of each INSERT is in the store that no later DELETE of the batch picks |
| `TxnReplicas.InsertsRunIff` | src/raft_main.cpp:455-465 | a batch of fitting INSERTs runs through if and only if no two are for one row and all rows are free |
| `TxnReplicas.VoteIff` | src/raft_main.cpp:437-453 | the vote on a new announced batch is yes if and only if the rows of its INSERTs are free and none of its keys is locked; repeated keys play no part |
| `TxnReplicas.RepeatedKeyIff` | src/txn/participant.cpp:5-33 | a batch of INSERTs gets its vote as if its rows were distinct, and after a yes COMMIT succeeds if and only if no two are for one row |
| `TxnCareless.RepeatedInsertFails` | src/txn/participant.cpp:5-33 | a history from the empty replica in which a batch with one INSERT twice is voted for and its COMMIT meets a duplicate key |
| `TxnCareless.PlainInsertBreaksVote` | src/raft_main.cpp:470-477 | a history from the empty replica in which a plain INSERT of a locked row succeeds and COMMIT then meets a duplicate key |
| `TxnReplicas.PlainInsertIff` | src/raft_main.cpp:470-477 | nothing stops a plain INSERT of a locked key: after one, COMMIT succeeds if and only if the key is none of the batch's own |
| `TxnReplicas.StatementStable` | src/sql/executor.cpp:217-363 | only an INSERT adds a row, under the key it announces, and primary key names persist |
| `TxnReplicas.DuplicateAnnounced` | src/sql/executor.cpp:258-283 | a statement reports a duplicate key only if it is an INSERT whose announced row is there |
| `TxnParticipants.VotesNoIff` | src/txn/participant.cpp:5-20 | a no vote changes nothing, and comes exactly when a key of a new transaction belongs to a pending one |
| `TxnParticipants.ResolveKeepsExact` | src/txn/participant.cpp:22-47 | releasing one transaction's keys releases no other's |
| `TxnParticipants.TxnParticipant.DoPrepare` | src/txn/participant.cpp:5-20 | the two loops over the keys |
| `TxnParticipants.TxnParticipant.BeginCommit` | src/txn/participant.cpp:22-33 | COMMIT up to the staged commands |
| `TxnParticipants.TxnParticipant.DoAbort` | src/txn/participant.cpp:35-43 | ABORT, of unknown transactions too |
| `TxnParticipants.TxnParticipant.ReleaseLocks` | src/txn/participant.cpp:45-47 | exactly the transaction's keys are released |
| `TxnCallbacks.ApplyTarget.ApplyCallback` | src/raft_main.cpp:437-477 | the callback does to executor, engine and lock table what the specification does |
| `TxnCallbacks.ApplyTarget.FindStagedDuplicateKey` | src/raft_main.cpp:240-257 | the first staged INSERT whose row is there; texts that do not parse are passed over |
| `TxnCallbacks.ApplyTarget.RunCommands` | src/raft_main.cpp:459-465 | staged commands run in order until one throws |
| `TxnCoordinators.RunTransaction` | src/raft_main.cpp:276-343 | whatever the answers, the messages sent are the plan's, one after the other to the last, and the outcome is what the answers say |
| `TxnCoordinators.SendsMeaning` | src/raft_main.cpp:290-340 | every shard in turn is sent its share to prepare until one refuses; then exactly those before it are told to abort, or else all to commit |
| `TxnCoordinators.GroupByShard` | src/raft_main.cpp:278-284 | the buffer is split by shard in order, shards ascending |
| `TxnCoordinators.BroadcastWrite` | src/raft_main.cpp:171-188 | one statement to every shard in turn, successes and failures accounted for, until a send throws, which ends the loop and the call |

## Left out

- Terms, indices and transaction ids are unbounded; their 64-bit width is not modelled. Lengths in files are bounded by
  their 32-bit fields, in hypotheses.
- Clocks, election deadlines and the recent-leader refusal: a refusal or a timeout may happen at any time.
- `replication_in_flight_`: the model lets a leader have any number of calls open to a peer.
- What Propose reports to its caller, and `apply_errors_`: results are about logs and applied entries.
- Membership change inside the Raft safety theorems: members are fixed there; the fold and its bookkeeping are proved per
  node. That a base adopted from a snapshot holds only committed changes is not claimed.
- The contents of snapshots and of the state machine behind them.
- Crashes inside a critical section of the node, so also between a call of the apply callback and the saving of the
  applied index, and the bytes of the Raft log, vote and membership files: a save is one step.
- Sockets, redirects, circuit breakers, message codecs, conf-change and transaction codecs, the REPL and the user
  interface.
- Token offsets, error messages and the tab-separated text of results: rows are sequences, errors are values.
- INT primary keys in the sharding theorems: their comparison is numeric while keys are text. Literals out of the 64-bit
  range are excluded there by the typing hypothesis, as exceptions half-way through a scatter differ between one database
  and many.
- A broadcast of which some shards fail, or a scatter some shards do not answer: the sharding theorems have every shard
  reachable.
- Tables damaged behind a valid footer.
- Lock tables across restarts and snapshots: `src/txn/participant.h:25-30` documents them as in memory only.
- `std::sort`, `std::map` and `std::lower_bound` are modelled by loops of the model's own; table file names by their
  sequence numbers.
- TxnBuffering.BufferedCommitsMeetNoDuplicate: that a shard knows the tables of a buffer under the same primary keys as
  the coordinator's own shard, and that no two INSERTs of a batch are for one row, are hypotheses at the start of the
  transaction; a broadcast that reached only some shards breaks the first, and RepeatedKeyIff is about the second.
- ShardRouting.RoutingTable.LoadFromFile: lines arrive split into their fields; the text of numbers and peer lists is not
  read.
- RaftNodes.RaftNode.DoHandleAppendEntries: excludes the one request for which the code indexes past the end of its log,
  which AppendGaplessIff characterises and PrevTermsPositiveOverRuns shows no leader to send.
- SqlStored.DatabaseCrashSafe: the crash points are those before a compaction's first removal, because
  DeletedKeyReturns shows one after it that loses a delete.
