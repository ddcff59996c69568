# A verified model of the core-x Raft key-value engine

core-x is a key-value engine replicated with Raft (Ongaro and Ousterhout, "In Search of an Understandable
Consensus Algorithm"; ReadIndex is section 6.4 of Ongaro's dissertation). This project models its consensus node
and the durable structures around it, and proves what they promise.

`dafny verify dfyconfig.toml` checks everything (Dafny 4.11).

## How the model is built

- **One node.** `RaftNode` has a class `RaftServer` with the node's fields, handlers and loops, and a function per
  critical section. Each method is proved equal to its function of the old state. Everything under the node's mutex
  is one atomic step. Faults are inputs: the outcome of each metadata save, and how many log-store writes succeed
  before one fails.
- **One call.** `Handlers` says what each section does to the entries, indices and members, without its definition, on
  any log in order, and how a request, its handling and the reply fit together.
- **A cluster.** `RaftCluster` puts any number of such nodes beside a set of messages that only grows, so messages
  may be lost, duplicated, delayed and reordered. History fields that no node reads record votes, the order of
  elections, each leader's log, acknowledged prefixes, commits and ReadIndex calls. `RaftInvariant` states what every
  reachable state satisfies, `RaftSafety` and `RaftReplication` show that every step keeps it, and `RaftTheorems`
  draws the conclusions that hold in every run. `RaftCommit` adds when committed entries stay committed, exactly, and
  `RaftPrompt` what holds if heartbeats are built while leading.
- **Files and formats.** `Bytes`, `EntryCodec`, `Wal`, `LogStore`, `Bitcask`, `BitcaskRecovery`, `Tracker`, `RaftKv`
  and `Snapshot` work on byte sequences. Checksums, hashes, clocks and the order of Go map walks are parameters, so
  the results hold for all of them. JSON is a pair of functions of which only the round trip is assumed.
- **State machines.** `Mvcc` and `KvReplay` are compared with plain histories; `HashRing` with clockwise distance.

## Where the code falls short of its promise

Each of these is a lemma with a concrete witness, or an exact condition, or both.

- A vote reply that arrives late makes a candidate adopt its term without comparing (node.go:1545-1551), so a node
  can vote twice in one term: `LateReplyGivesTwoVotes`. `LateReplyElectsTwo` is a complete run of three nodes from the
  initial state after which two of them lead one term. `AdoptExactly` says when adopting is harmless.
- A vote given to a candidate with an empty name reads like no vote: `BindsExactly`.
- A failed save of a self-vote clears a vote given earlier (node.go:1468-1472): `RollBackExactly`.
- The leader loop checks its role and builds the heartbeat in two critical sections (node.go:1636-1645 and
  1686-1753), so a deposed leader may send the log and commit index of a later term under its old term. Election
  Safety, Log Matching, Leader Completeness and ReadIndex survive this. State Machine Safety does not:
  `StaleHeartbeatBreaksSafety` is a complete run of five nodes from the initial state after which two of them have
  delivered different entries at one index, with one such heartbeat. A follower truncates at a conflict without
  looking at its commit index (node.go:404-420). `StepCoversExactly` and `RunCoversExactly`: every commit index goes
  on naming entries committed by counting iff no append truncates at or below a commit index, which the follower can
  check before it truncates; `StateMachineSafety` holds up to the first such cut. `PromptNeverCuts`: there is none
  when every heartbeat is built while its sender still leads, which the sender can check under the lock.
- A new leader appends no entry, so a confirmed ReadIndex call may miss a commit: `FreshLeaderReadsStale`. The
  comment on ReadIndex (INV-RI2) promises otherwise; `ReadIndexIsCurrent` holds of a leader that has no entry of an
  earlier term above its commit index.
- An older snapshot is installed over a longer log, committed entries included (node.go:771-791):
  `InstallKeepsCommitted` says exactly when the node keeps what it committed, and `InstallKeepsApplied` when its state
  machine, put back while the apply loop does not go back and entries are still queued, ends with the right map.
- A compacted follower takes a request anchored at 0 without a check (node.go:365): `LowRequest` says exactly when
  its log stays in order.
- The sentinel of the third entry format does not tell it from the older two, against the comment at
  log_store.go:290-293: `V2Exactly` and `V1Exactly`.
- A torn tail of a file is not cut off before the next append. For the Raft log, `TornTailExactly`: with at most three
  bytes of it, the file goes on meaning its entries iff there is no tail or the first operation is a compaction, and
  otherwise stops loading for good. `LongTailSwallows`: one that holds a whole header loads without an error and loses
  every later append and truncation until the file outgrows the record announced, and `LongTailCompacted`: a compaction
  makes the loss permanent. For the event store, `SecondRecovery`: Get goes on working, but the next recovery fails
  unless a compaction came first.
- LoadAll refuses a record of unknown type, but a compaction drops it without a word: `UnknownRecordDropped`.
- When the index is full a write reaches the file only, and recovery then fails until the next compaction, against the
  comment at store.go:109-112: `RecoveryAgrees`.
- The checkpoint that follows each record of the Raft-backed store does not advance the writer's size tracker
  (raft_store.go:190-199, writer.go:180-234). `TrackerExactly`: over every history of tracked writes, raw writes and
  compactions the tracker is the file length iff no raw write has come since the last compaction that succeeded.
  `EntryMisses` and `KvEntryMisses`: an index entry misses its record by exactly the raw bytes before it, 54 per earlier
  operation. `SecondWriteReadsEmpty` and `TwoWrites`: the second write after opening the file reads back empty, whatever
  was written. `KvRecoveryAgrees`: a restart puts every entry right, unless a write had found the index full, when it
  fails.
- After a failed durable write the state machine goes on with later entries. `FailedWritesExactly`: its map is then
  the one of the log iff every key's last write succeeded or has the same effect as its last successful one. While it
  runs nothing retries the write (`FailedWriteIsSkipped`); a restart brings it back, so that a key can change without
  a new entry (`RestartBringsBack`).
- The startup path applies the whole log, entries never committed included (cmd/main.go:494-518).
  `StartupCommittedExactly` says when that is the map of the committed entries, and `TruncatedEntriesExactly` when the
  map is right once such entries have been replaced: keys that only they wrote stay for good.
- A snapshot of the plain state machine may pair a map with an older index, against the comment at
  kv_state_machine.go:284-289; `TornSnapshotConverges` shows that this is harmless.
- A snapshot drops a user key equal to the reserved one: `MapRoundExactly`.
- Removing a ring node that shares a point with another takes the other's point away: `RemoveKeepsExactly` and
  `AddRemoveExactly`. A registered node may so lose all its points and never be found again: `SharedPointsLoseNode` and
  `RemoveSilencesExactly`; without shared points it is always found: `UnsharedAnswers`.

Hypotheses of cluster runs, all visible in `RaftCluster.Enabled`: fixed stable membership, no restart, no installed
snapshot, a term from a vote reply adopted only when higher, and a failed self-vote rolled back only where no vote was
given. A leader loop may build heartbeats for as long as its node starts no election of its own, deposed or not; the
code allows one round of them. A reply to a heartbeat is handled without rechecking role or term, and a ReadIndex
heartbeat may be built after the term was captured, exactly as in the code; both are proved safe.

## Model

| member | source | states |
|---|---|---|
| `Quorum.QuorumFor` | internal/infrastructure/raft/cluster_config.go:113-142 | the counting loops decide exactly whether the node plus the acknowledging peers reach the old threshold and, in a joint phase, the new one too |
| `Quorum.CountedMajority` | internal/infrastructure/raft/cluster_config.go:54-64 | with a duplicate-free peer list, reaching the counted threshold is the same as a strict majority of the membership, the node included |
| `Quorum.StableQuorumsMeet` | internal/infrastructure/raft/cluster_config.go:113-126 | any two acknowledgement sets that pass over one membership, whoever counts them, share a member |
| `Quorum.JointQuorumMeetsBoth` | internal/infrastructure/raft/cluster_config.go:127-142 | a set that passes the joint test meets every quorum of the old and every quorum of the new membership |
| `RaftLog.MergeShape` | internal/infrastructure/raft/node.go:390-444 | merging a leader's suffix behind an agreeing anchor leaves the old log or a prefix of the leader's, and all of the leader's log when it completes, for every number of failing writes |
| `RaftLog.MergeKeeps` | internal/infrastructure/raft/node.go:390-444 | a prefix of the old log that the leader's log does not contradict survives the merge, even one cut short |
| `RaftNode.RaftServer.HandleAppendEntries` | internal/infrastructure/raft/node.go:326-457 | term adoption, consistency check with conflict hint, skip, truncate and append loop, commit clamp: the whole new state and reply as a function of the old state |
| `Handlers.AppendMeans` | internal/infrastructure/raft/node.go:326-457 | on any log in order, a request is accepted iff its term is no earlier, the log or its base has the anchor, and the writes needed succeed; the log then keeps what it shares with the request and ends with the rest of it, and loses nothing if it had all |
| `Handlers.AppendState` | internal/infrastructure/raft/node.go:326-457 | term, vote, role, leader and commit index after a request, and that nothing else changes |
| `Handlers.RejectionMeans` | internal/infrastructure/raft/node.go:364-388 | the hint of a rejection is one past the end, or the term at the anchor with the first index of its run |
| `RaftNode.RaftServer.MergeEntries` | internal/infrastructure/raft/node.go:390-444 | the append loop equals the recursive merge, including a stop at the first failed write |
| `Handlers.MergeExactly` | internal/infrastructure/raft/node.go:390-444 | which writes the append loop needs, and the exact log after any number of them |
| `RaftNode.RaftServer.CheckPrevious` | internal/infrastructure/raft/node.go:364-388 | the consistency check rejects a missing or differing anchor with the hint for Fast Backup, and skips anchors of 0 |
| `VotePromise.GrantBinds` | internal/infrastructure/raft/node.go:467-529 | a vote is granted iff the term is current, nobody else has the term's vote, the vote is on disk, and the candidate's last entry is of a later term than the voter's, or of the same term and no lower index; no other candidate can then get it, even after a crash, and even if the save of the new term had failed |
| `VotePromise.SelfVoteBinds` | internal/infrastructure/raft/node.go:1457-1476 | an election starts iff the self-vote is on disk, in the next term, and nobody else can then get the node's vote there, even after a crash |
| `RaftSafety.WinFacts` | internal/infrastructure/raft/node.go:1559-1567 | a node that takes office, for whatever term the votes were, holds a majority of votes of its present term for exactly its present log, in a term no node has led and above the term of every entry it holds |
| `RaftSafety.OfficeExactly` | internal/infrastructure/raft/node.go:1559-1563 | votes that reach a quorum make the node leader iff it is still in the term they were asked for in, and otherwise change nothing |
| `RaftTheorems.TakesOffice` | internal/infrastructure/raft/node.go:1457-1570 | in every run, a node becomes leader only through a won election of the term it is in, with votes of a majority for the log it has |
| `RaftNode.RaftServer.BeginLeading` | internal/infrastructure/raft/node.go:1577-1606 | resets nextIndex and matchIndex of every voter |
| `Handlers.FirstHeartbeat` | internal/infrastructure/raft/node.go:1577-1752 | on taking office, nextIndex of every voter is one past the last entry and matchIndex is 0, so that the first heartbeat to each is empty and anchored at the last entry |
| `RaftNode.RaftServer.ProposeEntry` | internal/infrastructure/raft/node.go:1078-1102 | a leader appends one entry of its term at the next index if the log store takes it; otherwise nothing changes |
| `Handlers.ProposeMeans` | internal/infrastructure/raft/node.go:1078-1102 | the entry has the next index and the current term and follows the old log |
| `RaftNode.RaftServer.BuildHeartbeat` | internal/infrastructure/raft/node.go:1705-1752 | a peer at or below the snapshot is left to the snapshot sender if there is a snapshot store; any other gets the entries from nextIndex on, anchored at the one before, and the last index sent |
| `Handlers.HeartbeatMeans` | internal/infrastructure/raft/node.go:1705-1752 | a heartbeat carries exactly the entries from nextIndex to the end, anchored at an entry the leader has |
| `Handlers.ExchangeReplicates` | internal/infrastructure/raft/node.go:326-1862 | a heartbeat to a follower of no later term that has its anchor is accepted; the follower then has the leader's term at every index behind the anchor, and the leader's matchIndex and nextIndex say so |
| `Handlers.ProbeMeans` | internal/infrastructure/raft/node.go:1898-1924 | the heartbeat of a ReadIndex round is the one a caught-up peer gets |
| `RaftNode.RaftServer.HandleAppendReply` | internal/infrastructure/raft/node.go:1783-1862 | step-down, match advance and commit, or Fast Backup, as a function of the old state |
| `Handlers.ReplyMeans` | internal/infrastructure/raft/node.go:1783-1862 | step-down on a later term; matchIndex raised to the last entry sent; or nextIndex moved as Fast Backup asks |
| `RaftNode.RaftServer.FindBackUp` | internal/infrastructure/raft/node.go:1829-1860 | the scan for the last entry of the conflicting term and the resulting nextIndex |
| `RaftNode.RaftServer.MaybeAdvanceCommitIndex` | internal/infrastructure/raft/node.go:1874-1889 | the highest index of the current term that a quorum acknowledged becomes the commit index |
| `Handlers.AdvanceExactly` | internal/infrastructure/raft/node.go:1874-1889 | the commit index becomes the highest index up to the last sent that holds an entry of the term and that a majority of the members have, the leader included, and stays if there is none above it |
| `RaftNode.RaftServer.ConfirmLeadership` | internal/infrastructure/raft/node.go:1898-1971 | the early exit never changes the verdict: confirmed iff all replies in time pass the quorum test, or there are no peers |
| `Handlers.ConfirmExactly` | internal/infrastructure/raft/node.go:1898-1971 | a round confirms iff a majority of the members, the leader included, answered in time in no later term |
| `RaftNode.RaftServer.DeliverCommitted` | internal/infrastructure/raft/node.go:1377-1412 | the loop equals collecting the entries of the indices between lastApplied and commitIndex |
| `Handlers.DeliverExactly` | internal/infrastructure/raft/node.go:1377-1412 | on a log that reaches the commit index, exactly the entries above lastApplied up to commitIndex are delivered, in order, and lastApplied becomes the larger of the two |
| `RaftCommit.DeliveredAll` | internal/infrastructure/raft/node.go:1377-1412 | in every run without a cut at or below a commit index, a deliver step leaves its node with exactly its log up to the commit index delivered |
| `RaftPrompt.PromptDeliversAll` | internal/infrastructure/raft/node.go:1377-1412 | the same in every run with prompt heartbeats |
| `RaftNode.RaftServer.TruncateLogPrefix` | internal/infrastructure/raft/node.go:663-680 | drops the entries up to the snapshot index and records index and term |
| `Handlers.TruncateMeans` | internal/infrastructure/raft/node.go:663-680 | the entries above the snapshot index stay, and no term at or above it is forgotten |
| `RaftTheorems.RunKeeps` | internal/infrastructure/raft/node.go:326-1971 | the cluster invariant holds in every state of every run |
| `RaftTheorems.ElectionSafety` | internal/infrastructure/raft/node.go:1457-1570 | in every run at most one node ever leads a term, at whatever moments |
| `RaftTheorems.LogMatching` | internal/infrastructure/raft/node.go:326-457 | two logs, at whatever moments, that hold the same term at an index are equal up to it |
| `RaftTheorems.CountedIsInLaterLeaders` | internal/infrastructure/raft/node.go:1874-1889 | in every run, what a node commits by counting under the term of its leader loop, deposed or not, is in the log of every leader of a higher term, at whatever moments |
| `RaftCommit.StepCoversExactly` | internal/infrastructure/raft/node.go:390-454 | if every commit index, held or announced, names entries committed by counting, then it does so after a step iff the step is not an append that truncates at or below a commit index |
| `RaftCommit.RunCoversExactly` | internal/infrastructure/raft/node.go:390-454 | in every run, commit indices have named entries committed by counting throughout iff no append has truncated at or below one |
| `RaftPrompt.PromptNeverCuts` | internal/infrastructure/raft/node.go:1636-1753 | in a run whose heartbeats are built while leading, no append truncates at or below a commit index |
| `RaftPrompt.CommittedIsInLaterLeaders` | internal/infrastructure/raft/node.go:523-529 | in such a run, whatever a node has committed is in the log of every leader of a term above its own |
| `RaftCommit.StateMachineSafety` | internal/infrastructure/raft/node.go:1377-1412 | as long as no append has truncated at or below a commit index, no two nodes, at whatever moments, deliver different entries at one index, and the k-th delivery has index k |
| `RaftPrompt.PromptStateMachineSafety` | internal/infrastructure/raft/node.go:1377-1412 | the same, without that condition, in every run whose heartbeats are built while leading |
| `RaftTheorems.ReadIndexIsCurrent` | internal/infrastructure/raft/node.go:1989-2012 | on a leader without entries of an earlier term above its commit index, a confirmed call yields at least every commit index in the cluster when it began |
| `RaftInvariant.LeaderCompleteness` | internal/infrastructure/raft/node.go:1874-1889 | a prefix that a majority is counted for in a term, misled by stale heartbeats or not, is in the starting log of every leader of a later term |
| `RaftReplication.AppendMisled` | internal/infrastructure/raft/node.go:1686-1753 | a node that acknowledges a request lacking its leader's entries does so after a later leader started without them, and has elected no later leader |
| `RaftReplication.CommitAloneKeeps` | internal/infrastructure/raft/node.go:1647-1660 | the commit of a node without peers keeps the invariant |
| `RaftSafety.OneWinner` | internal/infrastructure/raft/node.go:1559-1567 | a majority of votes in a term that has a leader is a majority for that leader |
| `RaftSafety.EarlierTerms` | internal/infrastructure/raft/node.go:1457-1570 | a log that a majority votes for in a term without a leader holds only entries of earlier terms |
| `RaftSafety.VoteRestriction` | internal/infrastructure/raft/node.go:523-529 | a vote is given only to a candidate whose log carries every acknowledged prefix the voter holds, unless a later leader started without it |
| `ReadGap.FreshLeaderReadsStale` | internal/infrastructure/raft/node.go:1989-2012 | a complete run in which a leader with an entry of an earlier term above its commit index gets a ReadIndex call confirmed that yields less than an index committed before it |
| `StaleGap.StaleHeartbeatBreaksSafety` | internal/infrastructure/raft/node.go:1636-1752 | a complete run, with one heartbeat built after its sender was deposed, at whose end two nodes have delivered different entries at one index |
| `InstallGap.InstallKeepsCommitted` | internal/infrastructure/raft/node.go:760-802 | after an installed snapshot the node still has everything it committed iff it already held the snapshot's last entry, applied, or the snapshot reaches its commit index |
| `InstallGap.InstallKeepsApplied` | internal/infrastructure/raft/node.go:760-802 | with entries still queued for the state machine, the map restored and all that is applied afterwards give the map of the log iff the snapshot was already there; or it lies below what was applied and no key's last write in between changed it; or it lies among the queued entries; or it lies above them and `LateQueueExactly` holds |
| `InstallGap.LateQueueExactly` | internal/infrastructure/raft/node.go:760-802 | queued entries applied on top of a newer snapshot do no harm iff each key they write is written again above the snapshot or has the same value after the queue as in the snapshot |
| `InstallGap.InstallMeans` | internal/infrastructure/raft/node.go:760-802 | log, base, commit index and lastApplied after an installation: a node that has the snapshot's last entry, and has applied it, keeps the entries above; any other starts anew from the snapshot |
| `VotePromise.OneVotePerTerm` | internal/infrastructure/raft/node.go:467-513 | over every guarded sequence of requests, elections, failing saves and restarts, one node never gives two votes in a term |
| `VotePromise.AdoptExactly` | internal/infrastructure/raft/node.go:1545-1551 | adopting the term of a vote reply forgets no vote iff it is higher, or equal with no vote given |
| `VotePromise.RollBackExactly` | internal/infrastructure/raft/node.go:1468-1472 | rolling back a failed self-vote forgets no vote iff none was given in the current term |
| `VotePromise.LateReplyGivesTwoVotes` | internal/infrastructure/raft/node.go:1545-1551 | events after which a node has voted for two candidates in one term |
| `VotePromise.BindsExactly` | internal/infrastructure/raft/node.go:467-513 | a granted vote binds the node to its candidate, crashes included, iff the candidate has a name |
| `Handlers.VoteState` | internal/infrastructure/raft/node.go:467-513 | term, role and vote after any vote request, and that nothing else changes |
| `LateReplyGap.LateReplyElectsTwo` | internal/infrastructure/raft/node.go:1545-1551 | a complete run, with one late vote reply adopted as the code does, at whose end two nodes lead one term |
| `FastBackup.RejectionLowers` | internal/infrastructure/raft/node.go:1829-1860 | each rejection strictly lowers nextIndex, never below the end of any common prefix plus one |
| `FastBackup.ConflictTermsFall` | internal/infrastructure/raft/node.go:364-388 | successive conflict terms strictly fall |
| `FastBackup.RejectionsBounded` | internal/infrastructure/raft/node.go:1829-1860 | a follower rejects at most once more than its log has distinct terms |
| `FastBackup.AcceptedMeansCaughtUp` | internal/infrastructure/raft/node.go:390-444 | once it accepts and stores the entries, the follower holds the leader's whole log |
| `FastBackup.ReachablePair` | internal/infrastructure/raft/node.go:326-457 | the hypothesis of these results holds of any two nodes in every state of every run |
| `FastBackup.PairwiseMatchingIsNotEnough` | internal/infrastructure/raft/node.go:1829-1860 | two logs that agree at equal indices for which a rejection raises nextIndex |
| `Compaction.AppendTransparent` | internal/infrastructure/raft/node.go:364-454 | for anchors at or above the snapshot and consecutive entries, a compacted node gives the verdict, log and commit index of the complete one, with conflict indices raised to the snapshot |
| `Compaction.VoteTransparent` | internal/infrastructure/raft/node.go:467-529 | votes are the same on the compacted and the complete log |
| `Compaction.CommitTransparent` | internal/infrastructure/raft/node.go:1874-1889 | the commit rule gives the same index when the snapshot covers committed entries |
| `Compaction.HeartbeatTransparent` | internal/infrastructure/raft/node.go:1705-1752 | a compacted leader sends the same request to a peer whose nextIndex is above the snapshot |
| `Compaction.TruncateIsCompact` | internal/infrastructure/raft/node.go:663-680 | truncating an already compacted log gives the compaction of the complete one |
| `Compaction.HistoryTransparent` | internal/infrastructure/raft/node.go:559-680 | over whole histories with snapshots in between, terms from vote replies and rejections included, the compacting node ends as the compaction of the other and answers alike |
| `Compaction.BackUpCompacted` | internal/infrastructure/raft/node.go:1829-1860 | Fast Backup on a compacted leader moves where the complete leader does, except that it falls back to the conflict index when the snapshot hides the conflict term |
| `Compaction.LowRequest` | internal/infrastructure/raft/node.go:364-388 | below its snapshot a node rejects every anchor but 0, and a request anchored at 0 leaves its log in order iff it is empty or corrects an entry above the snapshot |
| `EntryCodec.V3Exactly` | internal/infrastructure/raft/log_store.go:308-370 | a v3 record decodes to its entry iff its data is shorter than 2^32 bytes |
| `EntryCodec.V2Exactly` | internal/infrastructure/raft/log_store.go:372-388 | a v2 record decodes to its entry iff, besides, index mod 65536 is not 0xC0FF |
| `EntryCodec.V1Exactly` | internal/infrastructure/raft/log_store.go:335-399 | a v1 command decodes to its entry iff, besides, the length test does not take it for v2 |
| `EntryCodec.ShortV1` | internal/infrastructure/raft/log_store.go:376-399 | below 2^24 bytes the only v1 data the length test misreads is the single byte 0 |
| `EntryCodec.TruncateRound` | internal/infrastructure/raft/log_store.go:403-416 | a truncation marker gives back its index |
| `Wal.Reader.Scan` | internal/infrastructure/storage/wal/reader.go:71-91 | yields the pending records one by one, then keeps the pending error for ever |
| `Wal.FrameRead` | internal/infrastructure/storage/wal/reader.go:129-193 | a framed record reads back, whatever follows it |
| `Wal.ReadExactly` | internal/infrastructure/storage/wal/reader.go:129-193 | a record is read iff its whole frame lies there, magic, size and checksum included |
| `Wal.ReadAtExactly` | internal/infrastructure/storage/wal/reader.go:219-285 | the same for random access |
| `Wal.FrameCut` | internal/infrastructure/storage/wal/reader.go:129-193 | a record cut short reads as ended at the end of its header or payload and as truncated elsewhere |
| `Wal.ScanFrames` | internal/infrastructure/storage/wal/writer.go:180-234 | a reader yields exactly the records written, in order |
| `Wal.ScanDamaged` | internal/infrastructure/storage/wal/reader.go:71-193 | a reader that meets a record whose checksum does not fit yields exactly the records before it and reports the checksum |
| `Wal.ScanCut` | internal/infrastructure/storage/wal/reader.go:71-193 | cut at any byte, a file yields exactly its whole records and no error but truncation |
| `Wal.TornHeader` | internal/infrastructure/storage/wal/reader.go:129-152 | one to three left-over header bytes make the next record unreadable |
| `LogStore.LoadRefinesMemory` | internal/infrastructure/raft/log_store.go:80-178 | after any ascending sequence of appends, truncations and compactions, loading the file gives the memory store's entries |
| `LogStore.StoreHolds` | internal/infrastructure/raft/log_store.go:80-281 | from the operations alone: after any of them LoadAll gives, in ascending order, exactly the entries whose append no later truncation or compaction drops |
| `LogStore.DamageIsReported` | internal/infrastructure/raft/log_store.go:102-281 | a record whose checksum does not fit makes loading and compacting fail, and goes on doing so |
| `LogStore.OddRecord` | internal/infrastructure/raft/log_store.go:102-232 | what one more record of any content does to loading and to compacting |
| `LogStore.UnknownRecordDropped` | internal/infrastructure/raft/log_store.go:102-281 | a record of unknown type makes LoadAll fail until a compaction drops it |
| `LogStore.CrashAfterHistory` | internal/infrastructure/raft/log_store.go:98-143 | cut anywhere behind the last compaction, the file loads without error to the state after the operations whose records are whole |
| `LogStore.KeptExactly` | internal/infrastructure/raft/log_store.go:233-239 | the filter of the file and the cut of the memory agree iff no entry to drop follows one to keep |
| `LogStore.TornTailPoisons` | internal/infrastructure/raft/log_store.go:98-143 | a torn tail of one to three bytes loads, but everything appended after it is lost and the file stops loading |
| `LogStore.TornTailExactly` | internal/infrastructure/raft/log_store.go:80-281 | with a tail of at most three bytes, the file goes on meaning what the memory store holds after any further operations iff there is no tail or the first of them is a compaction |
| `LogStore.LongTailSwallows` | internal/infrastructure/raft/log_store.go:80-143 | behind a tail with a whole header, every append and truncation is silently lost until the file outgrows the record that the header announces |
| `LogStore.LongTailCompacted` | internal/infrastructure/raft/log_store.go:160-281 | a compaction behind such a tail makes the file whole again, without the operations it swallowed |
| `LogStore.WalLogStore.LoadAll` | internal/infrastructure/raft/log_store.go:102-143 | the replay loop equals the replay of all records of the file |
| `LogStore.WalLogStore.CompactPrefix` | internal/infrastructure/raft/log_store.go:160-281 | rewrites the file with the kept entries, or leaves it alone when it cannot be read |
| `LogStore.MemLogStore.CompactPrefix` | internal/infrastructure/raft/log_store.go:461-474 | drops the leading entries up to the index |
| `Bitcask.EventRound` | internal/infrastructure/storage/wal/encode.go:20-36 | an event with fields up to 65535 bytes decodes to itself |
| `Bitcask.StoreAgrees` | internal/infrastructure/storage/kv/store.go:100-171 | after any writes and compactions the size tracker is the file length and Get agrees with a plain map on every key |
| `Bitcask.CompactKeeps` | internal/infrastructure/storage/kv/compact.go:36-145 | in whatever order the index is walked, compaction keeps the map and leaves exactly one record per key |
| `Bitcask.RecoverMeans` | internal/infrastructure/storage/kv/store.go:205-265 | recovery of a file with these records succeeds iff none of them was refused, and then rebuilds the very same index |
| `BitcaskRecovery.RecoveryAgrees` | internal/infrastructure/storage/kv/store.go:205-265 | from the empty store, after any writes and compactions, recovery succeeds iff every write since the last compaction was accepted, and then gives back the store, so that Get agrees with the plain map on every key |
| `BitcaskRecovery.CrashAgrees` | internal/infrastructure/storage/kv/store.go:205-265 | the same after a cut at any byte behind the last compaction, for the writes whose records are whole |
| `BitcaskRecovery.CrashInCompacted` | internal/infrastructure/storage/kv/store.go:205-265 | after a cut inside what a compaction wrote, recovery succeeds and Get shows exactly the keys the walk visited first |
| `BitcaskRecovery.DamagedRecovery` | internal/infrastructure/storage/kv/store.go:205-265 | recovery fails on a record whose checksum does not fit, with the records before it indexed |
| `BitcaskRecovery.DamagedGet` | internal/infrastructure/storage/kv/store.go:141-187 | Get never answers with such a record |
| `BitcaskRecovery.SecondRecovery` | internal/infrastructure/storage/kv/store.go:205-265 | after a crash that left at most three bytes behind a file that recovers, and any further writes and compactions, Get agrees with the plain map, and the next recovery succeeds iff every write since the last compaction was accepted and there was no tail or has been a compaction |
| `Tracker.TrackerExactly` | internal/infrastructure/storage/wal/writer.go:180-461 | over every history of tracked writes, raw writes and compactions, the tracker is the file length iff no raw write has come since the last compaction that succeeded |
| `Tracker.TrackerLags` | internal/infrastructure/storage/wal/writer.go:180-461 | it lags the file by exactly the raw bytes since then |
| `Tracker.EntryMisses` | internal/infrastructure/storage/wal/writer.go:322-371 | an index entry, until it is replaced, lies exactly the raw bytes before its write in front of its record, so it is right iff there were none |
| `RaftKv.SetExactly` | internal/infrastructure/storage/kv/wal_codec.go:33-143 | a set record decodes to its key and value iff both are shorter than 65536 bytes |
| `RaftKv.KvEntryMisses` | internal/infrastructure/storage/kv/raft_store.go:37-199 | the entry of the i-th operation after opening the file lies i checkpoint records, 54 bytes each, in front of its record |
| `RaftKv.SecondWriteReadsEmpty` | internal/infrastructure/storage/kv/raft_store.go:37-122 | whatever the first operation and the value, the second write after opening the file reads back empty |
| `RaftKv.RunningKeys` | internal/infrastructure/storage/kv/raft_store.go:37-94 | while running, the index has the keys of the plain map, and the index reported as applied is that of the last operation that found room |
| `RaftKv.TwoWrites` | internal/infrastructure/storage/kv/raft_store.go:37-122 | two writes on an empty store for which this happens |
| `RaftKv.KvRecoveryAgrees` | internal/infrastructure/storage/kv/raft_store.go:137-199 | after any operations and a cut at any byte, recovery succeeds iff every write whose record is whole had found room; GetKV then agrees with the plain map on every key, and the index recovered is that of the last whole checkpoint |
| `RaftKv.KvDamageFails` | internal/infrastructure/storage/kv/raft_store.go:137-187 | recovery fails on a record whose checksum does not fit |
| `RaftKv.KvForeignRecord` | internal/infrastructure/storage/kv/raft_store.go:137-187 | only a checkpoint under the reserved key moves the index that recovery reports; records of unknown kind are passed over |
| `RaftKv.ReservedIgnored` | internal/infrastructure/storage/kv/raft_store.go:37-77 | operations on the reserved key leave no trace |
| `RaftKv.RaftKvStore.WriteKV` | internal/infrastructure/storage/kv/raft_store.go:37-68 | tracked record, index entry unless the index is full, untracked checkpoint in either case |
| `RaftKv.RaftKvStore.DeleteKV` | internal/infrastructure/storage/kv/raft_store.go:74-94 | tracked record, index entry removed, untracked checkpoint |
| `RaftKv.RaftKvStore.GetKV` | internal/infrastructure/storage/kv/raft_store.go:103-124 | the decoded value of the record at the index entry, whatever its key and kind, or nothing without an entry, or the error |
| `RaftKv.RaftKvStore.RecoverKV` | internal/infrastructure/storage/kv/raft_store.go:137-187 | the loop with its running offset equals the replay of the file's records |
| `Bitcask.KvStore.WriteEvent` | internal/infrastructure/storage/kv/store.go:100-117 | appends the record, advances the tracker, and indexes the key unless it is new and the index full |
| `Bitcask.KvStore.Recover` | internal/infrastructure/storage/kv/store.go:205-265 | the loop with its running offset equals the replay of the file's records |
| `Bitcask.KvStore.Compact` | internal/infrastructure/storage/kv/compact.go:36-145 | rewrites the current records, or changes nothing when one cannot be read |
| `Snapshot.SnapshotRound` | internal/infrastructure/raft/snapshot_store.go:313-463 | encoding fails iff a key or value is too long for its length field; otherwise decoding gives back index, term, configuration and every pair but one under the reserved key, for every walk order |
| `Snapshot.DecodeExactly` | internal/infrastructure/raft/snapshot_store.go:380-463 | bytes decode iff the stored checksum fits, the magic is there and the body starts with as many pairs as announced |
| `Snapshot.PairsExactly` | internal/infrastructure/raft/snapshot_store.go:414-446 | the body decodes to exactly the pairs it spells |
| `Snapshot.RestoreRefuses` | internal/infrastructure/raft/node.go:760-802 | a payload with a wrong checksum, index or term leaves the follower as it is |
| `Snapshot.MapRoundExactly` | internal/infrastructure/raft/snapshot_store.go:313-463 | the map comes back iff it does not use the reserved key |
| `Snapshot.ChunksRound` | internal/infrastructure/raft/node.go:727-750 | one stream of chunks of any size, fed to the receiver, hands over the bytes exactly at its last chunk, whatever an earlier stream left in the buffer |
| `Snapshot.DoneOnlyLast` | internal/infrastructure/raft/client.go:95-118 | only the last chunk is marked done, and chunks are non-empty and within the limit |
| `Snapshot.TransferRound` | internal/infrastructure/raft/node.go:727-815 | encode, cut, receive, decode and restore give the follower the leader's map but for the reserved key, its index and term, and its configuration unless that is empty |
| `Snapshot.EncodeSnapshot` | internal/infrastructure/raft/snapshot_store.go:313-378 | the encoding loop equals the layout, and fails on a field that is too long |
| `Snapshot.DecodePairs` | internal/infrastructure/raft/snapshot_store.go:414-446 | the cursor loop equals taking pairs from the front, with every truncation reported |
| `Snapshot.SendChunks` | internal/infrastructure/raft/client.go:95-118 | the sending loop equals the cut into chunks |
| `Snapshot.Receiver.Accept` | internal/infrastructure/raft/node.go:727-750 | offset 0 restarts the buffer, the last chunk hands it over and empties it |
| `Mvcc.RunRefines` | internal/infrastructure/raft/mvcc_state_machine.go:138-214 | after n successful writes a key has exactly the last min(retention, n) versions, all when retention is 0 |
| `Mvcc.GetVersionMeans` | internal/infrastructure/raft/mvcc_state_machine.go:309-322 | GetVersion returns the v-th successful write iff it is in the window and not a deletion |
| `Mvcc.GetMeans` | internal/infrastructure/raft/mvcc_state_machine.go:286-303 | Get returns the last successful write unless it is a deletion, and the number of successful writes as its version |
| `Mvcc.ConflictExactly` | internal/infrastructure/raft/mvcc_state_machine.go:146-163 | a conditional write conflicts iff its expected version is not the number of writes so far, and then changes no key |
| `Mvcc.RunConflicts` | internal/infrastructure/raft/mvcc_state_machine.go:146-163 | after any deliveries the recorded conflicts are exactly those of the failed conditional writes, with the version the key had then |
| `Mvcc.RunApplied` | internal/infrastructure/raft/mvcc_state_machine.go:146-200 | lastApplied is the index of the last delivery that published an event |
| `Mvcc.RunLogKeeps` | internal/infrastructure/raft/change_log.go:190-232 | an open log holds the last historyLimit successful writes, and its base is the first of them |
| `Mvcc.ReplayComplete` | internal/infrastructure/raft/change_log.go:237-258 | with increasing indices, replay errs iff the offset lies before the first of the last `limit` events, and else returns every event ever published from there |
| `Mvcc.FoldRebuilds` | internal/infrastructure/raft/mvcc_state_machine.go:188-201 | folding all published events gives the map that Get shows |
| `Mvcc.CatchUp` | internal/infrastructure/raft/change_log.go:237-258 | a consumer that folded everything before an offset and replays from it ends with the current map |
| `Mvcc.StateMachine.Apply` | internal/infrastructure/raft/mvcc_state_machine.go:138-202 | one delivery: conflict record or new version, trimmed, and the event published |
| `Mvcc.ChangeLog.Record` | internal/infrastructure/raft/change_log.go:190-208 | append, evict the oldest, move the base; nothing once closed |
| `KvReplay.OverlapConverges` | internal/infrastructure/raft/kv_state_machine.go:113-164 | applying entries j, j+1, ... again to the map after k of them, j at most k, gives the map after all |
| `KvReplay.TornSnapshotConverges` | internal/infrastructure/raft/kv_state_machine.go:290-325 | a snapshot that pairs a map with the index before it converges after restore and replay |
| `KvReplay.RestartRebuilds` | internal/infrastructure/raft/kv_state_machine.go:174-232 | recovery up to any durable index, then the whole log through the startup path, rebuilds the map of the log |
| `KvReplay.FailedWritesExactly` | internal/infrastructure/raft/kv_state_machine.go:113-164 | over every sequence of entries and write outcomes, the running map is the map of the log iff every key's last write succeeded or has the same effect as its last successful one |
| `KvReplay.FailedWriteIsSkipped` | internal/infrastructure/raft/kv_state_machine.go:174-179 | while running, a failed entry counts as applied once any later one has been |
| `KvReplay.RestartBringsBack` | internal/infrastructure/raft/kv_state_machine.go:174-232 | a restart rebuilds the map of the log, failed writes included, and so changes the running map iff a key's last write had failed and differs in effect from its last successful one |
| `KvReplay.RestoreExactly` | internal/infrastructure/raft/kv_state_machine.go:313-325 | restoring the map after lo entries and going on with entry hi gives the map of all iff no key's last write lies in between and changed what the snapshot shows |
| `KvReplay.StartupCommittedExactly` | cmd/main.go:494-518 | the startup path ends with the map of the committed entries iff no key's last write is an uncommitted one that changed it |
| `KvReplay.TruncatedEntriesExactly` | cmd/main.go:494-518 | once the committed log has replaced uncommitted entries and is delivered again, the map is right iff that log writes every key the startup path left |
| `KvReplay.KvStateMachine.Run` | internal/infrastructure/raft/kv_state_machine.go:87-99 | the loop over the apply channel equals applying the entries one by one with their outcomes |
| `KvReplay.KvStateMachine.RecoverFromStore` | internal/infrastructure/raft/kv_state_machine.go:193-232 | the loop rebuilds the map from the entries up to the first above the durable index |
| `HashRing.AddOwns` | internal/infrastructure/cluster/ring.go:43-58 | an added node owns every point it hashes to, and all other points stay |
| `HashRing.RunOwns` | internal/infrastructure/cluster/ring.go:43-87 | from the operations alone: a point belongs to the node whose addition was the last operation to touch it |
| `HashRing.RunLookup` | internal/infrastructure/cluster/ring.go:92-109 | after any additions and removals, collisions or not, a lookup yields the node whose addition claims the nearest claimed point clockwise, and fails iff no point is claimed |
| `HashRing.UnsharedAnswers` | internal/infrastructure/cluster/ring.go:43-109 | without collisions a lookup fails iff no node is registered |
| `HashRing.SharedPointsLoseNode` | internal/infrastructure/cluster/ring.go:43-109 | with collisions a lookup can fail although a node is registered |
| `HashRing.RemoveSilencesExactly` | internal/infrastructure/cluster/ring.go:68-109 | a removal leaves nothing to be found iff the removed node hashes to every point there was |
| `HashRing.AddMovesToNew` | internal/infrastructure/cluster/ring.go:43-109 | adding a node under a new id moves to it exactly the keys that one of its points is nearest to, and no other key |
| `HashRing.RemoveMovesOnlyItsKeys` | internal/infrastructure/cluster/ring.go:68-87 | without collisions, removing a node moves only its keys |
| `HashRing.RemoveLookup` | internal/infrastructure/cluster/ring.go:68-109 | after a removal a lookup yields the owner of the nearest point that is not one of the node's hashes |
| `HashRing.RemoveKeepsExactly` | internal/infrastructure/cluster/ring.go:68-87 | removing a node keeps every point of every other node iff none shares one with it, or the node was not registered |
| `HashRing.AddRemoveExactly` | internal/infrastructure/cluster/ring.go:43-87 | adding a fresh node and removing it gives back the owners iff it shares no point with the ring |
| `HashRing.AddRemoveRestores` | internal/infrastructure/cluster/ring.go:43-87 | and then every lookup is restored |
| `HashRing.SortSorts` | internal/infrastructure/cluster/ring.go:57-57 | the points are sorted and permuted, none lost or added |
| `HashRing.HashRing.Find` | internal/infrastructure/cluster/ring.go:92-109 | the binary search gives the first point at or after the hash, wrapping around |
| `HashRing.HashRing.RemoveNode` | internal/infrastructure/cluster/ring.go:68-87 | releases the node's points and filters the slice |

## Left out

- Crash and restart of nodes in cluster runs: step-downs do not persist the new term; restarts are covered for the vote promise of one node only.
- Membership changes in cluster runs: truncation does not undo a configuration already applied; only quorum counting covers joint configurations.
- Installing a snapshot in cluster runs: an older snapshot is accepted and rolls state back; the transfer itself is covered by `Snapshot`.
- `RaftServer` fields for leases, timers, connections and waiters; lease reads rest on wall-clock assumptions.
- Liveness of any kind, including WaitForIndex.
- 64-bit overflow of terms, indices and versions in the node and the state machines; the byte formats do model it.
- Mvcc.RunRefines: a negative retention, on which the code panics, is not modelled.
- Mvcc snapshots, event timestamps, subscriber channels and IsCASConflict's deletion of a recorded conflict.
- FastBackup.RejectionsBounded: for uncompacted logs only, since a compacted follower reports raised conflict indices.
- RaftTheorems.ReadIndexIsCurrent: leases off; without the condition a call may still happen to be current, since a leader may know the latest commit while it holds uncommitted entries of earlier terms.
- RaftCommit.StateMachineSafety: one way; a cut that no node delivers across does no visible harm, so only the commit indices have the exact condition.
- RaftNode.RaftServer.HandleAppendEntries: configuration entries are stored like commands but do not change the configuration (node.go:439-443), since membership is fixed in cluster runs.
- RaftNode.RaftServer.MergeEntries: the same, inside the append loop.
- RaftNode.RaftServer.ProposeEntry: command entries only; configuration proposals are part of membership changes.
- Compaction.HistoryTransparent: leaves out rejections whose conflict term the snapshot hides, for which `BackUpCompacted` says what happens instead, requests anchored below the snapshot, covered by `LowRequest`, and snapshots received from a leader.
- InstallGap.InstallKeepsApplied: command entries only, one per index, and no durable write failing meanwhile; the channel sends of a round already under way count as queued.
- KvReplay.RestartBringsBack: with every entry still in the log; what a compaction dropped comes back only through a snapshot.
- HashRing.RemoveMovesOnlyItsKeys: needs the removed node to share no point; with a shared point `RemoveLookup` says where each key goes.
- LogStore.TornTailExactly: for tails of at most three bytes, as BitcaskRecovery.SecondRecovery; with four to fifteen, or once the file outgrows the record that a longer tail announces, what the reader makes of it depends on the bytes written next and on the checksum.
- LogStore.LongTailSwallows: appends and truncations; for a compaction see `LongTailCompacted`.
- RaftKv.KvRecoveryAgrees: keys and values shorter than 65536 bytes, as `SetExactly` shows to be needed, on keys other than the reserved one, which `ReservedIgnored` shows to lose nothing; writes after a torn tail of this file are not covered.
- RaftKv.KvEntryMisses: the same bound on lengths.
- The metadata file's layout, snapshot file naming and pruning, and fsync policies.
- HTTP, gRPC, metrics, worker pools, ingestion, replication streaming and the command-line tools.
