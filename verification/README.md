# Verified model of the replicated key-value store

The repository is a replicated key-value store: a Raft cluster (`internal/raft`) orders client
commands, a store on every peer (`internal/store`) applies them, and a log-structured engine
(`internal/lsm`, `internal/wal`) keeps the data. These Dafny files model all three, in the form the
Go code has (objects whose methods update fields, loops over buffers), and prove what the system is
for: the engine reads like a plain map and recovers to exactly the logged operations after a crash at
any point, as long as no compaction is harmful; peers never apply different commands at one index, as
long as every election win is tame; and under both conditions reads through the replicated log are
linearisable, down to the files. Nor is the system ever stuck: from every such state any majority of
the peers can still take and answer a request. The code as it is can break both conditions: the next two paragraphs
say when, and a failing case is given for each.

**Tame runs.** On winning an election the code reinitialises `nextIndex` but not `matchIndex`
(internal/raft/raft.go:471-479); Figure 2 of the Raft paper reinitialises both. The parameter `reset`
of the cluster model says which variant runs: `false` is the code, `true` clears `matchIndex` at a win.
A win is tame if it resets, or if every `matchIndex` entry of the winner is below the length of its
log; a run is tame if all its wins are, so every run with the reset is. `RaftSafety.StaleCount` shows
that a win is tame exactly when no peer can be counted for an entry that it was never sent, and
`StaleMatch.UnsafeAsWritten` is a run of the code, not tame, in which two peers apply different
commands.
Rows marked "code as written" hold for all runs of both variants. Rows marked "in tame runs" are proved
for tame runs of both; that they fail elsewhere is shown for State Machine Safety alone.

**Harmless compactions.** The code merges the oldest four tables and puts the result in the newest
position, where it hides what later tables said. `Compaction.LastPlacement` says exactly when a
compaction keeps all reads (it is then called harmless), `Compaction.DeletedKeyReturns` is one that
brings a deleted key back. Compaction is on by default (internal/store/store.go:39-40,
cmd/kvnode/main.go:73-76), so the theorems about whole runs assume that each compaction in them is
harmless; a run without compactions, as with compaction disabled, meets the assumption
(`Engine.NoneIsHarmless`).

`dafny verify dfyconfig.toml` checks everything.

## How the files fit together

**Raft.** `RaftNode` gives every critical section under `rf.mu` as a function on a peer's state.
`RaftServer` is the object with its fields and loops; every method is proved to compute the function.
`RaftCluster` runs any number of peers, at least two, over a network that loses, delays and reorders
messages, with restarts at any point; each RequestVote call yields at most one counted reply.
`RaftInv` states an invariant over a history that no step reads; `RaftFrame`, `RaftSteps`,
`RaftReplication` and `RaftCommit` prove that every step keeps it; `RaftSafety` draws the theorems for
whole runs. `RaftApplied` adds that applied entries stay in the log. `FastBackup` compares the code's
backup with stepping back by one. `RaftProgress` shows from any state how a majority elects a leader,
replicates, commits and applies. The paper is "In Search of an Understandable Consensus Algorithm
(Extended Version)", Figure 2 and section 5.

**Storage.** `Codec`, `Pairs` and `Tables` hold the key order, sorted pairs and lists of tables. `Wal`,
`MemTable`, `SSTable` with `SSTableIO`, `Merge`, `Compaction`, `Text` with `Manifest` are the engine's
parts, down to the bytes of log, table file and manifest. `Engine` is the engine as a state machine in
which every change of the disk is a step of its own, so that a crash between two steps is a crash
between two disk operations; a crash may also tear the record being appended. A whole compaction is
one step. `EngineDisk`, `EngineInv` and `EngineSteps` prove the invariant, `EngineSafety` the theorems.
`Database` is the `DB` object (with `Opening` and `CompactedFiles` for its proofs), whose methods are
proved to take the steps of `Engine`.

**Store.** `Store` has the apply loop and the wait channels, as a value and as an object over
`Database`. `Linear` runs the cluster and the stores of all its peers together, `EndToEnd` puts a
storage engine under every store. `Service` shows from any state how a majority answers a request.

## Where code and text disagree

The model follows the code.

- docs/PROJECT_ARCHITECTURE.md:28 and 143-146 describe a read as a local read of a random peer;
  internal/store/store.go:144-181 sends reads through the log, and that is what is proved.
- internal/lsm/compaction_merge.go:43 says the iterators come newest first; the caller passes them
  oldest first, and the later one counts as newer.
- internal/lsm/kvstore_compaction.go:525 expects tombstones to cancel out; the merge keeps them, so
  the merge of tables that hold pairs is never empty.
- internal/lsm/kvstore_compaction.go:24 speaks of waiting for the previous flush; the code returns and
  lets the memory table grow, which is the "blocked freeze" of the model.
- Compaction picks the oldest tables (internal/lsm/kvstore_compaction.go:427-439) yet installs their merge
  in the newest position (468-470); that placement and the oldest one are both modelled.

## Model

| member | source | states |
|---|---|---|
| RaftServer.Raft.constructor | internal/raft/raft.go:403-425 | a peer starts as a follower with the persisted term, vote and log, or with term 0, no vote and the sentinel alone; commit index, apply index, `nextIndex` and `matchIndex` are zero |
| RaftServer.Raft.Persist | internal/raft/raft.go:117-134 | the file then holds the term, vote and log in memory, and nothing else changes |
| RaftServer.Raft.StartElection | internal/raft/raft.go:434-447 | the next state and the ballot are those of the value model's election step, already on disk |
| RaftServer.Raft.RequestVote | internal/raft/raft.go:241-285 | field by field: a vote if and only if the term is not old, no other candidate has it, and the candidate's last term and index are no older; the reply carries the voter's term, also to a stale candidate; newer terms are adopted, and every change is on disk |
| RaftServer.Raft.ReceiveVote | internal/raft/raft.go:457-481 | field by field, as written: stale replies ignored, a later term steps down, more than half of the votes make a leader with `nextIndex` past its log and `matchIndex` untouched |
| RaftServer.Raft.Start | internal/raft/raft.go:343-356 | a leader appends exactly one entry of its term, persists it and returns its index and term; any other peer returns -1, -1, false and changes nothing |
| RaftServer.Raft.BuildAppend | internal/raft/raft.go:574-588 | the heartbeat carries the leader's term, its commit index, the entry before `nextIndex` by index and term, and the whole tail from `nextIndex` |
| RaftServer.Raft.AppendEntries | internal/raft/raft.go:487-553 | field by field in all cases: stale term (answered with the follower's own term), short log, conflicting term with the first index of its run, acceptance with the commit index raised to what the leader committed of what was sent, and what is persisted when |
| RaftServer.Raft.RunStartOf | internal/raft/raft.go:527-533 | the backward loop finds the first index of the run of equal terms |
| RaftServer.Raft.MergeEntries | internal/raft/raft.go:538-548 | every entry that agrees stays; from the first conflict on the log is the entries sent; the flag says whether the log changed |
| RaftServer.Raft.ReceiveAppend | internal/raft/raft.go:595-665 | field by field: step down on a later term; raise this peer's `nextIndex` and `matchIndex` and scan for a commit; or back this peer's `nextIndex` up as the rejection says, nothing else moving |
| RaftServer.Raft.AdvanceCommit | internal/raft/raft.go:623-635 | the downward scan stops at the greatest index of the current term that a majority holds, and leaves the commit index alone if there is none |
| RaftServer.Raft.CountMatches | internal/raft/raft.go:625-630 | the counter is one plus the number of other peers whose `matchIndex` reaches the index |
| RaftServer.Raft.FindLast | internal/raft/raft.go:642-648 | the backward search finds the greatest index with the term, or -1 |
| RaftServer.Raft.TakeCommitted | internal/raft/raft.go:693-706 | the messages are the entries after `lastApplied` up to `commitIndex`, each with its own index, in order |
| RaftSafety.ElectionSafety | internal/raft/raft.go:241-285 | code as written: in every run with lost, delayed and reordered messages and restarts, two leaders of one term, at any two moments, are the same peer |
| RaftSafety.VotesAreDistinctPeers | internal/raft/raft.go:448-481 | code as written: `votecount` is the size of a set of peers each of which has durably voted for the candidate in that term or moved on |
| RaftSafety.AlwaysDurable | internal/raft/raft.go:117-175 | code as written: whenever the lock is free, the file holds the term, vote and log in memory |
| RaftSafety.LogMatching | internal/raft/raft.go:516-548 | code as written: two logs, at any two moments, with the same term at an index are equal up to it |
| RaftSafety.TermsNeverDecrease | internal/raft/raft.go:343-356 | code as written: terms rise along a log and never exceed the peer's own |
| RaftSafety.NextIndexInRange | internal/raft/raft.go:574-588 | code as written: a leader's `nextIndex` is always between 1 and its log length, so building a heartbeat never slices out of range |
| RaftSafety.LeaderCompleteness | internal/raft/raft.go:257-283 | in tame runs: everything a peer has committed at any moment is a prefix of the log of every leader of every later term, at every moment, before or after the commit |
| RaftSafety.StateMachineSafety | internal/raft/raft.go:693-713 | in tame runs: no two peers, in any of their lives, apply different commands at one index |
| RaftSafety.CommitAndApplyOrder | internal/raft/raft.go:549-552 | in tame runs: between restarts `lastApplied <= commitIndex < len(log)`, `commitIndex` never falls, `lastApplied` moves by exactly one per applied entry |
| RaftSafety.ApplyNeverPanics | internal/raft/raft.go:698-705 | in tame runs: a committed entry is always in the log that the apply loop indexes |
| RaftSafety.CommitSpreads | internal/raft/raft.go:549-588 | in tame runs: a follower that accepts a heartbeat knows at least what its leader had committed when it was sent |
| RaftSafety.VoterTeaches | internal/raft/raft.go:246-249 | a candidate of an old term learns the voter's term from the refusal, steps down and persists that |
| RaftSafety.FollowerTeaches | internal/raft/raft.go:490-494 | a leader of an old term learns the follower's term from the rejection, steps down and persists that |
| RaftSafety.ResetMatters | internal/raft/raft.go:471-479 | one step of the code differs from the same step with the reset if and only if a peer wins while some `matchIndex` entry is non-zero |
| RaftSafety.StaleCount | internal/raft/raft.go:471-479 | right after a win of the code as written, the commit rule can count a peer for an entry of the new term that nobody was sent if and only if the peer's `matchIndex` entry is at least the length of the winner's log |
| RaftSafety.IntendedRun | internal/raft/raft.go:471-479 | a run of the code is a run with the reset if and only if `matchIndex` is zero at every win |
| RaftSafety.SafeWithoutStaleWins | internal/raft/raft.go:471-479 | the code as written: State Machine Safety on every run in which every `matchIndex` entry of every winner is below the length of its log |
| StaleMatch.UnsafeAsWritten | internal/raft/raft.go:471-479 | a concrete run of the code as written, of three peers, in which two peers apply different commands at index 2 |
| RaftApplied.AppliedStaysInLog | internal/raft/raft.go:538-548 | in tame runs: what a peer ever applied is in its log at that index from then on, across restarts |
| RaftApplied.StartIndexIsNew | internal/raft/raft.go:351-356 | in tame runs: a leader gives a new command an index beyond everything it ever applied |
| RaftApplied.OneLog | internal/raft/raft.go:693-713 | in tame runs: at every moment one sequence of commands explains all outputs of all peers in all their lives |
| RaftProgress.MajorityProgress | internal/raft/raft.go:434-713 | from the last state of any tame run any majority, no other peer taking a step, can go on so that all its members apply a given command at an index none of them had reached: the code is never stuck and never needs more than a majority |
| FastBackup.ProbeIsAppendEntries | internal/raft/raft.go:516-537 | the heartbeat built from `nextIndex` is accepted exactly when the logs agree on the term before it; otherwise the answer is the rejection the backup reads, and the follower keeps its log |
| FastBackup.ProbeLowersExactly | internal/raft/raft.go:638-663 | for any two ordered logs a rejected heartbeat leaves the leader with a lower `nextIndex` if and only if it has no entry of the rejecting term beyond the probe |
| FastBackup.ProbeLowers | internal/raft/raft.go:638-663 | between logs of a run the leader's state after a rejected heartbeat differs in this peer's `nextIndex` only, which is lower, not below 1, and has skipped no index at which the logs agree |
| FastBackup.ProbeSkipsTerm | internal/raft/raft.go:638-663 | a rejection skips a whole term: a probe past the follower's log is followed by one at its last entry, a conflict by one that agrees or meets an earlier term |
| FastBackup.FastRefinesSlow | internal/raft/raft.go:638-663 | heartbeats and their answers stop at the same index as stepping back by one, and there the logs are equal all the way down |
| FastBackup.Probe | internal/raft/raft.go:568-665 | the rounds of heartbeat, answer and backup end at the greatest agreeing index below their start, and there are at most two more than the follower's log has terms |
| FastBackup.RunLogsAreKin | internal/raft/raft.go:538-548 | any two logs of a run, at any two moments, satisfy what fast backup needs |
| FastBackup.MatchingAloneCanJumpForward | internal/raft/raft.go:643-652 | two logs that satisfy Log Matching, but cannot arise in a run, on which a rejected heartbeat raises `nextIndex` from 3 to 5 |
| Wal.WAL.AppendPut | internal/wal/wal.go:42-66 | the file grows by the byte 0, the key's length in four bytes, most significant first, the key, and the value in the same way |
| Wal.WAL.AppendDelete | internal/wal/wal.go:83-97 | the file grows by the byte 1, the key's length in four bytes, and the key |
| Wal.WAL.ReadOne | internal/wal/wal.go:144-183 | one turn of the loop finds a record exactly where those bytes stand, the end exactly when no byte is left, after a lone operation byte or after a put's key, and an error otherwise |
| Wal.WAL.ReplayFile | internal/wal/wal.go:135-189 | the callbacks fire for exactly the records that decoding yields, and an error is reported exactly when decoding fails |
| Wal.TornTail | internal/wal/wal.go:135-189 | for every list of records and every byte prefix of its encoding, replay emits exactly the records that are whole in it, in order; the full encoding replays without an error |
| Wal.CompleteIsGreatest | internal/wal/wal.go:42-66 | the number of whole records is the greatest whose encoding fits the prefix |
| Wal.TornAppend | internal/wal/wal.go:42-66 | a log cut anywhere in its last append replays to what was there before |
| Codec.FromToBE | internal/wal/wal.go:56-60 | a big-endian field of any width reads back the number written |
| Codec.FromToLE | internal/lsm/sstable_writer.go:44-58 | a little-endian field of any width reads back the number written |
| Codec.LessIs | internal/lsm/compaction_merge.go:17-21 | the byte order of keys: the smaller byte at the first difference, or a proper prefix |
| Codec.Trichotomy | internal/lsm/compaction_merge.go:17-21 | the byte order of keys is total and strict |
| MemTable.MemTable.Put | internal/lsm/memtable.go:36-54 | the table stays sorted, its size field stays the sum of all lengths, and it says of the key what was put |
| MemTable.MemTable.Get | internal/lsm/memtable.go:57-66 | found exactly when the table mentions the key, with its value or tombstone |
| MemTable.PutSize | internal/lsm/memtable.go:41-53 | how much a put changes the size: the difference of the lengths of the values, or the length of the whole new pair |
| MemTable.SortedUnique | internal/lsm/memtable.go:36-54 | a sorted table is determined by what it says of its keys |
| Pairs.LowerBound | internal/lsm/memtable.go:37-39 | the binary search returns the first index whose key is not below the key |
| SSTableIO.WriteSSTable | internal/lsm/sstable_writer.go:22-131 | the loop writes the file of the format: blocks cut at 4096 bytes, index, footer; it returns the size and the index |
| SSTable.PairLayout | internal/lsm/sstable_writer.go:44-63 | the bytes of a pair: four bytes of key length, least significant first, the key, four bytes of value length and the value, or four bytes 255 for a tombstone |
| SSTable.EntryLayout | internal/lsm/sstable_writer.go:87-101 | the bytes of an index entry: key length, key, and eight bytes each of offset and size |
| SSTable.FileLayout | internal/lsm/sstable_writer.go:103-118 | a file is its data region, its index and 24 bytes: where the index starts, how long it is, and the magic number |
| SSTable.BlocksAreCut | internal/lsm/sstable_writer.go:64-83 | a block closes with the first pair that brings it to 4096 bytes, or with the last pair |
| SSTableIO.SearchIndex | internal/lsm/sstable_reader.go:16-23 | the binary search of the library, on any index; where the greatest keys rise it is the first block whose greatest key is not below the key (`SSTable.SearchFinds`) |
| SSTable.SearchFinds | internal/lsm/sstable_reader.go:16-23 | on rising block keys the binary search ends at the first block whose greatest key is not below the key |
| SSTableIO.ScanBlock | internal/lsm/sstable_reader.go:54-89 | the scan finds the first pair of the block with the key, or nothing |
| SSTableIO.ReadValFromSSTable | internal/lsm/sstable_reader.go:14-90 | the lookup reads one block and finds what decoding it finds |
| SSTableIO.LoadTable | internal/lsm/kvstore_compaction.go:199-283 | parses one file: skipped (too short, foreign magic number, no index, no pair), corrupt, or its description |
| SSTable.LoadCases | internal/lsm/kvstore_compaction.go:199-283 | what loading makes of any file, by its last 24 bytes: skipped if too short or without index entries, corrupt with a foreign magic number or an index or first key beyond the end, else its description |
| SSTableIO.ParseIndex | internal/lsm/kvstore_compaction.go:230-255 | the loop decodes index entries until the first that is cut short |
| SSTableIO.SSTableIterator.constructor | internal/lsm/compaction_iterator.go:35-70 | the iterator stands on the first pair of the data region, which ends with the last block |
| SSTableIO.SSTableIterator.Next | internal/lsm/compaction_iterator.go:72-109 | moves to the next pair that decodes, or becomes invalid |
| SSTable.LookupIsExact | internal/lsm/sstable_reader.go:14-90 | indexed lookup in a written file equals linear search: value or tombstone of exactly the keys written |
| SSTable.HandlesTile | internal/lsm/sstable_writer.go:64-83 | the block handles tile the data region without gap or overlap |
| SSTable.LastEnds | internal/lsm/compaction_iterator.go:48-52 | the last handle ends where the data region ends |
| SSTable.LoadBack | internal/lsm/kvstore_compaction.go:199-283 | loading a written file recovers its index, size, least and greatest key; a file without pairs is skipped |
| SSTable.ReadAllBack | internal/lsm/compaction_iterator.go:72-109 | the data region decodes to exactly the pairs written |
| SSTable.ReadIndexBack | internal/lsm/sstable_writer.go:87-101 | the index block decodes to exactly the index written |
| SSTable.RangeIsSound | internal/lsm/kvstore.go:194-198 | a key outside the range of a table is not in it, so skipping the table is sound |
| SSTableIO.IteratorSeesAll | internal/lsm/compaction_iterator.go:47-109 | iterating over a written file yields exactly the pairs written, in order |
| SSTable.SortedRises | internal/lsm/sstable_writer.go:76-79 | the greatest keys of the blocks of a sorted table rise, as the binary search needs |
| Merge.SSTableBuilder.Append | internal/lsm/compaction_builder.go:19-30 | the pairs after the call: the last one overwritten if the key repeats, otherwise one more; an empty value becomes a tombstone |
| Merge.AppendedSays | internal/lsm/compaction_builder.go:19-30 | appending keys that do not fall keeps the output sorted and says of the key what came last, an empty value as a tombstone |
| Merge.PopLeast | internal/lsm/compaction_merge.go:17-40 | the popped item precedes every other: smaller key, or same key and newer table |
| Merge.BeforeTotal | internal/lsm/compaction_merge.go:17-24 | the heap order is total on items of different keys or tables |
| Merge.WrittenIsOK | internal/lsm/compaction_merge.go:58-67 | from items popped in heap order the loop writes a strictly sorted list with exactly their keys; the newest item of a non-empty key wins, the oldest of the empty key |
| Merge.DoMerge | internal/lsm/compaction_merge.go:45-82 | for sorted inputs, oldest first: a strictly sorted union of the keys, each with the value or tombstone of the newest input that holds it (of the oldest for the empty key), empty values turned into tombstones; terminates; all iterators closed |
| Compaction.MergeMap | internal/lsm/compaction_merge.go:45-82 | the merged table mentions exactly the keys of its inputs and says of each what the newest input says (of the empty key, the oldest), an empty value turned into a tombstone |
| Compaction.MergeKeeps | internal/lsm/compaction_builder.go:19-30 | spelt out: a key that is not empty keeps what the newest input says, an empty value excepted, which becomes a tombstone; the empty key what the oldest says |
| Compaction.PicksOldestFour | internal/lsm/kvstore_compaction.go:428-441 | a compaction takes the first four tables of the list once there are four |
| Compaction.InstallCompacted | internal/lsm/kvstore_compaction.go:445-471 | the list afterwards: tables whose id is not obsolete, in order, then the new one last |
| Compaction.KeptIsRest | internal/lsm/kvstore_compaction.go:461-467 | with distinct ids, removing a prefix by id leaves exactly the rest, tables flushed meanwhile included |
| Compaction.MergeIsOverlay | internal/lsm/compaction_merge.go:45-82 | without empty keys and empty values the merged table says of every key what its inputs together said |
| Compaction.FrontPlacement | internal/lsm/kvstore_compaction.go:428-441 | merged table at the oldest position, any tables: all lookups survive if and only if the merge keeps what its inputs said of every key that only they mention |
| Compaction.FrontPreserves | internal/lsm/kvstore_compaction.go:428-441 | merged table at the oldest position, inputs without empty keys and values: the list of tables says the same as before |
| Compaction.LastPlacement | internal/lsm/kvstore_compaction.go:468-471 | merged table at the newest position, as the code puts it, any tables: all lookups survive if and only if the compaction is harmless, that is, the merge says of each of its keys what the whole list says; then the list says the same as before |
| Compaction.HarmlessForClients | internal/lsm/kvstore_compaction.go:468-471 | inputs without empty keys and values: a compaction is harmless if and only if every key in both a merged and a kept table is said to be the same by both |
| Compaction.DisjointIsSafe | internal/lsm/kvstore_compaction.go:468-471 | where merged and kept tables share no key, lookups survive if and only if the merge itself loses nothing, and without empty keys and values it loses nothing |
| Compaction.DeletedKeyReturns | internal/lsm/kvstore_compaction.go:436-471 | five tables on which the compaction of the code makes a deleted key readable again |
| Compaction.MergeFits | internal/lsm/kvstore_compaction.go:522-550 | the merge of tables that fit the file format fits it, and is empty only if they all are |
| CompactedFiles.CompactionKeepsReads | internal/lsm/kvstore_compaction.go:491-562 | reads of the files before and after a compaction agree on all keys if and only if the compaction is harmless |
| CompactedFiles.CompactionOpens | internal/lsm/kvstore_compaction.go:507-530 | in every run, what a compaction picks exists and decodes to sorted pairs, and its merge is not empty: the branches for a missing file and for an empty merge are not taken |
| Database.DB.DoCompaction | internal/lsm/kvstore_compaction.go:491-562 | merges the oldest four tables into a new file, installs it last, appends the manifest and removes the four files; with fewer than four, or a file missing, nothing changes; an empty merge is not written |
| Manifest.PersistManifest | internal/lsm/kvstore_compaction.go:309-331 | appends the ids of the snapshot in decimal, joined by commas, as one line |
| Manifest.ApplyManifestOrder | internal/lsm/kvstore_compaction.go:334-388 | the loops compute the order that the value model defines: last non-blank line, ids that parse, tables that exist, then the unlisted ones |
| Manifest.RoundTrip | internal/lsm/kvstore_compaction.go:309-388 | reopening restores exactly the order of the snapshot written last, however the directory lists the tables |
| Manifest.AppendedOrder | internal/lsm/kvstore_compaction.go:343-385 | after an append: the snapshot's tables that were loaded, in its order, then the other loaded tables in theirs |
| Manifest.AppendedLine | internal/lsm/kvstore_compaction.go:343-354 | the appended line is the one in force, unless the snapshot is empty: then its line is blank and the one before stays in force |
| Manifest.ParsedSplit | internal/lsm/kvstore_compaction.go:356-368 | every entry of a manifest line counts by itself: one that parses names its table, any other is passed over |
| Manifest.OrderIsPermutation | internal/lsm/kvstore_compaction.go:356-385 | whatever ids a line holds, the order is a permutation of the loaded tables if and only if no id of a loaded table is repeated |
| Manifest.NextIsFresh | internal/lsm/kvstore_compaction.go:302-306 | the next file id exceeds every loaded id and is no greater than it must be |
| Text.ParseBack | internal/lsm/kvstore_compaction.go:309-313 | a decimal id below 2^64 parses back |
| Text.DecimalDigits | internal/lsm/kvstore_compaction.go:309-313 | the digits of an id, from the right, and no zero in front |
| Text.SplitJoin | internal/lsm/kvstore_compaction.go:315-363 | splitting a joined line gives its parts back |
| EngineInv.OpenKeeps | internal/lsm/kvstore.go:72-78 | opening any disk of a run restores tables, next ids and the replayed memory table that together hold exactly the logged operations |
| EngineInv.WriteRecoveredKeeps | internal/lsm/kvstore.go:80-90 | after the recovered table is written, tables alone hold all logged operations, logs still there or not |
| EngineInv.RemoveWalKeeps | internal/lsm/kvstore.go:112-129 | removing logs one by one, oldest first, never loses an operation |
| EngineSteps.LogKeeps | internal/lsm/kvstore.go:131-144 | a logged operation, with or without the memory table freezing, extends exactly what disk and memory hold |
| EngineSteps.InstallKeeps | internal/lsm/kvstore_compaction.go:92-98 | installing a flushed table moves its operations from the immutable table to the list |
| EngineSteps.RemoveOldWalKeeps | internal/lsm/kvstore_compaction.go:107-111 | the log deleted after a flush holds only operations that the tables hold |
| EngineSteps.CompactKeeps | internal/lsm/kvstore_compaction.go:491-562 | a harmless compaction, also while a flush is writing its table, leaves disk and memory holding exactly the logged operations |
| EngineSteps.TornKeeps | internal/wal/wal.go:63-66 | a crash inside an append leaves exactly the operations logged before |
| EngineSafety.StepKeeps | internal/lsm/kvstore.go:17-110 | every step of the engine (opening, logging, rotation, each stage of a flush, harmless compaction, crash) keeps the invariant |
| EngineSafety.GetRefinesPlainMap | internal/lsm/kvstore.go:146-228 | over every run of puts, deletes, freezes, blocked freezes, flush stages, harmless compactions, crashes and reopenings, `Get` returns exactly what a plain map of the logged operations holds |
| EngineSafety.CrashRecovery | internal/lsm/kvstore.go:72-110 | after any step of any such run, including every stage of a flush and of an earlier opening, reopening the disk ends running and shows exactly the operations logged in full |
| EngineSafety.TornRecovery | internal/wal/wal.go:135-189 | a crash can cut the append of any operation at any byte, and then everything before it is there and it is not |
| EngineSafety.FirstLives | internal/lsm/kvstore.go:52-110 | such runs exist: a new disk opens, logs any operation that fits, crashes, and its log holds that operation |
| EngineSafety.FromTablesIs | internal/lsm/kvstore.go:194-208 | the newest-first loop with range skipping finds what the newest table that mentions the key says |
| EngineSafety.SizeCounts | internal/lsm/kvstore.go:80-80 | the size test of opening sees a replayed table if and only if some key or value in it is not empty |
| Opening.UnwrittenIsLost | internal/lsm/kvstore.go:80-94 | what the size test of opening does not see, and nothing else, is lost: only empty keys with no value bytes; the logs go, memory alone keeps them, and the next opening shows the tables as they were |
| Opening.OpensFully | internal/lsm/kvstore.go:72-110 | the opening steps of the step model, one after the other, end in the state that the code computes in one go |
| Opening.ScanFinds | internal/lsm/kvstore_compaction.go:177-300 | the scan of the table files succeeds if and only if none is corrupt, and then finds exactly the files that load |
| Opening.WritesWhatHasBytes | internal/lsm/kvstore.go:80-80 | opening writes what it replayed if and only if some key or value in it has a byte |
| Opening.NextWalIsFresh | internal/lsm/kvstore_compaction.go:118-173 | the next log number is the least beyond all logs, or 1 |
| Opening.FlushRuns | internal/lsm/kvstore_compaction.go:51-113 | a whole flush is its five stages in order, and logs nothing |
| History.ReplayIsIdempotent | internal/lsm/kvstore_compaction.go:140-162 | replaying logged operations again, from any point up to where the tables already are, ends in the state of applying all of them once |
| History.LayerIsPlain | internal/lsm/kvstore.go:155-161 | reading tombstones as absence turns the layered view into the plain map |
| Database.DB.constructor | internal/lsm/kvstore.go:42-99 | loading, replaying, flushing, clearing and starting a log, on any disk; while file numbers are left this is where the step model's opening ends |
| Database.DB.LoadSSTables | internal/lsm/kvstore_compaction.go:177-300 | the list and the next id are those of the step model; a corrupt file leaves the list empty |
| Database.DB.RecoverFromWAL | internal/lsm/kvstore_compaction.go:118-173 | the memory table is that of replaying all logs, oldest first; the next log number follows the last |
| Database.DB.RemoveAllOldWalFiles | internal/lsm/kvstore.go:112-129 | afterwards there are no logs, and nothing else changed |
| Database.DB.Flush | internal/lsm/kvstore_compaction.go:51-113 | writes the table, appends it to the list, appends the manifest line of the new list, deletes the log if one is given |
| Database.DB.FlushImmutable | internal/lsm/kvstore_compaction.go:46-113 | the background flush from beginning to end: the state after the five flush stages of the step model |
| Database.DB.CheckAndFlush | internal/lsm/kvstore_compaction.go:20-48 | freezes the table and rotates the logs exactly when it holds 4096 bytes, no flush is pending and a spare log is ready; otherwise nothing moves |
| Database.DB.PreAllocateWal | internal/lsm/kvstore.go:249-265 | one turn of the allocator creates the spare log under the next number |
| Database.DB.Put | internal/lsm/kvstore.go:131-144 | log, memory table and threshold in that order: the step model's logging step; no full table is left that could be frozen |
| Database.DB.Delete | internal/lsm/kvstore.go:230-241 | the same with a tombstone |
| Database.DB.Get | internal/lsm/kvstore.go:146-228 | the answer is the step model's read of the same disk and memory |
| Store.KVStore.constructor | internal/store/store.go:39-52 | the store of a new life: the recovered database, nothing applied, nobody waiting |
| Store.KVStore.ApplyMsg | internal/store/store.go:54-82 | one turn of the apply loop: a PUT sets, a DELETE removes, a GET leaves what clients see in the database; the channel waiting at the index, if any, gets the operation with the value read, and no other channel anything |
| Store.KVStore.PreAllocate | internal/lsm/kvstore.go:249-265 | the log allocator's turn is a step of the database's run and changes nothing in the store's value |
| Store.KVStore.FlushBackground | internal/lsm/kvstore_compaction.go:51-113 | so is the flush of the immutable table |
| Store.KVStore.Compact | internal/lsm/kvstore_compaction.go:491-562 | so is a harmless compaction, and it never fails for want of a file |
| Store.KVStore.Await | internal/store/store.go:84-94 | registers a fresh channel for the index that `Start` returned |
| Store.KVStore.Finish | internal/store/store.go:96-112 | deregisters and tells the client: time out without a result, leadership change on a foreign OpId, else the result |
| Store.ReplyMeans | internal/store/store.go:96-112 | a client is told a time-out exactly when no result came, a leadership change exactly when one came with another OpId, and else the value that came |
| Store.EffectsMean | internal/store/store.go:57-69 | what the database logs for a log of commands amounts to the map that the commands mean to clients: a PUT sets, a DELETE removes, a GET changes nothing |
| Store.ReplayIsHarmless | internal/store/store.go:54-69 | applying entries 1..n over the effect of 1..m, for m <= n, gives the map that the commands 1..n mean |
| Store.ReplayedRead | internal/store/store.go:66-68 | a read replayed at an index that an earlier life had passed is right if and only if an earlier entry writes the key or the key is absent in the end |
| Store.CaughtUp | internal/store/store.go:54-69 | after any number of lives cut short anywhere, once the current one has passed them all, every read is what the commands of the log mean |
| Store.TurnAnswers | internal/store/store.go:70-79 | a request that waits at the next index, where the log holds its own operation, is answered by that turn: a write as done, a read with what the log before it means |
| Store.NeverBlocks | internal/store/store.go:70-79 | the apply loop never sends into a channel that already holds a result |
| Linear.SystemRuns | internal/store/store.go:54-82 | in tame runs: in every run of cluster and stores together, every store is where one common log says |
| Linear.LinearisedReads | internal/store/store.go:145-181 | in tame runs, with distinct OpIds, where databases read as plain maps: every request answered without an error has its own operation at the index `Start` returned, a write is told no value, and a read is told what the commands before that index mean; one log serves all peers and lives |
| Linear.RealTimeOrder | internal/store/store.go:84-112 | in tame runs: a request whose OpId is new after another was answered gets a greater index if it is answered, on whatever peers the two ran |
| Service.RequestIsLogged | internal/raft/raft.go:343-356 | a leader's `Start` begins a request at the index where its log now holds the operation; any other peer's begins none |
| Service.MajorityServes | internal/store/store.go:54-181 | from every state that a tame run of the system reaches, any majority, no other peer moving, can go on so that a new request is answered, and rightly |
| EndToEnd.WholeRefines | internal/store/store.go:54-82 | with a storage engine under every store, whose flushes, harmless compactions, crashes, torn appends and reopenings come between the moves, every run of the whole is a run of the system, and every engine has logged what its store's value says |
| EndToEnd.WholeIsLinearised | internal/store/store.go:145-181 | in tame runs with harmless compactions and distinct OpIds: the reads that the engines answer from their files are linearised, as above |
| EndToEnd.WholeRecovers | internal/store/store.go:39-52 | whatever a peer was doing, reopening its disk shows exactly the effect of the commands its store took |

## Left out

- HTTP gateway, metrics, benchmark and diagnostic tools: input, output and reporting only.
- labrpc and labgob: the network is a set of messages that may be delivered late, out of order or
  never; what `persist` encodes is kept as a value.
- Timers, sleeps, random timeouts and leader stability: time is a step that may happen whenever it
  likes. That progress is always possible is proved, not that it happens.
- `Snapshot` and the snapshot fields: empty in the code.
- Disk failures, and torn writes other than of the log's tail: a table file, the manifest line and the
  Raft state are written whole or not at all. A half-written table file makes loading fail outright.
- Crashes inside `doCompaction`, and a compaction that overlaps the end of a flush: in the step model a
  compaction is one step, taken while no flush owes its manifest line or log deletion. Obsolete files
  that a crash leaves behind would be loaded again in the newest position
  (internal/lsm/kvstore_compaction.go:380-385).
- Interleavings of two flushes' ends: the model lets a second flush begin, reserve and write its file
  while the first still owes its manifest line and log deletion, but not install its table before.
- Reads that race with the removal of obsolete files, and `GetLocalIfLeader`, which makes no promise.
- File numbers of 1,000,000 and more, whose names no longer sort or parse by six digits, and
  wrap-around of terms, indices and sizes in 64 bits: the integers are unbounded.
- White space outside ASCII in the manifest: `TrimSpace` knows the ASCII spaces.
- `container/heap` and the sort and search routines of the Go library: the heap is represented by what
  popping guarantees; the searches are written out as loops.
- RaftSafety.SafeWithoutStaleWins: one way only. A win with `matchIndex` beyond the log need not do harm:
  the leader may lose its office before it commits on the stale entry. Per win the condition is exact
  (`RaftSafety.StaleCount`), and so is that of `RaftSafety.IntendedRun` for a run.
- EngineSafety.GetRefinesPlainMap: operations have non-empty keys, as internal/api/server.go:133-136
  demands, keys below 2^32 bytes and values below 2^32 - 1 bytes, since the formats hold no more.
- Database.DB.FlushImmutable: a flush runs to its end in one call; its stages interleave with other
  operations in `Engine` only.
- Database.DB.constructor: the equality with the step model's opening needs file numbers below 1,000,000
  and a recovered table that is a possible file; the state it ends in is stated without that.
- Database.DB.DoCompaction: the picked files decode to sorted pairs, as those of a run do
  (`CompactedFiles.CompactionOpens`); runs without a flush in between; `Compaction.KeptIsRest` covers the
  list that a flush has extended meanwhile.
- Store.KVStore.ApplyMsg: writes have a key that is not empty, as internal/api/server.go:133-136 demands,
  and fit the formats; the stores of `EndToEnd` take no others.
- Store.KVStore.constructor: opens disks of runs whose compactions were harmless, and while file numbers
  are left.
- Store.KVStore.Await: `Start` and the registration are one call here; `Linear` lets any number of moves,
  the entry's application included, come between them.
