# mini-lsm, verified

A Dafny model of the parts of mini-lsm that carry its promises: the Raft core and
the clusters it forms, the storage that makes a Raft node durable, the
block-structured write-ahead log with its CRC32C checksums, and the two key-value
stores built on top.

To check it: `dafny verify dfyconfig.toml`.

## How it is organised

**Raft.** `RaftSpec` says what each entry point of the core computes, as functions
on the whole node state (`RaftTypes.Node`); `RaftCore.Raft` is the class, with the
source's fields and loops, proved to compute exactly that. `RaftProtocol` defines
the abstract state of a cluster - nodes, every message ever sent, and a history of
ballots, elections, leader logs and commits - and its invariant `Inv`. `RaftMoves`,
`RaftGrowth` and `RaftLeading` prove that each protocol move keeps it; `RaftRefine`,
`RaftAppend` and `RaftCalls` prove that every call of the core is such moves.
`RaftCluster` adds disks: one event is a core call, then `Save`, then the messages
become visible; a restart replays the disk; a crash may leave any proper record
prefix of a `Save` behind. Messages are never removed from the set of sent
messages, so loss, duplication and reordering are all covered. `RaftTheorems` holds
the safety results over every run. The other side - what must happen, not only what
must not - is in `RaftElection` (when votes are given and elections won),
`RaftReplication` (what an AppendEntries does, when a leader commits and a follower
learns of it), `RaftCatchUp` (catch-up terminates, and a majority commits the
leader's log), `RaftDelivery` (every committed entry is handed over once, in order)
and `RaftTiming` (elections and heartbeats come exactly when their ticks have passed).

**Durability.** `Durability` is the record stream (hard state, entry, truncation)
against the node state; `DurableRuns` holds its results over any run of core calls,
saves, reopens and crashes, with any number of calls and truncations between two
saves. `RaftRecords` is the byte encoding, `RaftStorage` the class that writes and
replays it, and `RaftFiles` carries the runs down to the bytes of the file.

**Write-ahead log.** `WalFormat` defines the layout of fragments in blocks, its
parser and the reassembly of records; `WalRecords` the fragmentation of records,
the round trip and torn tails; `WalRecovery` resumed and damaged logs; `WalDirtyCut`
exactly what is lost when a log cut inside a physical record is resumed;
`WalWriter` and `WalReader` are the two classes, proved against those functions.
`Crc32c` relates the table-driven checksum to a bit-serial register, and `Castagnoli`
shows that this register is the remainder of the message by the generator polynomial
of section 12.1 of RFC 3720. `Coding` is the fixed-width encoding, and `StoredBytes`
states every stored format byte by byte.

**Stores.** `Commands` is the command encoding and what commands do to a table;
`Db` the single-node store; `ReplicatedDb` and `ReplicatedDbRuns` the store on Raft;
`ReplicatedTables` the agreement of the tables of a cluster.

## Assumptions

- The members of a cluster are distinct and non-zero, every node is configured with
  all of them and itself, and a message is delivered only to the node it names.
- The entries of an AppendEntries are numbered on from its previous index. This is
  proved of every message in a cluster, and assumed of the messages fed to a single
  node in `DurableRuns` and `RaftFiles`.
- Terms and log indices do not overflow 64 bits. Where numbers meet the disk their
  width is explicit: the round trips state exactly which values survive.
- A file is a byte sequence that is appended to. An I/O error ends the run.
- A map read of an absent key yields 0 without inserting it; the insertion the
  source makes is not observable through any reader of that map.

The header comment at include/mlsm/raft/raft.h:27-35 still says that log replication
and persistence are to come; the code does both, and the model follows the code.

## Model

| member | source | states |
|---|---|---|
| RaftTheorems.ElectionSafety | src/raft/raft.cc:79-145 | In every run, two nodes that are leader of the same term, at any two moments and across restarts, are the same node |
| RaftTheorems.LogMatching | src/raft/raft.cc:159-181 | Any two logs of any nodes at any moments with the same term at an index are identical up to it, although matching entries are skipped on term alone |
| RaftTheorems.LogMatchingInFlight | src/raft/raft.cc:272-288 | The same between a log and an AppendEntries in flight |
| RaftTheorems.LeaderCompleteness | src/raft/raft.cc:290-307 | What any node ever knew to be committed in an earlier term is in the log of every later leader |
| RaftTheorems.StateMachineSafety | src/raft/raft.cc:147-192 | Any two nodes, at any two moments, hold the same entries up to an index both had committed |
| RaftTheorems.AppliedAgree | src/raft/raft.cc:321-328 | Entries handed to two state machines for the same index are equal and carry that index |
| RaftTheorems.CommittedForever | src/raft/raft.cc:172-181 | A node never loses or changes an entry it once knew to be committed, through truncations, restarts and crashes inside a Save |
| RaftTheorems.BookkeepingSound | src/raft/raft.cc:194-206 | A leader has 1 <= next <= last + 1 for every peer, and a match index is true of the peer for as long as that peer stays in the term |
| RaftTheorems.LeaderCommitBound | src/raft/raft.cc:272-288 | Every AppendEntries ever sent has leader_commit <= prev_log_index + number of entries |
| RaftTheorems.CommitWithinVerified | src/raft/raft.cc:183-187 | When an AppendEntries raises a commit index, the new index lies within the previous entry and entries of that message, all of which the log then holds |
| RaftTheorems.CommitNeverFalls | src/raft/raft.cc:183-187 | No node's commit index falls except by a restart |
| RaftTheorems.DiskIsTruth | include/mlsm/raft/storage.h:57-63 | In every run of a cluster that follows the documented discipline (core call, Save, then send), the disk of every server replays after every event to exactly its live term, vote and log |
| RaftTheorems.NoSecondWin | src/raft/raft.cc:246-263 | A call that makes a node leader makes it leader of a term that had none |
| RaftTheorems.RunOk | include/mlsm/raft/storage.h:57-63 | Every reachable cluster satisfies the invariant |
| RaftCluster.NextKeeps | include/mlsm/raft/storage.h:57-63 | Every event - call and Save, restart, crash inside a Save - keeps the cluster invariant |
| RaftCluster.InitOk | src/raft/raft.cc:8-12 | A cluster of fresh nodes with empty disks satisfies the invariant |
| RaftCalls.StepKeeps | src/raft/raft.cc:29-64 | Delivering any message ever sent keeps the protocol invariant |
| RaftCalls.TickKeeps | src/raft/raft.cc:14-27 | A tick - heartbeat, election, or neither - keeps it |
| RaftCalls.ProposeKeeps | src/raft/raft.cc:309-319 | A proposal keeps it |
| RaftCalls.RestartKeeps | src/raft/raft.cc:330-339 | Forgetting all but term, vote and log keeps it |
| RaftCalls.CommitRule | src/raft/raft.cc:290-307 | An index MaybeCommit moves to is of the leader's own term and acknowledged by a majority |
| RaftCalls.HoldersCount | src/raft/raft.cc:297-301 | Counting acknowledgements peer by peer counts the set of peers that hold the index |
| RaftAppend.MergeAdopts | src/raft/raft.cc:167-181 | The append loop leaves the log unchanged where it already agrees, and otherwise a prefix of the leader's log through the last entry sent; its stable mark covers every index on which both agreed |
| RaftAppend.AppendKeeps | src/raft/raft.cc:147-192 | Handling an AppendEntries keeps the protocol invariant |
| RaftGrowth.UpToDateKeeps | src/raft/raft.cc:125-132 | A candidate that passes the up-to-date check against a log holding an entry holds it too, provided every leader in between did |
| RaftGrowth.Grant | src/raft/raft.cc:123-145 | Granting a vote keeps the invariant |
| RaftGrowth.Stand | src/raft/raft.cc:219-244 | Starting an election keeps the invariant |
| RaftGrowth.Win | src/raft/raft.cc:246-263 | Becoming leader with a majority of ballots keeps the invariant |
| RaftLeading.CommitMove | src/raft/raft.cc:290-307 | Committing an index of the current term held by a majority keeps the invariant |
| RaftLeading.ProposeMove | src/raft/raft.cc:309-319 | A leader's append keeps the invariant |
| RaftMoves.OneLeader | src/raft/raft.cc:79-92 | A majority that voted for a node in a decided term voted for its leader |
| RaftMoves.CommitInLeaderLog | src/raft/raft.cc:290-307 | The leader log of every later term contains what was committed |
| RaftMoves.SettledAgree | src/raft/raft.cc:183-187 | Two committed prefixes hold the same entries wherever both reach |
| RaftMoves.Adopt | src/raft/raft.cc:167-181 | Taking over a prefix of the leader's log that covers every agreement keeps the invariant |
| RaftElection.VoteAnswer | src/raft/raft.cc:123-145 | A vote is given if and only if it is free in that term and the candidate's log is at least as up to date; the reply says so, a given vote is marked for saving, and a refusal in the same term changes nothing else |
| RaftElection.LongerIsUpToDate | src/raft/raft.cc:125-132 | A candidate that holds the voter's whole log is at least as up to date |
| RaftElection.StaleRequest | src/raft/raft.cc:36-50 | A request of an earlier term is refused with the later term and changes nothing |
| RaftElection.StaleResponse | src/raft/raft.cc:36-50 | A response of an earlier term changes nothing |
| RaftElection.LaterResponse | src/raft/raft.cc:30-35 | A response of a later term only makes the node step down into it |
| RaftElection.Stands | src/raft/raft.cc:219-244 | A node whose timeout has passed stands in the next term with its own vote and asks every other member exactly once |
| RaftElection.MajorityWins | src/raft/raft.cc:79-92 | A candidate leads if and only if, with its own, it has votes of more than half of the members |
| RaftElection.ElectionWins | src/raft/raft.cc:79-145 | A node whose timeout passes and whose requests reach members that would vote for it and make a majority with it becomes leader of the next term |
| RaftElection.LeaderStarts | src/raft/raft.cc:246-263 | A new leader starts every other member at the end of its log with match 0 and tells each of them at once |
| RaftReplication.MergeExact | src/raft/raft.cc:167-181 | If all entries are present the log stays as it is, suffix included; else it is cut at the first missing or conflicting one and continues with the entries from there, and the stable index is lowered to the cut |
| RaftReplication.AppendAnswer | src/raft/raft.cc:147-192 | An AppendEntries of the current or a later term makes the node follow its sender and is answered with success and the index it reaches if and only if its previous entry is in the log; a refusal leaves log and commit alone; a leader ignores one of its own term |
| RaftReplication.FollowerLearns | src/raft/raft.cc:183-187 | In every run, a node that accepts an AppendEntries ends with the greater of its commit index and the leader's, and with the message in its log |
| RaftReplication.QuorumCommits | src/raft/raft.cc:290-307 | A majority is enough: an index of the leader's term that more than half of the members hold is committed |
| RaftReplication.CommitsByQuorum | src/raft/raft.cc:290-307 | A majority is needed: the commit index moves only to an index of the leader's term that a majority holds |
| RaftReplication.AckCommits | src/raft/raft.cc:194-206 | The acknowledgement that completes a majority commits the index |
| RaftReplication.RunCommits | src/raft/raft.cc:194-206 | The same in every run |
| RaftReplication.NotesReply | src/raft/raft.cc:194-206 | A leader takes over an acknowledged index as told, sets next behind it, and steps next back by one, not below 1, on a refusal |
| RaftReplication.ProposeAppends | src/raft/raft.cc:309-319 | A leader's proposal becomes the last entry of its log, in its term; nobody else's changes anything |
| RaftDelivery.TakenIsLog | src/raft/raft.cc:321-328 | In every run, all entries a node that has not restarted handed over are, together, exactly its log up to the applied index |
| RaftDelivery.AllCommittedTaken | src/raft/raft.cc:321-328 | Right after TakeCommitted these are exactly the committed entries |
| RaftTiming.Waits | src/raft/raft.cc:14-27 | Before its timeout a node that hears nothing only counts |
| RaftTiming.TimesOut | src/raft/raft.cc:14-27 | At the tick at which the timeout has passed it stands for election and asks every other member |
| RaftTiming.Rests | src/raft/raft.cc:14-27 | Between heartbeats a leader only counts |
| RaftTiming.Heartbeat | src/raft/raft.cc:265-288 | At the end of its period a leader sends every other member exactly one update: the entries from next on, the entry before them and its commit index |
| RaftCatchUp.CatchUp | src/raft/raft.cc:147-206 | From next index n, n exchanges between a stable leader and a same-term follower leave the follower's log agreeing through the leader's last index, and further exchanges keep it so |
| RaftCatchUp.ReachablePair | src/raft/raft.cc:246-263 | Any leader and same-term follower of a reachable cluster satisfy what catch-up starts from |
| RaftCatchUp.RunCatchUp | src/raft/raft.cc:147-206 | Catch-up from any state of any run: after next-index many undisturbed exchanges the logs agree through the leader's last index, the follower's commit index is at least the leader's at the start, and the leader's match index says so |
| RaftCatchUp.RoundsServe | src/raft/raft.cc:147-206 | The same of any matching pair, with everything else the leader knows unchanged and nothing left that it could commit |
| RaftCatchUp.MajorityCommits | src/raft/raft.cc:194-307 | A stable leader whose last entry is of its term commits its whole log once it has had enough exchanges with followers that make a majority with it |
| RaftCatchUp.RunMajorityCommits | src/raft/raft.cc:194-307 | The same from any state of any run |
| RaftCatchUp.RoundStep | src/raft/raft.cc:194-206 | One exchange either leaves the follower caught up, with a commit index at least the leader's, or lowers next by one |
| RaftSpec.CommitPoint | src/raft/raft.cc:290-307 | The highest index above commit that is committable, or commit if there is none |
| RaftCore.Raft.Tick | src/raft/raft.cc:14-27 | The class computes the specified tick |
| RaftCore.Raft.Step | src/raft/raft.cc:29-64 | Term handling, stale replies and dispatch as specified |
| RaftCore.Raft.StepFollower | src/raft/raft.cc:66-77 | A follower answers vote requests and AppendEntries and ignores responses |
| RaftCore.Raft.StepCandidate | src/raft/raft.cc:79-107 | Counts a granted vote once, wins at a majority, steps down for a leader |
| RaftCore.Raft.StepLeader | src/raft/raft.cc:109-121 | A leader answers vote requests and takes note of AppendEntries responses, and ignores the rest |
| RaftCore.Raft.HandleRequestVote | src/raft/raft.cc:123-145 | Grants by vote and up-to-date check, marks the hard state dirty, replies |
| RaftCore.Raft.HandleAppendEntries | src/raft/raft.cc:147-192 | Consistency check, merge, commit, reply, as specified |
| RaftCore.Raft.MergeEntries | src/raft/raft.cc:167-181 | The loop computes the fold of the one-entry merge, log and stable index together |
| RaftCore.Raft.HandleAppendEntriesResp | src/raft/raft.cc:194-206 | Overwrites match and next on success, steps next back on rejection |
| RaftCore.Raft.BecomeFollower | src/raft/raft.cc:208-217 | A new term clears the vote and raises the dirty flag |
| RaftCore.Raft.BecomeCandidate | src/raft/raft.cc:219-244 | Votes for itself in the next term, wins at once if that is a majority, else asks every other peer |
| RaftCore.Raft.BecomeLeader | src/raft/raft.cc:246-263 | Resets the counters of every other peer and broadcasts |
| RaftCore.Raft.BroadcastAppendEntries | src/raft/raft.cc:265-270 | One message to every other peer, in order |
| RaftCore.Raft.SendAppendEntries | src/raft/raft.cc:272-288 | Ships the whole suffix from next |
| RaftCore.Raft.MaybeCommit | src/raft/raft.cc:290-307 | Moves commit to the highest committable index |
| RaftCore.Raft.Propose | src/raft/raft.cc:309-319 | Only a leader appends |
| RaftCore.Raft.TakeCommitted | src/raft/raft.cc:321-328 | Returns exactly the entries after last_applied up to commit |
| RaftCore.Raft.Restore | src/raft/raft.cc:330-339 | Term, vote and log restored, all of it stable |
| RaftCore.Raft.TakeMessages | src/raft/raft.cc:354-358 | Hands over and clears the queue |
| Durability.SaveRefines | src/raft/storage.cc:192-231 | After a Save, replay gives exactly term, vote and log from index 1, and the watermarks are in step again |
| Durability.SaveTorn | src/raft/storage.cc:149-174 | Any non-empty record prefix of a Save leaves the new hard state and either the old durable log or a prefix of the new one no shorter than its stable part |
| DurableRuns.RunSound | src/raft/raft.cc:172-181 | Through any core calls, saves, reopens and crashes inside a save, in any order, the entries up to the stable index are the recorded ones and a clean flag means the hard state is recorded |
| DurableRuns.SavedIsDurable | src/raft/storage.cc:192-231 | After every Save of every such run, however many calls and conflict truncations came before it, replay gives exactly the term, the vote and the log from index 1 |
| DurableRuns.ReopenedIsSame | src/raft/storage.cc:186-190 | Reopening right after a Save brings back the same term, vote and log |
| DurableRuns.CrashInRun | src/raft/storage.cc:149-174 | A crash at any record of a Save in such a run brings back the last durable or the new hard state, and the last durable log or a prefix of the new one that keeps its stable part |
| Durability.StepTame | src/raft/raft.cc:172-181 | A delivered message never changes a log entry it leaves marked stable, nor the hard state without raising the dirty flag |
| Durability.TickTame | src/raft/raft.cc:14-27 | The same of a tick |
| Durability.ProposeTame | src/raft/raft.cc:309-319 | The same of a proposal |
| Durability.TameInStep | include/mlsm/raft/raft.h:78-90 | Such a call keeps node and record stream in step |
| Durability.ReopenInStep | src/raft/storage.cc:186-190 | Restoring what replay recovered brings back term, vote and log and is in step |
| RaftRecords.RecRoundTrip | src/raft/storage.cc:27-73 | Decoding undoes encoding exactly when every number fits 64 bits and the data is shorter than 2^32 bytes |
| RaftRecords.ShortRecord | src/raft/storage.cc:38-73 | A record cut short anywhere is rejected |
| RaftRecords.ReplayEncoded | src/raft/storage.cc:145-178 | Replaying encoded records is replaying the records |
| RaftRecords.Decoder.U32 | src/raft/storage.cc:46-55 | Reads four bytes or clears ok |
| RaftRecords.Decoder.U64 | src/raft/storage.cc:57-61 | Two halves, low first |
| RaftRecords.Decoder.Bytes | src/raft/storage.cc:64-73 | Reads n bytes or clears ok |
| RaftStorage.Storage.constructor | src/raft/storage.cc:93-127 | Recovers what the file replays to and resumes the file |
| RaftStorage.Storage.ReplayFile | src/raft/storage.cc:134-184 | The loop computes the replay of all records the reader delivers |
| RaftStorage.Storage.ReplayNext | src/raft/storage.cc:145-177 | One record, with short ones and unknown tags skipped |
| RaftStorage.Storage.DropFrom | src/raft/storage.cc:165-174 | Pops entries off the back while their index is at least the given one |
| RaftStorage.Storage.Save | src/raft/storage.cc:192-231 | Appends exactly the batch of the node, clears the flag and moves both watermarks to the last index |
| RaftStorage.FileRecovers | src/raft/storage.cc:134-184 | The bytes of a file recover to the replay of its records |
| RaftStorage.FileGrows | src/raft/storage.cc:110-123 | Saving to a file, reopened or not, extends its record list |
| RaftStorage.SaveIsDurable | src/raft/storage.cc:192-231 | After a Save the bytes in the file bring back exactly term, vote and log |
| RaftStorage.CutFile | src/raft/storage.cc:75-81 | Any byte prefix of a file recovers as the replay of exactly the records that end inside it |
| RaftStorage.SaveCrash | src/raft/storage.cc:192-231 | A cut at any byte of a Save leaves the old or the new hard state, and the old durable log or a prefix of the new one that keeps its stable part |
| RaftStorage.RunFileIsTruth | include/mlsm/raft/storage.h:57-63 | In every run of a cluster the file with a server's records brings back its live term, vote and log |
| RaftFiles.HoldsSave | src/raft/storage.cc:110-123 | A Save adds its whole batch to the records a file holds, whatever clean cuts and reopens the file has been through |
| RaftFiles.HoldsCut | src/raft/storage.cc:192-231 | A Save cut between two physical records, or inside the trailer between them, adds a prefix of its batch |
| RaftFiles.HoldsRecovers | src/raft/storage.cc:134-184 | Such a file recovers to the replay of the records it holds |
| RaftFiles.FileIsDurable | src/raft/storage.cc:192-231 | In any run of core calls, Saves, reopens and clean cuts, the bytes of the file after every Save bring back exactly the term, the vote and the log |
| RaftFiles.ClusterFileIsTruth | include/mlsm/raft/storage.h:57-63 | A server's file, cleanly cut as often as it may have been, brings back its live term, vote and log |
| WalFormat.ParseLay | src/wal_reader.cc:21-94 | Parsing a layout of fragments gives them back and goes on with what follows |
| WalWriter.Writer.constructor | src/wal_writer.cc:12-19 | The cursor is the file length modulo the block size; the type checksums are right |
| WalWriter.Writer.EmitPhysicalRecord | src/wal_writer.cc:69-91 | Appends header and payload of one fragment |
| WalWriter.Writer.AddRecord | src/wal_writer.cc:21-67 | The do-while loop terminates, keeps every fragment inside a block, and appends exactly the record's fragments |
| WalWriter.AppendTwice | src/wal_writer.cc:12-14 | Appending in two sessions, the second seeded with the file length, equals appending in one |
| WalReader.Reader.ReadPhysicalRecord | src/wal_reader.cc:21-94 | Takes exactly the next event of the parse, with its report; terminates on every byte string |
| WalReader.Reader.ReadRecord | src/wal_reader.cc:96-168 | Returns the next record of the reassembly, with all reports up to it; terminates on every byte string |
| WalReader.ReadLog | src/wal_reader.cc:96-168 | Reading until the end gives exactly the specified records and reports |
| WalRecords.RoundTrip | src/wal_writer.cc:21-91 | Reading back any written records returns them all, with no report |
| WalRecords.TornTail | src/wal_reader.cc:143-149 | Of any byte prefix of a log the reader returns exactly the records that end inside it, and reports nothing |
| WalRecords.SplitAll | src/wal_writer.cc:29-63 | No physical record straddles a block, for records of any lengths, zero-length fragments included |
| WalRecords.AssembleRecord | src/wal_reader.cc:105-141 | A complete record is delivered whole, whatever was left open before it |
| WalRecovery.Resume | src/wal_writer.cc:12-14 | A log of any number of sessions, each cut at a physical record or inside a trailer, reads back as exactly their completed records |
| WalRecovery.KeptIsPrefix | src/wal_writer.cc:29-40 | Such a cut keeps a prefix of what the writer wrote |
| WalRecovery.DamageDetected | src/wal_reader.cc:78-87 | Up to four changed consecutive payload bytes always fail the checksum |
| WalRecovery.Resync | src/wal_reader.cc:78-93 | After such damage the reader delivers exactly the records with no fragment from there to the end of that block |
| WalRecovery.DamageReported | src/wal_reader.cc:78-87 | Such damage is always reported |
| WalRecovery.ZeroFilled | src/wal_reader.cc:72-76 | Zero-filled space behind a log, however much, is passed over without a report |
| WalDirtyCut.DirtyResume | src/wal_reader.cc:60-94 | After a cut strictly inside a physical record and a resumed write, unless the bytes at the cut pass for a record, the reader delivers exactly the records completed before the cut and the later ones with no fragment in its block |
| WalDirtyCut.TornIsPrefix | src/wal_writer.cc:69-91 | Such a cut leaves a prefix of what the writer wrote |
| WalDirtyCut.DirtyDurable | src/wal_writer.cc:12-40 | In that case everything written after the cut survives if and only if nothing was written or the cut left less than a header in its block |
| WalDirtyCut.SwallowedRefused | src/wal_reader.cc:60-70 | The bytes at the cut do not pass for a record if the header survived and what follows fits inside the missing part |
| WalDirtyCut.ShortLossRefused | src/wal_reader.cc:78-87 | Nor if at most four payload bytes were cut off and other bytes took their place |
| WalDirtyCut.SwallowedTail | src/wal_reader.cc:60-70 | In the first of these cases nothing appended is delivered, whatever it is |
| WalDirtyCut.LostWrite | src/wal_writer.cc:12-14 | A record added to a log whose only record was cut right after its header is not delivered, if it is short enough to fit inside the missing part |
| Crc32c.MakeTable | src/crc32c.cc:12-22 | The loops fill the table of byte contributions |
| Crc32c.ExtendByTable | src/crc32c.cc:28-36 | The table-driven loop equals the bit-serial Castagnoli CRC for every input |
| Castagnoli.PolyIsGenerator | src/crc32c.cc:17 | The constant is the generator of section 12.1 of RFC 3720, given by its exponents, bit-reflected and without x^32 |
| Castagnoli.FeedIsRemainder | src/crc32c.cc:12-36 | The register after any bits is the remainder by that generator of the register before and the message, shifted up by 32 |
| Castagnoli.RemainderUnique | src/crc32c.cc:12-36 | There is only one such remainder |
| Castagnoli.ValueIsRemainder | src/crc32c.cc:28-38 | The complemented checksum of any message is the remainder of the message with all ones in front |
| Castagnoli.CheckValue | src/crc32c.cc:28-38 | The checksum of the digits 1 to 9 is 0xE3069283 |
| Crc32c.ExtendChains | include/mlsm/crc32c.h:13-17 | Extending the checksum of a by b gives the checksum of a followed by b |
| Crc32c.DetectsBurst | src/crc32c.cc:28-36 | Equal-length inputs that differ only inside a window of four bytes have different checksums |
| Crc32c.MaskRoundTrip | include/mlsm/crc32c.h:24-32 | Mask and Unmask are inverse to each other |
| StoredBytes.MaskIsRotation | include/mlsm/crc32c.h:24-27 | The stored checksum is the checksum rotated right by 15 bits plus 0xa282ead8 |
| StoredBytes.Fixed32Bytes | include/mlsm/coding.h:12-18 | The four bytes hold the number, lowest byte first |
| StoredBytes.Put64Bytes | src/raft/storage.cc:33-36 | The eight bytes hold the number, lowest byte first |
| StoredBytes.HeaderBytes | src/wal_writer.cc:69-82 | A header holds the masked checksum of type and payload, the payload length and the type, in that order |
| StoredBytes.SmallRecordBytes | src/wal_writer.cc:21-91 | A record that fits the first block is one physical record of type 1, given byte by byte |
| StoredBytes.SplitGlues | src/wal_writer.cc:42-63 | The payloads of a record's fragments, one after the other, are the record |
| StoredBytes.SplitKinds | src/wal_writer.cc:48-58 | A whole record has type 1; else the types are 2, then 3s, then 4 |
| StoredBytes.SplitFills | src/wal_writer.cc:42-46 | Every fragment but the last ends at the end of its 32768-byte block |
| StoredBytes.HardStateBytes | src/raft/storage.cc:194-200 | Tag 1, term, vote |
| StoredBytes.EntryBytes | src/raft/storage.cc:214-223 | Tag 2, term, index, length, data |
| StoredBytes.TruncateBytes | src/raft/storage.cc:205-211 | Tag 3 and the first index dropped |
| StoredBytes.CommandBytes | src/db.cc:31-47 | Tag 1 for a put and 0 for a delete, then key and value, each after its length |
| Coding.Fixed32RoundTrip | include/mlsm/coding.h:12-26 | Decoding undoes encoding, whatever follows |
| Coding.Decode32RoundTrip | include/mlsm/coding.h:12-26 | Encoding undoes decoding |
| Coding.EncodeFixed32 | include/mlsm/coding.h:12-18 | Writes four bytes and leaves the rest of the buffer alone |
| Commands.CommandRoundTrip | src/db.cc:34-80 | Decoding undoes encoding exactly when key and value are shorter than 2^32 bytes |
| Commands.EncodeRecord | src/raft/replicated_db.cc:23-37 | Builds the specified payload |
| Commands.DecodeRecord | src/raft/replicated_db.cc:39-67 | Accepts exactly the payloads long enough for the fields they announce, and returns the type byte and those fields; any type but put is applied as a delete |
| Commands.ShortCommand | src/db.cc:49-80 | A command cut short anywhere is refused |
| Commands.ApplyLaws | src/db.cc:159-165 | After a put the key is found with its value, after a delete it is not found, and no other key changes |
| Commands.AppliedLookup | src/db.cc:136-165 | After any commands a key is found with v if and only if some command puts v there and no later command has the key |
| Commands.Reapply | src/raft/replicated_db.cc:151-171 | Applying a whole command log over its own result changes nothing |
| Commands.ReapplySuffix | src/raft/replicated_db.cc:158-171 | Applying any suffix again and then more gives what applying everything once gives |
| Db.DBImpl.constructor | src/db.cc:107-126 | Opens with the table the log rebuilds |
| Db.DBImpl.ReplayWal | src/db.cc:167-185 | The loop applies every record that decodes, in order |
| Db.DBImpl.Write | src/db.cc:148-157 | The log grows by the encoded command and the table by its effect |
| Db.DBImpl.Get | src/db.cc:136-143 | The value in the table, or none |
| Db.RunLogs | src/db.cc:107-157 | Through any writes and reopens the file is the log of all writes, as if written in one go |
| Db.RecoveryAgrees | src/db.cc:107-185 | Through any writes and reopens the table is the fold of all writes, and so is the one the log rebuilds |
| Db.GetAfterRun | src/db.cc:128-165 | Through any writes and reopens Get finds v at k if and only if some write puts it there and no later write has the key |
| Db.CrashKeepsPrefix | src/db.cc:145-157 | Cutting the log at any byte rebuilds the table after exactly the writes wholly before the cut |
| Db.LostCommand | src/db.cc:115-124 | A store opened on such a torn log takes a command and shows its effect, but the next store opened on the log does not have it |
| ReplicatedDb.ReplicatedDB.Open | src/raft/replicated_db.cc:71-128 | Recovers node and table; a lone node elects itself and persists that |
| ReplicatedDb.ReplicatedDB.Write | src/raft/replicated_db.cc:132-142 | Refused unless leading; else proposed, persisted and applied |
| ReplicatedDb.ReplicatedDB.Sync | src/raft/replicated_db.cc:151-156 | Saves, then applies what is committed |
| ReplicatedDb.ReplicatedDB.ApplyCommitted | src/raft/replicated_db.cc:158-171 | The loop applies the entries after applied_index up to commit, in order |
| ReplicatedDb.Elects | src/raft/replicated_db.cc:114-118 | A lone node leads after one tick, with its log unchanged |
| ReplicatedDbRuns.ProposeCommits | src/raft/replicated_db.cc:97-100 | A lone leader commits what it proposes at once |
| ReplicatedDbRuns.DurableMap | src/raft/replicated_db.cc:97-124 | Through any writes and clean reopens a single node leads and its table is the fold of every command written |
| ReplicatedDbRuns.GetAfterRun | src/raft/replicated_db.cc:132-171 | The same of the single-node replicated store |
| ReplicatedDbRuns.AppliedFallsBack | src/raft/replicated_db.cc:158-171 | Every reopen sets the applied index back to 0 and the next write raises it to the number of commands: it is not monotone |
| ReplicatedTables.StoreIsFold | src/raft/replicated_db.cc:151-171 | In every run of a cluster, the table of a store whose node has not restarted is the fold of all entries its node knows committed |
| ReplicatedTables.StoreAnswers | src/raft/replicated_db.cc:144-171 | Such a store finds v at k if and only if some committed command puts it there and no later committed command has the key |
| ReplicatedTables.TablesAgree | src/raft/replicated_db.cc:158-171 | Of two such stores at any two moments, the one that applied more has the other's table with the further entries applied; at the same applied index the tables are equal |

## Left out

- File system calls, directories and path handling (src/env_posix.cc): a file is its bytes; an I/O error, including one partway through a Save, ends the run.
- A multi-node ReplicatedDB after a restart: Open applies entries not known to be committed, which the code declares out of scope (src/raft/replicated_db.cc:97-100). Tables are shown to agree for nodes that have not restarted.
- Liveness under an arbitrary network: what is shown is what a given exchange of messages or number of ticks achieves, with no fairness assumption about either.
- WalDirtyCut.DirtyResume: claims nothing of a cut whose torn bytes, run together with the bytes written after them, happen to form a physical record with a right checksum; the reader then delivers that record.
- RaftCluster.NextKeeps: one core call per Save, as include/mlsm/raft/storage.h:57-63 asks for (several calls per Save are covered for durability in DurableRuns), and a crash inside a Save leaves whole records on the disk. RaftFiles.HoldsCut shows that every clean cut of the file does so. A file cut strictly inside a physical record recovers as whole records too (RaftStorage.SaveCrash), but what is written to it afterwards may be lost (WalDirtyCut.DirtyDurable), so no run goes on from there.
- Physical records whose type byte equals one of the reader's internal codes for end of input and bad record are handled as the code handles them, but nothing is claimed of them; the writer never produces them.
- Corruption counters of the stores, status texts and the benchmark.
- Option handling of DB::Open (create_if_missing) and the destructors.
