# Verification of replicated-splinterdb

A Dafny model of the parts of replicated-splinterdb that carry its guarantees, with proofs of what
they keep. `dafny verify dfyconfig.toml` checks everything.

The system replicates a SplinterDB key-value store with Raft. A client sends mutations to the
leader and reads from a server its read policy chooses; the leader turns a mutation into bytes and
appends them to the Raft log; every replica keeps its log in memory, commits entries in order to
its state machine, and writes a log file through a ring buffer shared by all its threads.

## What is modelled

- **The logger** (`RingProtocol`, `RingFlush`, `RingCalls`, `RingLosses`, `RingRefinesLogger`,
  `RingDrains`, `LoggerModel`, `SimpleLogger`, `LogFiles`, `Streams`, `MessageFormat`,
  `RevisionNames`, `LoggerRestart`). `RingProtocol` interleaves any number of threads, one load,
  compare-and-swap, store or copied byte at a time: no message is torn or doubled. `RingFlush` shows
  what one flush does while others write: it sees every slot once and emits all that waited.
  `RingCalls` accounts for every put call over whole runs, and shows that calls that do not overlap
  lose nothing; `RingLosses` shows, for a ring of any size and any message, the two ways in which
  overlapping calls do. `LoggerModel` is the logger call by call, over whose runs the order of the
  stream, the size of files and retention are proved. Two things are proved to be that logger: the
  interleaved ring, step by atomic step, when its calls do not overlap (`RingRefinesLogger`; in
  `RingDrains` such calls return, and a flush empties the ring into the files), and `SimpleLogger`, a
  class each of whose methods is tied to one operation. A restart after any run finds its place again
  from file names alone.
- **The Raft log store** (`LogStoreModel`, `LogPack`, `LogDurability`, `InMemoryLogStore`). The
  class keeps a sparse map, a start index and the emulated disk. Every operation is related to an
  offset sequence, and for the two operations that can break the store the condition under which
  they do not is exact.
- **The state machine path** (`OperationCodec`, `WireBuffer`, `StateMachine`, `Cluster`). From a
  client's request through bytes, log entry, log store, packs between peers and in-order commits to
  the map. Consensus enters as one assumption, on what is written and not on what is read: Raft
  commits up to a replica's matched index, up to which the entries last written to its log are the
  chosen ones. That a commit then reads the chosen entry from the log store is proved.
- **The client** (`MurmurX86_32`, `MurmurX86_128`, `MurmurX64_128`, `MurmurBits`, `MurmurValues`,
  `BlockFold`, `ReadPolicy`, `ClientRouting`, `ClientRetry`, `Products`). The three hashes as folds of
  invertible steps, with published values of each, token ranges against their closed form, round
  robin, and the retry and leader search against arbitrary replies.

## Where the code does less than it seems to

- A put can lose its message although no other writer laps it: the wait for a flush ends when the
  slot is FLUSHING, not CLEAN, and the failed write is ignored (`RingLosses.FlushingLosesAMessage`).
  It takes calls that overlap: `RingCalls.SeparateCallsLoseNothing`.
- A log line is cut before it fills its buffer, because the length of its head is subtracted twice
  (`MessageFormat.WholeUpToTwiceTheHead`).
- A file size limit of 2^63 or more rotates on every flush (`LoggerModel.RotationMeetsLimit`,
  `LoggerModel.NoLimitNoRotation`).
- A log file name without a dot, or with an extension that reads as a number other than zero, makes
  a restarted logger misjudge its revisions (`RevisionNames.BadBaseMisleads`).
- A pack can move a store's next slot back although it fits, by setting the start anew: exactly when
  the store has no entries and a start above 1, and the pack is empty or ends below that start
  (`LogStoreModel.ApplyMovesForward`).
- An overwrite can leave the emulated disk reporting too much or too little: it stays exact exactly
  when nothing from the index on is durable, no older write of that index is pending, and no write
  it forgets stands for an append it keeps (`LogDurability.OverwriteKeepsExact`).
- The greatest tokens have no server (`ReadPolicy.UnroutedAreTheTop`).
- An update from a client is submitted as a put, so it overwrites (`StateMachine.LastWriteWins`).
  Submitted as an update it would do the same exactly when each merge with what the key holds comes
  to overwriting it (`StateMachine.NativeUpdatesOverwriteExactly`).
- An index counts as committed although the store rejected the write, so replicas at equal commit
  indices can differ: they do not exactly when every entry that only one of them accepted changes
  nothing on the map it met (`Cluster.DifferentAnswers`).
- The retries of a mutation all go to the server that led when the call began: a retry reaches the
  known leader if and only if that is still the one (`ClientRetry.AttemptReachesLeaderExactly`,
  `ClientRetry.MovedLeaderIsMissed`).

## Model

| member | source | states |
|---|---|---|
| RingProtocol.MutualExclusion | src/server/logger.cpp:686-715 | For any number of threads and any interleaving, a slot has at most one thread inside it, at most one slot is FLUSHING, and whoever is inside sees the status it set |
| RingProtocol.StepKeepsConsistency | src/server/logger.cpp:1020-1037 | Every atomic step of put, flush and write, by any thread, keeps the ring, the mutex and every thread's claims consistent |
| RingProtocol.EveryWriteEmittedOnce | src/server/logger.cpp:1148-1162 | The messages whose write returned 0 are exactly those in the files plus those a slot still owes; the files are whole messages plus at most the beginning of one that is being emitted |
| RingProtocol.DrainedRing | src/server/logger.cpp:706-715 | Once every slot is clean the files hold every successfully written message whole and once |
| RingProtocol.DropsExactlyWhenSlotIsTaken | src/server/logger.cpp:694-697 | Of all steps of all threads only a write that finds its slot not CLEAN drops a message, and it always does |
| RingProtocol.WaitsExactlyWhile | src/server/logger.cpp:1028-1034 | A put stays in its first wait exactly while its slot is being written or emitted, and in its second exactly while the slot is dirty |
| RingFlush.EachSlotHasOneTurn | src/server/logger.cpp:1153-1161 | A flush from any start comes to each slot in exactly one of its n turns |
| RingFlush.FlushSeesEverySlotOnce | src/server/logger.cpp:1148-1161 | However other threads interleave, between taking and releasing the mutex a flush looks at each of the n slots once, and every message that waited in any slot when it took the mutex is emitted by then |
| RingCalls.EveryCallIsAccountedFor | src/server/logger.cpp:1020-1037 | Over every run the messages of all put calls are those written, those dropped, and those that calls under way still carry, each as often as it was put |
| RingCalls.SeparateCallsLoseNothing | src/server/logger.cpp:1020-1037 | On a ring of any size calls that do not overlap drop nothing, and once all have returned the written messages are exactly those put |
| RingRefinesLogger.SeparateCallsRefineLogger | src/server/logger.cpp:1020-1187 | Between calls that do not overlap the interleaved ring, of any size, is the logger of LoggerModel after the same calls: same slots, cursor, active file and closed files |
| RingRefinesLogger.FilesHoldCallsInOrder | src/server/logger.cpp:1020-1187 | Between such calls the files in order, and then the waiting slots from the cursor on, are the messages put, each once, in the order of the calls |
| RingDrains.EveryCallReturns | src/server/logger.cpp:1020-1037 | After any separate calls a put or a flush that runs alone returns |
| RingDrains.FlushDrains | src/server/logger.cpp:1148-1187 | When a flush that runs alone has returned, every slot is clean, and the files hold exactly the written messages, whole, once, and in the order of the calls that put them |
| RingLosses.FlushingLosesAMessage | src/server/logger.cpp:1030-1037 | For every ring size and message, a run of one putting thread and one flusher in which the put waits for its slot to be flushed, goes on while the slot is FLUSHING, and drops its message while it still is |
| RingLosses.LappingLosesAMessage | src/server/logger.cpp:1020-1037 | For every ring size and message, a run without any explicit flush in which a put is lapped between finding its slot clean and writing, and drops its message |
| SimpleLogger.LogElem.Write | src/server/logger.cpp:694-704 | A clean slot takes the message, capped at the slot size, and becomes dirty; any other slot refuses and stays as it was |
| SimpleLogger.LogElem.Flush | src/server/logger.cpp:706-715 | A dirty slot appends its bytes to the file and becomes clean; any other slot writes nothing |
| SimpleLogger.SimpleLogger.FlushCircular | src/server/logger.cpp:1152-1161 | The two loops write the dirty slots in circular order from the start position, each once, and leave every slot clean |
| SimpleLogger.SimpleLogger.Flush | src/server/logger.cpp:1148-1182 | With the mutex taken it returns false and changes nothing; otherwise it is the model's flush: circular write, then rotation when the size passes the limit |
| SimpleLogger.SimpleLogger.NextFile | src/server/logger.cpp:1164-1179 | The closed file keeps its bytes, the next revision opens for appending, and with a manager one compression job is queued and counted, without one none |
| SimpleLogger.SimpleLogger.Put | src/server/logger.cpp:955-1037 | A message above the log level, or one put on a closed stream, changes nothing; any other is the model's put |
| SimpleLogger.SimpleLogger.MakeClean | src/server/logger.cpp:1028-1036 | A claimed dirty slot is flushed from its own position and is clean afterwards |
| SimpleLogger.SimpleLogger.FlushAll | src/server/logger.cpp:1184-1187 | Flushing all is a flush from the cursor, or nothing with the mutex taken |
| SimpleLogger.SimpleLogger.TakeJob | src/server/logger.cpp:464-472 | The worker takes the oldest pending job |
| SimpleLogger.SimpleLogger.RemoveUpTo | src/server/logger.cpp:1134-1141 | The pruning loop removes both forms of every revision from the oldest to the bound, and moves the oldest revision past it |
| SimpleLogger.SimpleLogger.DoCompression | src/server/logger.cpp:1122-1146 | A compression job archives its file, prunes, and counts itself done |
| LoggerModel.RingRefinesFifo | src/server/logger.cpp:1020-1187 | With calls one at a time, removed files, retained files in revision order and dirty slots read circularly are together always the stream of all messages put; the dirty slots are one run ending before the cursor |
| LoggerModel.PutExtendsStream | src/server/logger.cpp:1020-1037 | A put appends its message to the stream, whether or not it flushes and rotates |
| LoggerModel.FlushKeepsStream | src/server/logger.cpp:1148-1182 | A flush from the cursor leaves the stream as it is |
| LoggerModel.FinishJobTrimsStream | src/server/logger.cpp:1122-1146 | A compression job removes a prefix of the stream, made of whole old files, and nothing else |
| LoggerModel.FileSizesBounded | src/server/logger.cpp:1164-1170 | With a limit below 2^63, every file closed in a run ends above the limit and at most one ring's worth of bytes past it |
| LoggerModel.RotationMeetsLimit | src/server/logger.cpp:1164 | Rotation happens only above the limit if and only if the limit fits a signed 64-bit number |
| LoggerModel.NoLimitNoRotation | src/server/logger.cpp:1164 | Without a limit no run rotates; with one of 2^63 or more every flush does |
| LoggerModel.RetentionOverRuns | src/server/logger.cpp:1132-1142 | After any run the retained revisions are exactly those from the oldest the limit keeps up to the active one; the oldest never decreases; the job counter is queued plus running jobs; with a manager each revision closed in the run awaits its job exactly until that is done, and no plain file that had a job is left without one; without a manager no job is added |
| LoggerModel.WorkerCatchesUp | src/server/logger.cpp:455-480 | With as many rounds as there are jobs the worker is done after any run: every file closed in it is an archive only or pruned, and exactly the newest closed revisions up to the limit are left |
| LoggerModel.JobTouchesOnlyOldFiles | src/server/logger.cpp:1122-1146 | No job touches the active file, a later revision or a file still pending compression |
| MessageFormat.Snprintf | src/server/logger.cpp:945-948 | One part of a message stays inside the buffer and is added whole, cut with its terminator counted, or not at all |
| MessageFormat.Format | src/server/logger.cpp:985-1018 | The three parts of a line go into a buffer of MSG_SIZE without ever leaving it |
| MessageFormat.CutWhere | src/server/logger.cpp:945-1018 | What comes of every line, byte by byte: head and text are cut to the buffer, the tail to what the text and twice the head leave of it |
| MessageFormat.WholeUpToTwiceTheHead | src/server/logger.cpp:945-1018 | A line comes through whole exactly when its length plus that of its head stays below MSG_SIZE; what comes through is never cut again by the slot |
| MessageFormat.ShortMessageIsCut | src/server/logger.cpp:1009-1018 | A line shorter than MSG_SIZE that loses its end |
| RevisionNames.NumberedNamesReadBack | src/server/logger.cpp:877-882 | The name of every revision from 1 on, plain or archived, parses back to that revision |
| RevisionNames.BaseNameReadsBack | src/server/logger.cpp:850-868 | The name of revision 0 parses back exactly when the base name has an extension that reads as 0 and is not an archive's |
| RevisionNames.NamesLookLikeThis | src/server/logger.cpp:877-882 | Names of revisions 0, 7 and 120, and numbers read from text with space, sign and letters |
| RevisionNames.FindMinMaxRevNumInternal | src/server/logger.cpp:850-875 | One name updates minimum and maximum as its parsed revision says, an archive vouching for the next revision |
| RevisionNames.FindMinMaxRevNum | src/server/logger.cpp:792-848 | The directory loop skips names without the base name and folds over the others |
| RevisionNames.ScanRecovers | src/server/logger.cpp:850-882 | For any listing of a logger's directory, in any order and mix of plain and archived files, the scan finds the oldest and the active revision |
| RevisionNames.ScanFindsExtremes | src/server/logger.cpp:850-875 | In any directory with a log file of a good base name the scan finds the least revision, and the greatest that a plain file has or that follows an archive's |
| RevisionNames.BadBaseMisleads | src/server/logger.cpp:854-868 | For every other base name there is a logger's directory that the scan misreads |
| LoggerRestart.ScanFindsState | src/server/logger.cpp:792-882 | The scan of the files of any state of the logger finds that state's oldest and active revision |
| LoggerRestart.RestartAfterAnyRun | src/server/logger.cpp:719-731 | Stopped after any run, the logger restarts with its files, oldest and active revision, ready for another run |
| LogStoreModel.IntervalCounts | src/server/in_memory_log_store.cpp:59-63 | A store whose keys are the dummy's and an interval counts its next slot at the end of the interval |
| LogStoreModel.AppendExtends | src/server/in_memory_log_store.cpp:78-92 | Append extends the offset sequence by the entry |
| LogStoreModel.WriteAtTruncates | src/server/in_memory_log_store.cpp:94-121 | An overwrite inside the sequence or at its end cuts the sequence there and appends; at 0 it replaces the dummy and empties the sequence |
| LogStoreModel.WriteAtNeedsToFit | src/server/in_memory_log_store.cpp:94-104 | Exactly the overwrites at 0 and from the start to the next slot leave counting and keys in agreement |
| LogStoreModel.CompactDrops | src/server/in_memory_log_store.cpp:273-289 | Compaction drops a prefix, and past the end leaves an empty sequence that starts after the given index |
| LogStoreModel.ApplyPatches | src/server/in_memory_log_store.cpp:236-271 | A pack that fits overwrites and extends the sequence, keeps what it does not cover, and sets the start to the least key |
| LogStoreModel.ApplyNeedsToFit | src/server/in_memory_log_store.cpp:236-271 | Exactly the packs that touch or overlap the sequence, or meet an empty store, or bring no entry above 0, leave counting and keys in agreement |
| LogStoreModel.ApplyMovesForward | src/server/in_memory_log_store.cpp:236-271 | A fitting pack leaves the next slot where it was or moves it on if and only if the store has entries, or starts at 1, or the pack is not empty and reaches the start |
| LogStoreModel.EmptyPackStartsOver | src/server/in_memory_log_store.cpp:262-271 | An empty pack on a store without entries makes its next slot 1 |
| LogStoreModel.EarlyPackGoesBack | src/server/in_memory_log_store.cpp:236-271 | A pack that ends below the start of a store without entries takes the next slot back to its own end |
| LogStoreModel.RunRefines | src/server/in_memory_log_store.cpp:59-289 | Through every run of fitting operations the store is its offset sequence |
| LogStoreModel.LookupReads | src/server/in_memory_log_store.cpp:176-200 | A lookup in range finds the sequence's element, one outside finds the dummy |
| LogPack.PackSize | src/server/in_memory_log_store.cpp:226-227 | A pack is 4 + 4n bytes and the entries' sizes long |
| LogPack.PackLayout | src/server/in_memory_log_store.cpp:226-232 | A pack begins with its count, least significant byte first, and the first entry follows behind its size |
| LogPack.FramesReadBack | src/server/in_memory_log_store.cpp:245-256 | Frames read back to the entries they were made of and nothing is left over |
| LogPack.LongEntryIsRefused | src/server/in_memory_log_store.cpp:247-251 | An entry of 2^31 bytes or more, below 2^32, anywhere in a pack is announced by a negative size: the entries before it are read and it is refused |
| LogPack.LongEntryStopsPack | src/server/in_memory_log_store.cpp:236-260 | Such a pack leaves the entries before the long one in the receiver and the receiver's start as it was |
| LogPack.AnyPack | src/server/in_memory_log_store.cpp:236-271 | Whatever bytes arrive as a pack: less than a count, or a negative one, changes nothing; a fault keeps the start, no fault makes it the least key; no entry is lost, or touched outside the range the count announces |
| LogPack.PackTransfers | src/server/in_memory_log_store.cpp:202-271 | Applying another store's pack copies its entries on the range, leaves the others, and sets the start to the least key above 0 |
| LogPack.PackCopies | src/server/in_memory_log_store.cpp:202-271 | Into a dense store the copy keeps it dense exactly where it fits, and is then the patched sequence |
| LogDurability.DurableIsExact | src/server/in_memory_log_store.cpp:317-348 | Over every run of appends, compactions and emulator rounds the durable index is the greatest index whose write was due at the last round, 0 if none; it never falls and never passes the last index |
| LogDurability.DurableAfterTheDelay | src/server/in_memory_log_store.cpp:85-88 | In every such run an append is durable from the first round on that comes at least the delay in milliseconds after it, and not before |
| LogDurability.PendingIncreases | src/server/in_memory_log_store.cpp:86-88 | Pending writes complete in the order of their indices |
| LogDurability.SleepIsPositive | src/server/in_memory_log_store.cpp:326-348 | Whatever the emulated disk holds, the sleep computed after a round is positive |
| LogDurability.OverwriteKeepsExact | src/server/in_memory_log_store.cpp:94-121 | After an overwrite the durable index is exact at every later round if and only if nothing from the index on is durable, no older write of the index is pending, and no pending write that is forgotten stands for an append that is kept |
| LogDurability.OverwriteLeavesDurableAhead | src/server/in_memory_log_store.cpp:94-121 | After an overwrite the durable index is within the log exactly when the overwrite was not below it |
| InMemoryLogStore.InMemoryLogStore.NextSlot | src/server/in_memory_log_store.cpp:59-63 | The counted slot is the end of the offset sequence: free, and above every key in use |
| InMemoryLogStore.InMemoryLogStore.LastEntry | src/server/in_memory_log_store.cpp:67-76 | The last element of the sequence, the dummy when there is none |
| InMemoryLogStore.InMemoryLogStore.Append | src/server/in_memory_log_store.cpp:78-92 | The entry goes to a free index, which is returned, and nothing else changes; with a delay its write completes that many milliseconds later |
| InMemoryLogStore.InMemoryLogStore.WriteAt | src/server/in_memory_log_store.cpp:94-121 | The erasing loops leave exactly the entries below the index, as they were, and the new one; of the pending writes exactly those up to the index, and the new one |
| InMemoryLogStore.InMemoryLogStore.LogEntries | src/server/in_memory_log_store.cpp:123-144 | The entry, or the dummy, at every index of the range; no result where the range is reversed |
| InMemoryLogStore.InMemoryLogStore.LogEntriesExt | src/server/in_memory_log_store.cpp:146-174 | The shortest prefix of the range whose size reaches a positive hint, the whole range if none does or the hint is 0, nothing for a negative hint |
| InMemoryLogStore.BatchIsUnique | src/server/in_memory_log_store.cpp:146-174 | That description determines the batch |
| InMemoryLogStore.InMemoryLogStore.FindEntry | src/server/in_memory_log_store.cpp:176-187 | The entry at an index, the dummy outside |
| InMemoryLogStore.InMemoryLogStore.TermAt | src/server/in_memory_log_store.cpp:189-200 | The term at an index, the dummy's outside |
| InMemoryLogStore.InMemoryLogStore.Pack | src/server/in_memory_log_store.cpp:202-234 | A negative count is refused; otherwise the buffer is filled to its last byte with count and frames |
| InMemoryLogStore.InMemoryLogStore.ApplyPack | src/server/in_memory_log_store.cpp:236-271 | A fault is reported with the entries before it stored and the start unchanged; otherwise entries and start are as the model says |
| InMemoryLogStore.InMemoryLogStore.Compact | src/server/in_memory_log_store.cpp:273-289 | The erasing loop drops exactly what lies between the start and the index, present or not, and the start moves past it |
| InMemoryLogStore.InMemoryLogStore.Flush | src/server/in_memory_log_store.cpp:291-294 | The last index becomes the durable one |
| InMemoryLogStore.InMemoryLogStore.LastDurableIndex | src/server/in_memory_log_store.cpp:308-315 | Without a delay the index of the last entry; with one, in every state a run can reach, the greatest index due at the last round, 0 if none, and never past the log |
| InMemoryLogStore.InMemoryLogStore.EmulateDisk | src/server/in_memory_log_store.cpp:317-355 | One round makes everything due durable, notifies exactly if something was due, and sleeps until the first write still pending, 100 ms if there is none |
| OperationCodec.Serialize | src/server/splinterdb_operation.cpp:11-27 | The buffer sized beforehand is filled to its last byte: the type byte, then the key and, where there is one, the value, each behind its length in four bytes, least significant first |
| OperationCodec.Deserialize | src/server/splinterdb_operation.cpp:36-49 | Short bytes fail; the type byte is the first, any is accepted, and a value is read for 0 and 1 only; key and value are those that the layout holds |
| OperationCodec.WireFormat | src/server/splinterdb_operation.cpp:11-66 | A put is laid out under type byte 0, an update under 1, both with key and value, a delete under 2 with the key alone |
| OperationCodec.ReadsLaidOut | src/server/splinterdb_operation.cpp:36-49 | Any bytes so laid out read as that put, update or delete, whatever follows them |
| OperationCodec.ReadsOnlyLaidOut | src/server/splinterdb_operation.cpp:36-49 | No other bytes read as an operation |
| OperationCodec.ReadsWhatWasWritten | src/server/splinterdb_operation.cpp:11-49 | Bytes read as an operation exactly when they begin with its encoding |
| OperationCodec.RoundTripExactlyWhenShort | src/server/splinterdb_operation.cpp:11-66 | The round trip holds exactly for keys and values shorter than 2^32 |
| OperationCodec.EncodingsArePrefixFree | src/server/splinterdb_operation.cpp:11-66 | No encoding begins another, so distinct operations have distinct bytes |
| StateMachine.SplinterdbStateMachine.Commit | src/server/splinterdb_state_machine.cpp:35-77 | A commit registers its thread once and applies the decoded operation if the store accepts it: bytes laid out under 0 store exactly their second string under their first, under 2 they remove the key; the index is recorded either way; malformed bytes and types above 2 throw and change nothing |
| StateMachine.CommitReadsBytes | src/server/splinterdb_state_machine.cpp:46-71 | What a commit makes of any bytes, said of the bytes alone: 0 stores, 1 merges, 2 removes, and bytes laid out as none of these change nothing |
| StateMachine.SplinterdbStateMachine.CommitConfig | src/server/splinterdb_state_machine.cpp:79-82 | A configuration change moves the commit index only |
| StateMachine.LastWriteWins | src/server/server.cpp:131-155 | At every point of any log of client requests every key holds its last put or update, or nothing after a delete |
| StateMachine.NativeUpdatesOverwriteExactly | src/server/server.cpp:149-152 | With updates submitted as updates, every key holds its last write at every point of a log if and only if every update's merge with what its key holds yields the update's own value, said of the last writes and of the store's values alike |
| StateMachine.NativeUpdateDiffers | src/server/server.cpp:149-152 | For any value or absence on which a merge does not overwrite, a log of one or two requests that tells updates submitted as updates from puts |
| StateMachine.AgreeExactlyWhenIdle | src/server/splinterdb_state_machine.cpp:46-71 | Two stores that took the same history with different answers have the same map at every index if and only if every entry only one accepted changes nothing on the map it met |
| Cluster.CommitReadsChosen | src/server/in_memory_log_store.cpp:176-187 | Up to the matched index a commit reads the chosen entry from the log store |
| Cluster.StepAgrees | src/server/in_memory_log_store.cpp:78-121 | Append, overwrite and pack above the commit index, commit up to the matched index, and compaction below the commit index keep a replica's log the chosen entries up to its matched index and its map their replay |
| Cluster.ReceiveHolds | src/server/in_memory_log_store.cpp:202-271 | A received pack leaves the peer's entries in the log, and the chosen ones as far as the peer has them |
| Cluster.RunAgrees | src/server/splinterdb_state_machine.cpp:35-82 | Over every run all replicas stay in agreement |
| Cluster.ReplicasAgree | src/server/splinterdb_state_machine.cpp:35-82 | In every run of a fresh cluster every log holds the chosen entries up to what is matched, every map is the replay of a prefix of them, equal commit indices and equal answers of the stores mean equal maps, and an entry that does not decode stops every replica before it |
| Cluster.DifferentAnswers | src/server/splinterdb_state_machine.cpp:46-71 | Two replicas of a run had the same map at every index both committed if and only if every entry that only one of their stores accepted changes nothing on the map it met |
| Cluster.CatchesUp | src/server/in_memory_log_store.cpp:202-271 | A peer's pack alone lets a replica commit up to the peer's index and, with a store that answers as the peer's did, reach the peer's map |
| Cluster.ChosenAreReplayed | src/server/in_memory_log_store.cpp:78-92 | Nothing gets stuck: a fresh replica that appends the chosen entries may commit every one that decodes, and ends with their replay |
| MurmurBits.Fmix32Undo | src/client/MurmurHash3.cpp:60-68 | The 32-bit finaliser has an inverse |
| MurmurBits.Fmix64Undo | src/client/MurmurHash3.cpp:72-80 | The 64-bit finaliser has an inverse |
| MurmurBits.Rotl32Undo | src/client/MurmurHash3.cpp:34-36 | Each rotation used is undone by the complementary one |
| MurmurBits.Rotl64Undo | src/client/MurmurHash3.cpp:38-40 | Each 64-bit rotation used is undone by the complementary one |
| MurmurX86_32.StepLosesNothing | src/client/MurmurHash3.cpp:98-108 | The block step is injective in the state and in the block |
| MurmurX86_32.MurmurHash3_x86_32 | src/client/MurmurHash3.cpp:84-138 | The loop over negative word indices, the fall-through tail, the length and the finaliser compute the left-to-right fold, reading every byte exactly once |
| MurmurX86_32.OneBlockNeverCollides | src/client/MurmurHash3.cpp:84-138 | Keys of equal length that differ inside one 4-byte block or the tail never collide |
| MurmurX86_32.SeedsNeverCollide | src/client/MurmurHash3.cpp:84-138 | For a fixed key the hash is injective in the seed |
| MurmurX86_32.LengthsNeverCollide | src/client/MurmurHash3.cpp:84-138 | Keys whose padded words agree and whose lengths do not never collide |
| MurmurX86_128.StepLosesNothing | src/client/MurmurHash3.cpp:162-203 | The block step is injective in the state and in the block |
| MurmurX86_128.MurmurHash3_x86_128 | src/client/MurmurHash3.cpp:142-298 | Loop, four fall-through tails, the length in every lane and the finaliser compute the fold |
| MurmurX86_128.OneBlockNeverCollides | src/client/MurmurHash3.cpp:142-298 | Keys of equal length that differ inside one 16-byte block or the tail never collide |
| MurmurX86_128.SeedsNeverCollide | src/client/MurmurHash3.cpp:142-298 | For a fixed key the hash is injective in the seed |
| MurmurX86_128.LengthsNeverCollide | src/client/MurmurHash3.cpp:142-298 | Keys whose padded blocks agree and whose lengths do not never collide |
| MurmurX64_128.StepLosesNothing | src/client/MurmurHash3.cpp:318-339 | The block step is injective in the state and in the block |
| MurmurX64_128.MurmurHash3_x64_128 | src/client/MurmurHash3.cpp:302-408 | Loop, two fall-through tails and finaliser compute the fold |
| MurmurX64_128.OneBlockNeverCollides | src/client/MurmurHash3.cpp:302-408 | Keys of equal length that differ inside one 16-byte block or the tail never collide |
| MurmurX64_128.SeedsNeverCollide | src/client/MurmurHash3.cpp:302-408 | For a fixed key the hash is injective in the seed |
| MurmurX64_128.LengthsNeverCollide | src/client/MurmurHash3.cpp:302-408 | Keys whose padded blocks agree and whose lengths do not never collide |
| MurmurValues.NoBlocks | src/client/MurmurHash3.cpp:84-138 | The 32-bit hashes of the empty key under seeds 0 and 1 and of one zero byte |
| MurmurValues.HelloHash | src/client/MurmurHash3.cpp:84-138 | The published 32-bit hash of a key of three words and a tail, which fixes every constant of the loop and the finaliser |
| MurmurValues.FoxQuadHash | src/client/MurmurHash3.cpp:142-298 | The published four words of a key of two blocks and a tail |
| MurmurValues.FoxPairHash | src/client/MurmurHash3.cpp:302-408 | The published two words of the same key |
| ReadPolicy.RangePolicy.Partition | include/replicated-splinterdb/client/read_policy.h:71-84 | No tokens per server throws; otherwise the bounds are the multiples of the range width as 32-bit addition leaves them |
| ReadPolicy.RangePolicy.Next | include/replicated-splinterdb/client/read_policy.h:91-100 | The scan finds the first range that is not below the token, or none |
| ReadPolicy.BoundsAreMultiples | include/replicated-splinterdb/client/read_policy.h:77-83 | Below 2^32 ranges the accumulation never overflows |
| ReadPolicy.ScanDivides | include/replicated-splinterdb/client/read_policy.h:91-100 | The scan equals one division |
| ReadPolicy.SharesAreExact | include/replicated-splinterdb/client/read_policy.h:68-100 | Of all 2^32 tokens each of n servers owns k ranges of (2^32 - 1) / (n k) tokens, rounded down, the first server one token more, and the remainder of that division goes nowhere |
| ReadPolicy.UnroutedAreTheTop | include/replicated-splinterdb/client/read_policy.h:91-100 | The tokens without a server are exactly the greatest ones |
| ClientRouting.Connect | src/client/client.cpp:45-74 | A bad port throws; otherwise the policy gets the ids of the reachable servers, ascending and without duplicates |
| ClientRouting.ReadByHash | src/client/read_policy.cpp:9-13 | The hash of the key, with the fixed seed, chooses the server in closed form |
| ClientRouting.TokenOfHello | src/client/read_policy.cpp:5-13 | The token of one key under the fixed seed 1234567890 |
| ClientRouting.SameServersSameRouting | src/client/client.cpp:45-92 | Clients that reach the same servers agree on every key, whatever order the servers were announced in |
| ClientRouting.RoundRobinPolicy.NextServer | include/replicated-splinterdb/client/read_policy.h:39-43 | Each read goes to the server whose turn it is and passes the turn on |
| ClientRouting.TurnsAreFair | include/replicated-splinterdb/client/read_policy.h:39-43 | Any n reads in a row reach each of n servers once, and no server is ever two reads ahead |
| ClientRetry.SleptIsGeometric | src/client/client.cpp:155-171 | After j pauses 100 (2^j - 1) ms have been slept if and only if j is at most 58, where doubling leaves 64 bits |
| ClientRetry.Client.GetLeaderId | src/client/client.cpp:216-249 | The nested loops with their handler ask the servers in order and return the first live leader, or throw |
| ClientRetry.SearchIsFirstLive | src/client/client.cpp:216-249 | The replies are those given, in order, and only the last can be a live leader |
| ClientRetry.SearchIsBounded | src/client/client.cpp:216-249 | At most servers times retries calls and servers times retries plus one doublings |
| ClientRetry.FailureAsksAll | src/client/client.cpp:216-249 | A search that throws has asked every server |
| ClientRetry.PausesAreCounted | src/client/client.cpp:216-249 | A search pauses once after each reply that names no leader or fails, and once more for each server asked in vain without a failing call; the leader it finds comes from the server after those |
| ClientRetry.Client.TryHandleLeaderChange | src/client/client.cpp:122-136 | Only the replies -3 and -1 start a search; the leader becomes what the search found, never -1, and stays if it throws |
| ClientRetry.Client.RetryMutation | src/client/client.cpp:152-176 | The loop with its three exits and the handler of leader replies is the fold over the rounds: outcome, leader, queries and the time slept, in searches and between attempts |
| ClientRetry.RoundsAreRuns | src/client/client.cpp:152-176 | At most as many calls as retries; a reply of 0 or 999, or a failure, can only be the last; the result is the last reply; every reply of -3 or -1 starts a search; and the time slept is that of the searches made plus, after j leader changes, the first j delays |
| ClientRetry.LedRunsSleepBetweenAttempts | src/client/client.cpp:165-171 | When every server names a leader at once, m replies of -3 or -1 cost m queries and 100 (2^m - 1) ms of sleep, up to m = 58 |
| ClientRetry.Client.Mutate | src/client/client.cpp:178-199 | An unknown leader throws before anything is sent; otherwise the call is the rounds of the loop, every attempt of which goes to the server that led at the start |
| ClientRetry.AttemptReachesLeaderExactly | src/client/client.cpp:152-184 | An attempt reaches the leader known before it, which is the one the last search found, if and only if that is the leader the call began with |
| ClientRetry.MovedLeaderIsMissed | src/client/client.cpp:152-184 | With the leader moved, the old one saying so, every server naming the new one and the new one ready to accept, all attempts still go to the old one and the call fails |
| ClientRetry.OthersDoNotMatter | src/client/client.cpp:152-184 | What any other server would have answered changes nothing about a call |

## Left out

- Raft consensus, elections and membership: NuRaft is not part of this model. That Raft commits in
  order, and only up to where the entries written are the chosen ones, is an assumption of
  `Cluster.ReplicasAgree`.
- SplinterDB is a map with an uninterpreted merge, and a write it rejects changes nothing.
- NuRaft's buffers: integers are little-endian, strings are a 4-byte length and bytes, and a read
  past the end throws. The bytes of one log entry are a parameter.
- Timestamps and checksums of log entries, which the store only copies.
- LogDurability.DurableIsExact: does not cover `flush` or a changed delay, after which the durable
  index can fall. Overwrites have their own condition, in `LogDurability.OverwriteKeepsExact`.
- Weak memory: `RingProtocol` interleaves sequentially consistent steps, while the logger uses
  relaxed loads and stores around its compare-and-swaps.
- The order of messages in the files under concurrency: a put between two slot flushes can be
  written ahead of an earlier one, so only the multiset is stated there. For calls that do not
  overlap the order is proved.
- The ring must have at least one slot, and routing at least one server: the code divides by both.
- SimpleLogger.SimpleLogger.Put: with the mutex taken a put on a dirty slot waits for the flusher,
  which in `SimpleLogger`, where calls run one at a time, would be for ever; that wait is in
  `RingProtocol`.
- Log indices, revisions, cursors and clocks are unbounded; they are 64 bits wide in the program.
  The widths that can matter (limits, tokens, delays, entry sizes, parsed revisions) are modelled.
- RevisionNames.ScanRecovers: revisions that an `int` cannot hold are excluded, as atoi does not
  define them. The path is split from the file name outside the model.
- The position of the stream is the size of the active file; a file that cannot be opened or
  archived, and the output of shell commands, are not modelled.
- `setMaxLogFiles` in the middle of a run; the manager's queue is shared by all loggers and is
  modelled for one of them.
- MurmurX86_32.OneBlockNeverCollides: keys of 2^31 bytes or more are excluded, as the length is an
  `int`; the same holds for the other two hashes. Memory is little-endian.
- The random and the fixed read policies, which decide nothing this code can be held to, and the
  quality of the hash.
- ClientRetry.Client.RetryMutation: with no retries the result is an uninitialised object, shown
  as an undefined outcome. What a call does on the server side is a reply.
- Snapshots, whose methods throw; RPC and msgpack plumbing, start-up, flags, crash dumps and
  console output.
- Locks of the log store: each of its methods runs as one step, although reads of a range take the
  lock once for each entry. A build with assertions stops where `InMemoryLogStore` answers a range
  read with the dummy.
