# Verification of the effective sink and its task framework

This project models the crash-safe logging pipeline of the logger - the sink that buffers encrypted log
items in two memory-mapped caches and drains them into log files, the parser that reads those files
back, the wire format of a log message, and the timers, thread pools and runner registry the sink's
background work runs on - and proves what these parts promise each other.

## How the model is laid out

| file | what it holds |
|---|---|
| `Wrappers.dfy`, `Bytes.dfy` | options; bytes and little-endian integers |
| `Framing.dfy` | the 144-byte chunk header, the 8-byte item header, the writer, and the parser's two loops |
| `Wire.dfy` | the protobuf wire format of `EffectiveMsg`: varints, serializer, decoder, merge, sizes |
| `EffectiveMsg.dfy` | the message object: in-place merge, size computation, serializer into an array, and the formatter |
| `MMapBuffer.dfy` | the memory-mapped buffer: file images, crashes inside a push, the fill after a growth, the object |
| `SinkCore.dfy` | the sink's data and the elementary actions on it, shared by the object and the transition system |
| `SinkProtocol.dfy` | the transition system: any number of threads, the worker step by step, the invariant |
| `SinkInvariant.dfy` | every step keeps the invariant and the order |
| `SinkRuns.dfy` | whole runs with undisturbed claims; flushing and constructing alone, with their termination measure |
| `AnyRuns.dfy` | what every run keeps, however claims are disturbed |
| `LoneFlush.dfy` | a flush with nobody else inside, from whatever state any run reaches, and exactly what it leaves |
| `ConcurrentFlush.dfy`, `FairFlush.dfy` | a flush while other threads log and flush: what holds when it returns, and that it does under a fair scheduler |
| `SinkRecovery.dfy` | crashes at any step, the constructor, recovered contents and order |
| `FillReadings.dfy` | the transition system with the caches' capacities, so that fill readings can be held to what the code reads; runs of one thread |
| `ClaimRaces.dfy` | the order is kept exactly if both gaps of every claim stay undisturbed, with a run for each gap |
| `CrashOrder.dfy` | the two runs that show what a crash can do to the order |
| `Rotation.dfy` | sizes of log files over runs |
| `Pipeline.dfy`, `EndToEnd.dfy` | one message through serializer, compression and encryption and back; log calls to printed messages |
| `SequentialLogging.dfy` | for any messages and any fill readings, a run that logs and flushes them, and what is then read back |
| `EffectiveSink.dfy`, `ObjectRuns.dfy` | the sink object, method by method; what its methods promise as runs of the transition system |
| `Session.dfy` | a program that constructs the object, logs and flushes, and what is then printed |
| `Elimination.dfy` | the removal of old log files |
| `Timer.dfy`, `ExecutorTimer.dfy` | repeated and delayed tasks: the transition system, and the object as runs of it |
| `ThreadPool.dfy`, `RunnerPool.dfy` | the pool behind every runner: the transition system, and the object as runs of it |
| `Registry.dfy` | the registry of task runners |

A sink is described by what a reader would find: `Disk(files)` is what the parser gets out of the log files,
`ParseItems(cache)` what it would get out of a cache. No list of items is kept beside the bytes, except the
history of completed appends that the order is compared with.

The transition system of the sink has a step for every shared access: the two pushes of an item, the
look at the fill, the load, the store and the exchange of a claim, each post, each wait, and seven steps of
the drain task. Which threads move, and when, is open. Order is proved under one assumption on scheduling,
`SinkProtocol.ClaimUndisturbed`: nobody else reads the flag between a claim's load and its store, and the
worker does not test it between the store and the exchange. A claim that is one atomic step satisfies it.
The code does not enforce it (`src/logger/effective_sink.cpp:97-99`), and `ClaimRaces` gives a run for each gap,
with the other gap undisturbed, that breaks the order or loses an item: both halves are needed.

No such assumption is made for the constructor, which puts on disk whatever an earlier process left; for the
return of a flush, alone under any schedule and among other threads under a fair one; for the bound on file
sizes; and for the fact that a taken slave is never stranded. What a lone flush leaves behind is known exactly
in any state: both caches are empty when it returns unless the slave was overlooked when it began, that is, held
bytes with its flag free or about to be set free (`LoneFlush.Overlooked`). Undisturbed claims exclude that.

What a look at the master's fill reads is left open in the transition system, so what is proved of all runs
holds of the code's. Where a run that logs is shown to exist, it is one of `FillReadings`: the capacities of the
caches are carried along, and every reading is the one the code makes (`SequentialLogging` has, besides, a
run for any other list of readings).

## Where the code falls short

- A claim is three separate accesses; the order is kept exactly if both gaps between them stay undisturbed
  (`ClaimRaces.OrderKeptIff`). Disturbed, a claim reorders items (`ClaimRaces.TestInClaimBreaksOrder`) or loses
  them (`ClaimRaces.ReadInClaimLoses`), with payloads large enough to fill the caches.
- After a disturbed claim, a flush by the only thread can return with logged items still in the master and not on
  disk (`ClaimRaces.FlushMissesItems`). It leaves items in a cache exactly if the slave was overlooked when it
  began (`LoneFlush.FlushCompletes`).
- After a crash the order is restored exactly in the cases of `SinkRecovery.RecoveryOrderIff`: slave_cache always goes
  first, although after an odd number of exchanges it holds the newer items (`CrashOrder.CrashReverses`); and a
  chunk that was written but not yet cleared comes twice (`CrashOrder.CrashRepeats`).
- A growth of the buffer leaves it more than four fifths full exactly for page sizes below 128 KiB
  (`MMapBuffer.GrowthLeavesNearlyFullIff`).
- An item's length is cut to 32 bits (`Framing.CutIsIdentityIff`), and the number of repetitions of a timer task, taken as
  64 bits, is used as a signed 32-bit number (`Timer.NarrowIff`).
- The compressor refuses empty input, so a message all of whose fields are zero or empty would be dropped
  (`Pipeline.SealedIsReadBack`). The sink's own formatter makes no such message, as it always puts in a process id;
  another formatter could.
- The parser does not look at whether decoding succeeded, so a message comes back exactly if every non-empty string
  that a later non-empty one follows is valid (`Wire.ReadableIff`): log text may be any bytes, but behind an invalid
  file or function name the rest of the message is missing.
- `WAIT_TASK_IDLE` waits for all earlier tasks exactly because a runner has one worker (`ThreadPools.BarrierSoundIff`).
- Cancelling a repeated task does not stop a run whose check came before the cancel, and only such a run
  (`Timer.CancelFailsIff`, `Timer.RunsAfterCancel`).
- The repository's README describes a 64-byte chunk header and string tags for runners; the code has 144 bytes
  and unsigned 64-bit tags, and the model follows the code.

## Model

| member | source | states |
|---|---|---|
| Framing.FrameItemParses | src/logger/effective_sink.cpp:131-136 | an item as the sink frames it parses as exactly its payload, cut to the 32-bit length the sink passes |
| Framing.ParseInvertsFrame | tools/log_parser.cpp:151-176 | the item loop inverts the framing for every list of payloads |
| Framing.CutIsIdentityIff | src/logger/effective_sink.cpp:131-133 | a payload comes back unchanged exactly when its length fits 32 bits |
| Framing.ParseItemsAppend | tools/log_parser.cpp:151-176 | complete items parse the same whatever follows them |
| Framing.TornTail | tools/log_parser.cpp:151-176 | complete items and then any strict prefix of an item, a header without payload included, parse as exactly the complete items |
| Framing.ParseFileAppend | tools/log_parser.cpp:120-177 | complete chunks parse the same whatever follows them, and the exit status is that of what follows |
| Framing.TornChunk | tools/log_parser.cpp:120-149 | a strict prefix of a chunk yields no entry; status 0 inside the header, 1 inside the data |
| Framing.ParseInvertsWrite | tools/log_parser.cpp:120-177 | the parser inverts the writer on every list of chunks and reports success |
| Framing.ParsePrefix | tools/log_parser.cpp:120-177 | every byte prefix of a written file yields exactly the entries of the chunks complete in it |
| Framing.ParseChunkData | tools/log_parser.cpp:151-176 | the item loop, on arbitrary bytes, ends and returns what the recursive parser defines; nothing if the first item header does not begin with the bytes 11 ba 5f be |
| Framing.ParseLogFile | tools/log_parser.cpp:120-179 | the chunk loop, on arbitrary bytes, ends and returns the entries and exit status the recursive parser defines; no entry and status 1 if the first chunk header does not begin with the bytes 00 11 da da ef be ad de |
| Framing.SuccessIff | tools/log_parser.cpp:120-179 | on arbitrary bytes the status is 0 exactly if complete chunks are followed by fewer than 144 bytes, and else 1 |
| Framing.ItemLayout | src/logger/effective_sink.cpp:131-136 | an item byte by byte: the magic, the length's four bytes, lowest first, and the payload, of any length |
| Framing.ChunkLayout | include/logger/effective_sink.hpp:12-19 | a chunk byte by byte: the magic, the length's eight bytes, the key field, the data |
| Wire.VarintReadsBack | src/logger/proto/effective_msg.pb.cc:365-408 | Base 128 Varints: a value below 128^k takes at most k bytes and reads back |
| Wire.VarintSizeIsExact | src/logger/proto/effective_msg.pb.cc:487-521 | the computed size of a varint is the number of bytes written, for every 64-bit value |
| Wire.VarintBytes | src/logger/proto/effective_msg.pb.cc:365-408 | Base 128 Varints: byte i is group i of seven bits, lowest first, with the top bit set on all but the last |
| Wire.FieldNumbers | src/logger/proto/effective_msg.proto:6-15 | the tag of each field is its number in the message definition times eight, plus the wire type |
| Wire.InFieldOrder | src/logger/proto/effective_msg.pb.cc:361-446 | fields are written in the order of their numbers |
| Wire.SignedReadBack | src/logger/proto/effective_msg.pb.cc:53-72 | int32 and int64 survive the two's complement encoding, negatives included; only zero encodes as zero |
| Wire.NegativeTakesTenBytes | src/logger/proto/effective_msg.pb.cc:365-408 | Signed Integers: a negative value takes ten bytes |
| Wire.ParseSerializedMerges | src/logger/proto/effective_msg.pb.cc:50-83 | decoding a message's bytes into a message already filled in merges the two, and goes on behind it |
| Wire.RoundTrip | src/logger/proto/effective_msg.pb.cc:361-446 | decoding the bytes of any message with valid strings gives back its field values |
| Wire.RoundTripIff | src/logger/proto/effective_msg.pb.cc:410-438 | it does so exactly when the validator accepts each non-empty string |
| Wire.ParseSerialized | src/logger/proto/effective_msg.pb.cc:50-83 | decoding the bytes of any message, valid or not: success exactly for valid strings, and otherwise the fields up to and including the first invalid string |
| Wire.ReadableIff | tools/log_parser.cpp:65-77 | a reader that ignores the decoder's failure gets the message back exactly when every non-empty string that a later non-empty one follows is valid |
| Wire.ConcatenationMerges | src/logger/proto/effective_msg.pb.cc:530-600 | Last One Wins: two messages back to back decode as their merge |
| Wire.MergeIsMonoid | src/logger/proto/effective_msg.pb.cc:530-600 | merging is associative, with the default message as identity on both sides |
| Wire.SerializeIsInjective | src/logger/proto/effective_msg.pb.cc:361-446 | different messages have different bytes |
| Wire.EmptyBytesIffDefault | src/logger/proto/effective_msg.pb.cc:361-446 | no bytes at all are written exactly for the default message |
| Wire.SerializeLength | src/logger/proto/effective_msg.pb.cc:457-527 | the field sizes, in the order of the size computation, add up to the length of the bytes |
| EffectiveMsgs.WriteVarint | src/logger/proto/effective_msg.pb.cc:365-408 | writes a varint at the target, advances it, touches nothing else |
| EffectiveMsgs.WriteVarintField | src/logger/proto/effective_msg.pb.cc:365-408 | a number field in place: nothing when zero, tag and value otherwise |
| EffectiveMsgs.WriteStringField | src/logger/proto/effective_msg.pb.cc:410-438 | a string field in place: nothing when empty, tag, length and bytes otherwise |
| EffectiveMsgs.EffectiveMsg.MergeImpl | src/logger/proto/effective_msg.pb.cc:530-600 | the in-place merge is the merge that decoding a concatenation amounts to |
| EffectiveMsgs.EffectiveMsg.ByteSizeLong | src/logger/proto/effective_msg.pb.cc:457-527 | returns exactly the number of bytes the serializer writes, for every message |
| EffectiveMsgs.EffectiveMsg.InternalSerialize | src/logger/proto/effective_msg.pb.cc:361-446 | writes the message's bytes from the target on and nothing behind them |
| EffectiveMsgs.Fromat | src/logger/proto/effective_formatter.cpp:10-27 | the destination holds the message's bytes and no others: sizing it by the size computation is exact; with valid file and function names, whoever decodes it finds level, clock, ids, line, file name, function name and text of the call, each in its field |
| EffectiveMsgs.FormattedFields | src/logger/proto/effective_formatter.cpp:10-27 | decoding what the formatter writes gives every field of the call its own value, as far as strings are valid: the text is missing only behind an invalid file or function name |
| MMapBuffer.RoundUpBounds | src/logger/mmap/mmap.cpp:54-57 | the smallest multiple of the page size that is not below the size: less than a page of slack |
| MMapBuffer.OpenKeepsContent | src/logger/mmap/mmap.cpp:17-21 | reopening a file this code wrote keeps its content |
| MMapBuffer.OpenReads | src/logger/mmap/mmap.cpp:17-52 | opening keeps the content of a file this code wrote and makes any file empty that does not begin with the magic, however short |
| MMapBuffer.OpenableFiles | src/logger/mmap/mmap.cpp:46-52 | these files, and a new one, can all be opened |
| MMapBuffer.FreshOpenIsCrashAtomic | src/logger/mmap/mmap.cpp:46-52 | a crash while a new file is being opened leaves it so that it opens empty again |
| MMapBuffer.OpenCapacityBounds | src/logger/mmap/mmap.cpp:17-21 | how much of a file is mapped on opening: less than a page more than it and 512 KiB need, and an aligned file of that size as it is |
| MMapBuffer.OpeningTwice | src/logger/mmap/mmap.cpp:17-52 | opening a file that has been opened before changes nothing in it |
| MMapBuffer.PushStepKeepsInv | src/logger/mmap/mmap.cpp:35-39 | every step of a push - remap, copying a byte in any order, storing the size - leaves the file as the invariant says |
| MMapBuffer.PushIsCrashAtomic | src/logger/mmap/mmap.cpp:35-65 | reopening after a crash at any step of a push gives exactly the old content, or exactly the new one once the size is stored |
| MMapBuffer.PushAppends | src/logger/mmap/mmap.cpp:35-39 | a whole push appends the data to the content and the size |
| MMapBuffer.PushesAppend | src/logger/mmap/mmap.cpp:35-65 | any number of pushes over any number of growths append; the file never shrinks and stays page-aligned |
| MMapBuffer.ClearIsUndoneByResize | src/logger/mmap/mmap.cpp:26-33 | clearing only resets the size: restoring it brings the content back |
| MMapBuffer.GrowthFill | src/logger/mmap/mmap.cpp:41-65 | growing leaves less than a page of slack and, for pages below 128 KiB, a fill above 0.8 |
| MMapBuffer.GrowthLeavesNearlyFullIff | src/logger/mmap/mmap.cpp:41-65 | growing always leaves a fill above 0.8 exactly for page sizes below 128 KiB |
| MMapBuffer.MMapAux.constructor | src/logger/mmap/mmap.cpp:17-21 | opens a new file and any without the magic as empty, and any other with its content; capacity page-aligned, at least the file's length and 512 KiB, less than a page above the larger of these, and the file's own length if that is aligned and at least 512 KiB |
| MMapBuffer.MMapAux.Reserve | src/logger/mmap/mmap.cpp:59-65 | capacity never shrinks, covers the request, and keeps the content |
| MMapBuffer.MMapAux.Push | src/logger/mmap/mmap.cpp:35-39 | refines sequence append, grown or not, and says when it grows |
| MMapBuffer.MMapAux.Resize | src/logger/mmap/mmap.cpp:26-29 | sets the size; the common prefix of old and new content stays |
| MMapBuffer.MMapAux.Clear | src/logger/mmap/mmap.cpp:33 | the content is empty, the capacity as before |
| MMapBuffer.MMapAux.RatioAbove80 | src/logger/mmap/mmap.cpp:41-44 | the used part of the room behind the header, as a ratio, is above 0.8 |
| SinkCore.ChunkBehind | src/logger/effective_sink.cpp:153-162 | a chunk written behind complete chunks adds exactly the slave's items to what is read; a strict prefix of it adds nothing |
| SinkCore.ChosenFile | src/logger/effective_sink.cpp:182-204 | the file a chunk goes into is within the limit and holds only complete chunks; a file is begun exactly when there is none or the current one is over the limit; nothing on disk changes |
| SinkCore.DrainPutsOnDisk | src/logger/effective_sink.cpp:143-167 | the drain of a taken slave puts its items behind everything on disk, empties and frees it, and leaves the master alone |
| SinkInvariant.InvKept | src/logger/effective_sink.cpp:53-167 | every undisturbed step of every thread and of the worker keeps: free slave is empty, worker past its test means taken, one claim at a time, barriers match waiters, files and master well formed |
| SinkInvariant.KeepsNotStrandedThreads | src/logger/effective_sink.cpp:96-107 | a taken slave is not stranded by any thread's step, from any state and under any scheduling: a drain is queued, running, or about to be posted by the claimer |
| SinkInvariant.KeepsNotStrandedWork | src/logger/effective_sink.cpp:143-166 | nor by any step of the worker |
| SinkInvariant.TotalKept | src/logger/effective_sink.cpp:74-167 | disk, slave and master together change only by the payload whose append completes |
| SinkRuns.OrderIsKept | src/logger/effective_sink.cpp:74-167 | in every state of any interleaving that leaves claims undisturbed: disk, then the slave unless already written, then the master, are exactly the payloads logged, in order |
| SinkRuns.NeverStranded | src/logger/effective_sink.cpp:53-167 | in every state that any run reaches over whatever an earlier process left, disturbed claims included, a taken slave has a drain queued, running, or about to be queued |
| SinkRuns.SoloStepDecreases | src/logger/effective_sink.cpp:113-125 | every step of a flushing or constructing thread decreases the termination measure |
| SinkRuns.SoloWorkDecreases | src/logger/effective_sink.cpp:143-166 | so does every step of the worker meanwhile |
| SinkRuns.UndisturbedFlush | src/logger/effective_sink.cpp:113-125 | with undisturbed claims before it, a flush by one caller returns with both caches empty, the slave free and everything logged on disk |
| SinkRuns.FlushCanStart | src/logger/effective_sink.cpp:113-116 | such a flush can start |
| AnyRuns.AnyRunWorks | src/logger/effective_sink.cpp:53-167 | in every state that any run reaches over whatever an earlier process left, disturbed claims included: a thread waits exactly while its barrier is queued, at most one holds the mutex, and the worker finds the file it is to write to |
| LoneFlush.FinishStep | src/logger/effective_sink.cpp:143-167 | a step of the worker inside the drain task leaves what the task is going to end with as it was, in any state |
| LoneFlush.LoneStep | src/logger/effective_sink.cpp:113-125 | so does a step of the worker or of a lone flushing thread with what the flush is going to end with; each comes closer to that end |
| LoneFlush.FlushOutcome | src/logger/effective_sink.cpp:113-125 | wherever the worker is in a drain: what a flush leaves is a free and empty slave and, in the master, exactly the bytes of an overlooked slave |
| LoneFlush.FlushCompletes | src/logger/effective_sink.cpp:113-125 | a flush by one caller from any state that any run reaches, disturbed claims included, is bounded, can always go on, and returns with the same caches and files under every schedule; both caches are empty and the slave free exactly if the slave was not overlooked at its beginning; with undisturbed claims before it everything logged is on disk |
| LoneFlush.FlushHasEnd | src/logger/effective_sink.cpp:113-125 | from any such state a flush with nobody else inside has a run that returns |
| LoneFlush.FlushAfterAnyRun | src/logger/effective_sink.cpp:53-125 | over any run on whatever an earlier process left, a lone flush after it can always go on, and empties both caches exactly if the slave was not overlooked |
| ConcurrentFlush.StagesKept | src/logger/effective_sink.cpp:113-125 | every step of the flushing thread, of any other and of the worker keeps what holds at the flush's stage: the flag seen free, then the earlier payloads handed over, then on disk |
| ConcurrentFlush.FlushCoversEarlier | src/logger/effective_sink.cpp:113-125 | when a flush returns, everything logged before it began is on disk, first and in order, whatever other threads log and flush meanwhile |
| FairFlush.MutexComesFree | src/logger/effective_sink.cpp:138-141 | in a fair execution, however claims are disturbed, the mutex comes free again and again |
| FairFlush.MomentKeeps | src/logger/effective_sink.cpp:113-125 | in any execution a step of the flushing thread, or of the worker while it waits, brings the flush closer to its end; no other step takes it back |
| FairFlush.FairFlushReturns | src/logger/effective_sink.cpp:113-125 | in any fair execution a flush returns, whatever the other threads log and flush and however claims are disturbed; if they are undisturbed, with everything logged before it began on disk |
| FairFlush.LoneFlushIsFair | src/logger/effective_sink.cpp:113-125 | fair executions exist: a flush with nobody else inside, from any state that any run reaches, is one |
| FairFlush.OverlapIsFair | src/logger/effective_sink.cpp:74-125 | so is a flush during which another thread makes a whole log call; claims are undisturbed in it |
| SinkRecovery.DiskAfterCrash | src/logger/effective_sink.cpp:157-162 | after a crash at any byte of a chunk being written, its items are readable only if all of it got there |
| SinkRecovery.CrashConserves | src/logger/effective_sink.cpp:53-68 | a crash at any step loses no item, and repeats the slave's only if it fell between their write and the clearing |
| SinkRecovery.NothingIsLost | src/logger/effective_sink.cpp:53-167 | through any number of crashes and restarts, the items on disk and in the caches are, with multiplicity, those logged plus those so repeated |
| SinkRecovery.ConstructorCompletes | src/logger/effective_sink.cpp:53-68 | over whatever caches and files an earlier process left, by a crash at any step of any run, the constructor is bounded, can always go on until it returns, and keeps what was left |
| SinkRecovery.RecoveredDisk | src/logger/effective_sink.cpp:53-68 | construct and flush over whatever was left: on disk are what was there, then slave_cache's items, then master_cache's |
| SinkRecovery.RecoveryHasEnd | src/logger/effective_sink.cpp:53-68 | over whatever was left, the constructor and then a flush have runs that return, with that on disk |
| SinkRecovery.RecoveryOrderIff | src/logger/effective_sink.cpp:53-68 | this is the logging order exactly when nothing is repeated and the caches were exchanged evenly often or their items read the same in either order: so if one is without items, and only then if no two payloads are equal |
| CrashOrder.CrashReverses | src/logger/effective_sink.cpp:53-68 | for any large payload and any second one, an undisturbed run with the code's fill readings, a crash, a constructor's run and a flush that leave the second before the first on disk |
| CrashOrder.CrashRepeats | src/logger/effective_sink.cpp:157-166 | the same with a crash between the write and the clearing: the payload is on disk twice |
| CrashOrder.CrashIsRecovered | src/logger/effective_sink.cpp:53-68 | a crash at any byte of any state that any run reaches, disturbed claims included, can be recovered from: then on disk are the complete chunks it left, slave_cache's items and master_cache's |
| FillReadings.AdvanceIsRun | src/logger/effective_sink.cpp:127-129 | a run with capacities and fill readings is a run of the transition system |
| FillReadings.FirstItemFill | src/logger/effective_sink.cpp:127-136 | a first item of four pages and 512 KiB or more leaves a new cache above 0.8, one of at most 400000 bytes does not |
| FillReadings.ItemLeavesNearlyFull | src/logger/mmap/mmap.cpp:41-65 | an item that fills its cache beyond 0.8 at the present capacity does so whether or not the cache grows |
| ClaimRaces.TestInClaimBreaksOrder | src/logger/effective_sink.cpp:96-102 | for any four payloads of which the first two and the last are large, a run with one thread and the code's fill readings in which only the worker's test disturbs a claim: they end up in the order 1, 4, 2, 3 |
| ClaimRaces.FlushMissesItems | src/logger/effective_sink.cpp:96-125 | for any two large payloads and any short one, a run with one thread and the code's fill readings in which only the worker's test disturbs a claim, and then a flush that returns with the first payload on disk and the other two in the master |
| ClaimRaces.ReadInClaimLoses | src/logger/effective_sink.cpp:96-102 | for any large, any, and any small payload, a run with two threads and the code's fill readings in which only a second read disturbs a claim: 1, 2, 1, 2 is left, and 3 is lost |
| ClaimRaces.OrderKeptIff | src/logger/effective_sink.cpp:96-102 | in all states reached from a new directory with the code's fill readings the order is kept, exactly if both gaps of every claim stay undisturbed |
| Rotation.RunRotates | src/logger/effective_sink.cpp:182-204 | over any undisturbed run, all but the last file are over the limit, each ends in one complete chunk that began within it, and a chunk begins only in a file within it |
| Rotation.FilesStayBounded | src/logger/effective_sink.cpp:143-204 | over any run on whatever an earlier process left, disturbed claims included, a file is at most the limit plus 144 bytes plus the data written to it last; all but the last are over the limit |
| Rotation.FilesEndInChunk | src/logger/effective_sink.cpp:143-204 | over any undisturbed such run, that last data is one complete chunk behind at most the limit |
| Pipeline.SealedIsReadBack | tools/log_parser.cpp:58-79 | the log pipeline fails exactly on the default message; of any other the parser sees what decoding leaves, and the message itself exactly when it is readable |
| Pipeline.FormattedIsReadBack | src/logger/proto/effective_formatter.cpp:10-27 | no message the sink's formatter makes is dropped, as its process id is positive; it is read back unchanged exactly when it is readable, and always with the call's own values in its fields, but for strings behind an invalid one |
| Pipeline.EntryIsReadBack | tools/log_parser.cpp:58-79 | an entry whose decryption or decompression fails prints nothing, and any other exactly one message |
| EndToEnd.LoggedInCallOrder | src/logger/effective_sink.cpp:78-94 | what is logged, and what is just being logged, are the payloads in the order in which the calls took the mutex |
| EndToEnd.CallsAreReadBack | tools/log_parser.cpp:58-79 | reading back the payloads of the log calls gives all their messages, as far as decoding gets |
| EndToEnd.AllSeenIff | tools/log_parser.cpp:65-77 | decoding leaves a list of messages unchanged exactly when all of them are readable |
| EndToEnd.EachIsShown | tools/log_parser.cpp:65-77 | there is one message for each log call, at the place of the call among the log calls, with the call's own values |
| EndToEnd.FilesAreReadBack | tools/log_parser.cpp:105-180 | parsing this sink's files one by one under the server's key gives the payloads on disk, in order |
| EndToEnd.LoggedIsPrinted | tools/log_parser.cpp:105-180 | any crash-free run from a new directory, then a flush: the parser prints one message for every log call, in order, with the call's own values in its fields, and exactly the logged ones if and only if all are readable; every file parses on its own without an error |
| SequentialLogging.LogFlushRead | src/logger/effective_sink.cpp:74-125 | for any readable messages and any outcomes of the looks at the fill, and for those the code makes: one thread that constructs, logs them all and flushes has a run that returns, and reading the files back gives exactly these messages |
| EffectiveSinks.DrainIsSane | src/logger/effective_sink.cpp:143-167 | after a drain from any sane state the slave is free and empty and its items are on disk |
| EffectiveSinks.FlushEmptiesCaches | src/logger/effective_sink.cpp:113-125 | a flush leaves both caches empty, the slave's items on disk before the master's |
| EffectiveSinks.RecoveryConserves | src/logger/effective_sink.cpp:53-68 | the constructor adds and loses nothing, with slave_cache's items before master_cache's; a flush then puts them on disk |
| EffectiveSinks.FoundIsKept | src/logger/effective_sink.cpp:40-70 | what the constructor leaves holds everything it found in the files and the two caches, slave_cache first, under the client's key |
| EffectiveSinks.EffectiveSink.constructor | src/logger/effective_sink.cpp:40-70 | leaves the sink as the recovery function says of the files found, with one drain queued if the master held anything; the client's key is at the front of the key field of every chunk header |
| EffectiveSinks.EffectiveSink.Recover | src/logger/effective_sink.cpp:53-68 | the two halves of recovery, the first of which waits |
| EffectiveSinks.EffectiveSink.Log | src/logger/effective_sink.cpp:74-103 | appends exactly one framed item or, if a stage fails, changes nothing; says how the capacity grows; asks for a drain, claiming a free slave, exactly when the master is then nearly full; always does so if the append grew the master (pages below 128 KiB) |
| EffectiveSinks.EffectiveSink.Flush | src/logger/effective_sink.cpp:113-125 | both caches empty, slave free, on disk the slave's items and then the master's behind what was there |
| EffectiveSinks.EffectiveSink.WriteToCache | src/logger/effective_sink.cpp:131-136 | appends the item's frame; if that grew the buffer it is nearly full |
| EffectiveSinks.EffectiveSink.ClaimIfFree | src/logger/effective_sink.cpp:97-100 | a free slave is marked taken and the caches are exchanged; otherwise nothing changes |
| EffectiveSinks.EffectiveSink.SwapCache | src/logger/effective_sink.cpp:138-141 | exchanges the cache objects, and with them which file is the master's |
| EffectiveSinks.EffectiveSink.CacheToFile | src/logger/effective_sink.cpp:143-167 | the drain task, both early exits included, is the drain about which everything else is proved |
| EffectiveSinks.EffectiveSink.UpdateFilePath | src/logger/effective_sink.cpp:182-204 | afterwards the current file is within the limit and holds only complete chunks; no file that was there is touched, and what is read from disk stays the same |
| EffectiveSinks.EffectiveSink.WaitTaskIdle | include/logger/context/entry.hpp:24-27 | works off all queued drains, however many; more than one are as good as one |
| EffectiveSinks.ItemPush | src/logger/effective_sink.cpp:131-136 | two pushes, either of which may grow the buffer, append header and data |
| Sessions.DrainKeepsOurs | src/logger/effective_sink.cpp:143-204 | a drain, whatever the state of the sink, leaves the files found as they were and only complete chunks under the sink's own key behind them, and loses nothing logged |
| Sessions.LogAndFlush | tools/test_roundtrip.cpp:16-39 | a program on the sink object: construct over empty caches and any log files, log any messages, the runner working off its queue between any two calls or not, and flush; reading the new files with the server's key prints one message for each call, in order, with the call's own values, and each file parses without an error |
| ObjectRuns.LogIsRun | src/logger/effective_sink.cpp:74-103 | what a log call on the object promises is a run of the transition system in which the fill is read as the code reads it |
| ObjectRuns.DrainsAreRun | src/logger/effective_sink.cpp:143-167 | any number of queued drain tasks, worked off step by step, come to one drain |
| ObjectRuns.FlushIsRun | src/logger/effective_sink.cpp:113-125 | so is what a flush on the object promises, both waits included |
| ObjectRuns.RecoveryIsRun | src/logger/effective_sink.cpp:53-68 | so is what the constructor promises, whatever it finds |
| Elimination.UsedIsSize | src/logger/effective_sink.cpp:220-224 | the running total is the total size of the files seen, in whatever order |
| Elimination.KeepsNewestWithinLimit | src/logger/effective_sink.cpp:207-229 | kept log files are within the limit, none is older than a removed one, with the newest removed one they exceed it, and other files stay |
| Elimination.NothingRemovedIff | src/logger/effective_sink.cpp:220-228 | nothing is removed exactly when all log files are within the limit |
| Elimination.KeptIff | src/logger/effective_sink.cpp:216-228 | a log file of an age of its own is kept exactly when the files at least as new as it are within the limit, whatever order ties come in |
| Elimination.SinkFilesAreLogs | src/logger/effective_sink.cpp:169-204 | every name that the sink gives a log file has the extension, and neither cache's name has |
| Elimination.LogDirectory.ElimateFiles | src/logger/effective_sink.cpp:207-229 | keeps exactly the longest newest-first prefix of the log files within the limit; every file that does not end in .log, the two caches among them, is still there |
| Elimination.LogDirectory.CollectLogs | src/logger/effective_sink.cpp:209-214 | lists once every file whose name is something followed by .log, and no other |
| Elimination.SortNewestFirst | src/logger/effective_sink.cpp:216-218 | the same names, newest first |
| Timer.DueIff | src/logger/context/executor_timer.cpp:55-56 | an entry is fired when less than one microsecond is left, because the difference is truncated |
| Timer.NarrowIff | src/logger/context/executor.cpp:34-37 | the number of repetitions asked for is the one used exactly below 2^31; in any case the two differ by a multiple of 2^32 |
| Timer.InvKept | src/logger/context/executor_timer.cpp:46-115 | every step of every thread keeps: one occurrence or entry for each id, runs done and left add up, deadlines follow the last run |
| Timer.RepeatsExactly | src/logger/context/executor_timer.cpp:80-103 | not cancelled: n >= 0 runs at most n times and exactly n once drained; n < 0 always has a successor; consecutive runs are more than a period less a microsecond apart |
| Timer.DelayedRunOnce | src/logger/context/executor_timer.cpp:46-78 | over any run, every delayed task posted is run once or still queued, with multiplicity, and nothing else is run as one |
| Timer.CancelledStaysCancelled | src/logger/context/executor_timer.cpp:88-115 | after a cancel at most one more run, and none unless its check came before the cancel |
| Timer.CancelFailsIff | src/logger/context/executor_timer.cpp:88-115 | a cancelled task can still run exactly when an occurrence of it has been checked and has not begun |
| Timer.RunsAfterCancel | src/logger/context/executor_timer.cpp:80-115 | such a run: post, check, cancel, and then the task runs |
| ExecutorTimers.OccurrenceFollows | src/logger/context/executor_timer.cpp:87-103 | an occurrence run to completion - check, run, push - is a run of the transition system |
| ExecutorTimers.ExecutorTimer.PostDelayedTask | src/logger/context/executor_timer.cpp:68-78 | queues one entry, a delay after now |
| ExecutorTimers.ExecutorTimer.PostOccurrence | src/logger/context/executor_timer.cpp:87-103 | nothing if cancelled or done; otherwise one run and one successor, a period after the push |
| ExecutorTimers.ExecutorTimer.PostRepeatedTask | src/logger/context/executor_timer.cpp:80-85 | a new id, and the first run at once unless none is asked for |
| ExecutorTimers.ExecutorTimer.PostThroughExecutor | src/logger/context/executor.cpp:34-37 | the number posted is the narrowed one, so nothing is run for a multiple of 2^32 |
| ExecutorTimers.ExecutorTimer.CancelRepeatedTask | src/logger/context/executor_timer.cpp:113-115 | the id is no longer live; entries stay queued |
| ExecutorTimers.ExecutorTimer.Top | include/logger/context/executor_timer.hpp:16 | an entry with the earliest deadline |
| ExecutorTimers.ExecutorTimer.Turn | src/logger/context/executor_timer.cpp:54-64 | fires exactly when some entry is due; then an entry with the earliest deadline leaves the queue and its task, once, is run |
| ExecutorTimers.ExecutorTimer.RunLoop | src/logger/context/executor_timer.cpp:46-66 | the timer thread's loop, over any clock readings, is a run of the transition system; each turn, if an entry is due within a microsecond, takes one with the earliest deadline and runs its task once, a repeated one's successor being queued, and else only lets time pass; it stops early only with an empty queue |
| ExecutorTimers.DueAreRun | src/logger/context/executor_timer.cpp:46-66 | when only delayed tasks are queued and all are due, as many turns of that loop as there are entries run each of them once, and nothing else |
| ThreadPools.StartedIsPrefix | src/logger/context/threadpool.cpp:30-85 | over any run, stops and restarts included, started then queued tasks are the accepted ones, with any number of workers |
| ThreadPools.StartedIsCompleted | src/logger/context/threadpool.cpp:66-85 | over any run, with any number of workers, every started task is completed once or being run, and after a stop all started tasks are completed |
| ThreadPools.BarrierSoundIff | include/logger/context/entry.hpp:24-27 | completed tasks are always a prefix of the accepted ones exactly with at most one worker |
| ThreadPools.TwoWorkersOvertake | src/logger/context/threadpool.cpp:66-85 | with two workers, a run in which the second task completes before the first |
| ThreadPools.RunnerGoesOn | src/logger/context/threadpool.cpp:66-85 | while a runner has anything left its worker can move, and each turn leaves one less |
| ThreadPools.WaitEnds | include/logger/context/entry.hpp:24-27 | a wait for idle ends after exactly as many turns as are left, and not before, with all accepted tasks completed |
| RunnerPools.ThreadPool.EnqueueTask | src/logger/context/threadpool.cpp:30-41 | accepts exactly while the pool is up |
| RunnerPools.ThreadPool.Start | src/logger/context/threadpool.cpp:43-54 | starts all workers unless up; the queue left by a stop is kept |
| RunnerPools.ThreadPool.Stop | src/logger/context/threadpool.cpp:55-64 | every worker finishes its task and exits; nothing else is started, nothing queued is lost |
| RunnerPools.ThreadPool.Turn | src/logger/context/threadpool.cpp:67-85 | one turn of a worker's loop is the transition system's |
| RunnerPools.ThreadPool.WaitTaskIdle | include/logger/context/entry.hpp:24-27 | ends, with everything accepted completed in order |
| Registry.HasFreeIff | src/logger/context/executor_context.cpp:15-20 | a tag is free exactly when fewer than 2^64 are registered |
| Registry.SearchStopsIff | src/logger/context/executor_context.cpp:17-30 | the search from any counter, wrapping around, meets a free tag exactly when the registry is not full |
| Registry.ExecutorContext.FreeTag | src/logger/context/executor_context.cpp:17-20 | ends; returns the tag asked for if free, else the first free one after the counter |
| Registry.ExecutorContext.AddTaskRunner | src/logger/context/executor_context.cpp:15-25 | registers a new started runner with one worker under a tag not in use and leaves every other runner in place |
| Registry.ExecutorContext.GetTaskRunner | src/logger/context/executor_context.cpp:32-38 | a runner exactly if the tag is registered; it is up, and is no other tag's |
| Registry.ExecutorContext.PostTask | src/logger/context/executor.cpp:20-27 | one task more for the runner of the tag and for no other; dropped without one |

## Left out

- Order under a disturbed claim: the code allows it; it fails exactly then (`ClaimRaces.OrderKeptIff`), and the order is proved for undisturbed claims only.
- EndToEnd.LoggedIsPrinted: crash-free runs of one sink without elimination; a chunk recovered after a restart is under a new key, so recovery is stated on encrypted items.
- Sessions.LogAndFlush: all messages together fit into one cache, and the runner works off its queue between calls only; other threads are in the transition system.
- Rotation.FilesStayBounded: takes every new file name as fresh; the branch for a name in use (`src/logger/effective_sink.cpp:190-197`) never changes the name it tests, so it need not end.
- SinkRecovery.RecoveredDisk: takes the first file of a process as new too. The code tests nothing there (`src/logger/effective_sink.cpp:182-184`), so a restart within the same second appends to the earlier process's last file, where a torn chunk may swallow what follows.
- MMapBuffer.MMapAux.constructor: a file with the right magic that announces more than its capacity is not checked by the code and not modelled.
- MMapBuffer.MMapAux.RatioAbove80: the comparison with 0.8 in exact arithmetic; the rounding of the double is not modelled.
- EffectiveMsgs.Fromat: messages of 2^31 bytes or more are excluded here and in the pipeline, as the code passes the size as a signed 32-bit integer and the library refuses to write them.
- Wire.RoundTrip: the decoder is the tag table's; unknown fields, tags in longer encodings, and the library's own parser are not part of this model. The UTF-8 validator is a parameter.
- Pipeline.SealedIsReadBack: compression, encryption and key agreement are assumed to undo each other; the parser's behaviour on a failed key agreement is left out.
- The padding behind the public key in a chunk header is whatever memory held; the model takes one value for it, which no reader looks at.
- Timer.InvKept: the lookup of an id, the insertion and the cancel are single steps, although the code does not lock its set of ids.
- Timer.RepeatsExactly: a run is a run by the timer. What is posted through the executor only hands the caller's task to a runner, so runs handed over before a cancel still happen after it.
- RunnerPools.ThreadPool.Start: starts and stops are made by one caller at a time, as the code's owners do.
- Elimination.LogDirectory.ElimateFiles: the running total does not wrap around, as the files are on one disk; failures of the file system are left out, and so is elimination while a drain is writing.
- The master's fill is read by a log call without the lock; the read is one step here.
- ClaimRaces.OrderKeptIff: page sizes up to about 1 GiB, so that a payload of four pages and 512 KiB has a 32-bit length.
- The runner's queue holds elimination tasks besides drains and barriers; they touch nothing the sink's transition system is about and are left out of it.
- Sums of sizes beyond 2^64, allocation failures, and other exceptions of the library and the operating system.
- Starting and destroying the timer's thread, condition variables and spurious wake-ups: a thread that waits is a thread that does not move.
- The console sink, the default formatter, level names, colours and time formatting of printed entries: output only.
