# logd in Dafny

logd is a single-node, partitioned, append-only log server with a text wire protocol and a batching
client. A topic is a directory of partition files; a partition file is a concatenation of batches
exactly as they came over the wire, and the offset of a batch is the number of bytes accepted before it.
This project models the part of logd that has to keep those byte counts right, and proves what the
system promises about them.

The model follows the code's own layers.

* **Wire format.** `Decimal`, `Streams`, `MessageCodec`, `BatchCodec`, `RequestCodec`: the decimal
  loops, the buffered reader with its 4096-byte buffer, the message and batch printers, and the two
  different parsers for a batch, one used by the server on requests and one used by everybody on stored
  bytes. `ReadCodec` adds READ and TAIL requests, `Refusals` what is refused and with which error.
  `Requests`, `Batches` and `Scanning` are the objects that run them.
* **One topic.** `PartitionTable` (the fixed array in which a start offset of 0 doubles as "empty"),
  `TopicState` (table, files, open file and what of the files is durable), `Repair` (what start-up does to
  the newest file), and `Reading` (READ and TAIL) give every step as a function on values. `Partitioning`
  and `Topics` are the same steps as objects that update arrays and files in place, each proved equal to
  its function, including the states the disk passes through.
* **Whole runs.** `TopicRefinement`, `LogHistory`, `LogTheorems` and `ReadTheorems` relate the server to
  the plain history of accepted batches over every run of requests, restarts and crashes. `StartUp`
  interrupts start-up itself, any number of times. `Durability` keeps unsynced bytes apart from durable
  ones: there a crash may come after any disk operation and cut each file anywhere behind its durable
  part. `Flushing` says for every FlushBatches and flush timer which
  batches are durable. `TornHeader` follows the cuts that start-up does not repair. `ReadAnywhere` reads at
  offsets where no batch starts.
* **Concurrency.** `Lifecycle` (reference-counted partition files) and `Handlers` (double-checked topic
  creation) are state machines over the atomic steps of the goroutines involved.
* **Client.** `ClientLog`, `ClientRead`, `BatchBuffer` and `ScannerClient`: the scanner that turns READ
  responses into one message stream, with the two buffers between the connection and the batches.
  `WriterSteps`, `WriterOutcomes` and `WriterClient`: the writer's event loop on values and as an object. `EndToEnd` joins
  the scanner to the server.
* **Statistics.** `Histogram`, over the reals.

## Results

Over every run of requests, restarts and crashes whose cut can be repaired:

* table, files and writer represent one suffix of the history of accepted batches
  (`LogHistory.RunRefines`, `LogTheorems.FilesAreSuffixOfHistory`), within the retention bounds
  (`LogTheorems.RetentionBounds`);
* with FlushBatches = 1 everything acknowledged is durable: wherever crashes fall, also during start-up,
  an acknowledged batch is returned by READ at its offset for as long as it is retained
  (`Durability.AcknowledgedSurvives`, `Durability.DurableFiles`);
* for any FlushBatches and flush timer exactly the batches up to the last flush are durable, as long as the
  partition is not rotated (`Flushing.ServedRun`, `Flushing.DurableIffFlushed`);
* READ at any retained batch returns the shortest run of whole batches that reaches the requested number
  of messages, wherever partition boundaries fall (`ReadTheorems.ReadReturnsShortestRun`), and at any other
  offset what scanning from there yields (`ReadAnywhere.ReadStops`, `ReadAnywhere.ReadEnough`);
* a client that scans the server gets exactly the messages of the retained batches, in order and up to its
  limit, however the server splits them into responses (`ScannerClient.Scanner.Drain`,
  `EndToEnd.ClientReadsLog`);
* the writer accounts for every accepted message (`WriterSteps.RunKeeps`, `WriterClient.Writer.RunEvents`),
  counts a batch as acknowledged exactly when the server acknowledged it (`WriterOutcomes.RunOutcomes`), and
  delivers everything over a good connection (`WriterOutcomes.FairRunDelivers`);
* every request goes to the queue of its topic if there is one when it arrives (`Handlers.RoutedWhenLooked`);
* up to a hundred samples the histogram's quantiles are exact (`Histogram.KthSmallest`).

Some properties one would expect do not hold of the code. Each has a failing input and, unless said
otherwise, the exact condition.

* Without FlushBatches = 1 an acknowledged batch can be lost: for every other value a crash right after the
  first reply loses the first batch (`Durability.LostUnlessFlushed`).
* What was not flushed when a partition is rotated does not become durable by any later flush
  (`Flushing.ClosedStaysUnsynced`); there is no condition, since a flush reaches the open file only.
* The server accepts requests that it cannot scan afterwards: the bytes it stores are a whole batch if and
  only if the first line is plain, that is, nothing around the numbers had to be trimmed and no word
  follows the message count (`RequestCodec.StoredIsWholeIffPlain`; the family with an extra word is
  `RequestCodec.ExtraWordIsStoredUnreadable`).
* Start-up does not repair every torn write: `check` takes io.EOF for a clean end, and Batch.ReadFrom
  reports io.EOF for every cut between the end of `BATCH ` and the first body byte. The torn bytes are
  removed if and only if the cut lies elsewhere (`LogTheorems.RecoveryIsCompleteIffCleanCut`). Otherwise the
  batches that are acknowledged behind the cut are lost at the next start while that partition is still the
  newest, unless the cut lies right behind the first line and what follows is long enough and happens to begin
  with bytes that have the checksum of the missing body (`TornHeader.CheckCutsBehindTornHeader`); the way there from a crash
  is `TornHeader.TornCrashLosesNext`.
* After a crash that leaves an empty newest partition, READ panics if and only if it asks for more
  messages than there are (`ReadTheorems.ReadReturnsShortestRun`, `ReadTheorems.ReadPanicsAfterCrash`).
* A batch of PartitionSize bytes or more that arrives at an empty newest partition breaks the table, and
  only such a batch does (`TopicRefinement.BatchRefinesIff`).
* `Scanner.Complete` stores the right checkpoint if and only if the current batch is the first one of
  its response (`ScannerClient.Scanner.Complete`).
* A scanner that is reset and starts again from a right checkpoint is in step with the log again, and delivers
  the following message, if and only if its readers had pulled everything out of the batch buffer. In the
  first batch of a response this means that the response has at most max(BatchSize, 4096) bytes, or at most
  twice as many when that batch alone has more than max(BatchSize, 4096); in the last batch it is always so.
  Otherwise the scanner reads the bytes that were left in front of the new response
  (`ScannerClient.Scanner.Resume`, `ScannerClient.ResumesInWrongBatch`).
* A Scan that is repeated after it found nothing asks further on by all the bytes of the last response. It
  finds a batch if and only if exactly that many bytes were appended in front of one, and what it finds is
  never the first batch appended (`ScannerClient.Scanner.Retry`, `ClientRead.SeekBehindEnd`).
* Removed partition files are deleted from the temporary directory if and only if WorkDir ends in a slash (or
  a lone dot): otherwise removeFile looks under another path than Remove moved them to, and all of them stay
  (`Lifecycle.FoundIff`, `Lifecycle.NothingLeftBehind`, `Lifecycle.AllLeftBehind`).
* A Get that overtakes a Close lets the file be deleted under the new reader; without that no file is
  deleted while it is being read (`Lifecycle.DeletedOnlyUnread`,
  `Lifecycle.OvertakingDeletesUnderReader`).
* A writer does not always recover from an error: it accepts messages again after a timer tick with a
  connection, unless the error is the state handler's, which it never leaves although the batch was
  acknowledged (`WriterOutcomes.Recovers`, `WriterOutcomes.StuckForEver`, `WriterOutcomes.StuckIffPushFault`,
  `WriterOutcomes.PushFaultSticks`).
* The writer does not count the topic while it fills a batch, so batches can exceed BatchSize. A batch that
  passes the test stays within BatchSize for every checksum if and only if the topic and the growth of the
  decimal fields fit into the bytes that are left (`WriterSteps.PassingBatchFitsIff`); for every topic of more
  than 18 bytes and any two messages a BatchSize and a run that sends a larger batch are in
  `WriterSteps.RunOvershoots`, and the bound that does hold is part of the writer's invariant.

## Hypotheses

* `LogHistory.ValidConfig`: MaxPartitions is at least 2 and MaxBatchSize is less than PartitionSize.
* `LogHistory.Admissible`: accepted requests have a plain first line, and torn writes are cut where
  start-up can repair them. Refused requests are admissible without any condition. A crash between requests
  is a `Restart`, and so is one during start-up (`StartUp.StartsRefine`).
* `ReadTheorems.ReadableRun`: moreover every accepted batch announces at least one message, and fewer
  than 2^63 bytes were accepted, so that offsets fit Go's int.
* `Durability.LeftBy`: creating, removing and truncating a file takes effect on disk at once, and a crash
  cuts each file at some length, not below what was synced. `Durability.Manageable` asks the same of
  requests and cuts as the two hypotheses above.
* `ClientLog.GoodEntries`: the log a client reads consists of batches of at least one message, printed
  with a topic without spaces of at most 255 bytes, within the size limit.
* `ClientRead.Serves`: at the start of a batch the server answers with that batch and any number of those
  that follow, and not-found at or behind the end; proved of the model's server by `EndToEnd.ServiceServes`.
  The client's BatchSize, which is also its MaxBatchSize, is at least 256, so that the connection's buffer
  holds a first line, and the log ends before 2^63. Server and client may be configured differently, as long
  as `ClientLog.GoodEntries` holds for the client.
* File writes, syncs and removals succeed except where a crash interrupts them. The checksum is an
  arbitrary function of the body. A Go panic is the error value `Panic`.

## Model

| member | source | states |
|---|---|---|
| `Decimal.AsciiToUint` | protocol/protocol.go:104-114 | the loop returns the denoted number modulo 2^64, or an error exactly when some byte is not a digit |
| `Decimal.UintToAscii` | protocol/protocol.go:128-140 | the 32-byte buffer ends in the decimal notation from the returned index on, and nothing before it changes |
| `Decimal.AsciiSize` | protocol/protocol.go:142-157 | the length of the decimal notation, 0 for negative arguments |
| `Decimal.ParseUintOfDigits` | protocol/protocol.go:104-140 | asciiToUint undoes uintToASCII for every uint64 |
| `Decimal.DigitsOfValue` | protocol/protocol.go:104-140 | conversely every digit string without leading zeros is the notation of its value |
| `Decimal.DigitsOfUint64` | protocol/protocol.go:128-140 | no uint64 needs more than twenty digits, so the buffer suffices |
| `Streams.TokenCut` | protocol/batch.go:373-415 | cutting the input inside a word is io.EOF; cutting it later changes neither word nor outcome |
| `Streams.TokenExtend` | protocol/batch.go:373-415 | a word that was read does not depend on what follows it |
| `Streams.Reader.TakeFull` | protocol/batch.go:420-432 | ReadFull returns exactly n bytes, io.EOF on no input, io.ErrUnexpectedEOF on some |
| `MessageCodec.MessageSize` | protocol/message.go:202-214 | the size charged for a message is the length of what is printed for it |
| `MessageCodec.WriteMessage` | protocol/message.go:165-200 | the bytes written are the printed message |
| `MessageCodec.ReadMessageFrom` | protocol/message.go:87-126 | the reader method has the outcome and leaves the input that the message grammar prescribes, errors included |
| `MessageCodec.ReadPrintedMessage` | protocol/message.go:87-200 | exact prefix code: a printed message followed by anything is read back and exactly its bytes are consumed |
| `MessageCodec.MessageLength` | protocol/message.go:202-214 | length of a printed message; never less than 9 |
| `BatchCodec.ReadPrinted` | protocol/batch.go:240-432 | exact prefix code: printed bytes followed by anything give back size, topic, checksum, count and body, consuming exactly the printed bytes |
| `BatchCodec.PrintIsPrefixFree` | protocol/batch.go:240-314 | no printed batch is a prefix of another one |
| `BatchCodec.PrintedIsWhole` | protocol/batch.go:135-144 | a printed batch with the right checksum passes Validate and occupies all its bytes |
| `BatchCodec.ReadBatchExtend` | protocol/batch.go:335-432 | a successful read is independent of the bytes behind it |
| `BatchCodec.ReadBatchCut` | protocol/batch.go:353-432 | the error for a batch cut after k bytes, for every k: io.EOF exactly at 0 and from the end of "BATCH " to the first body byte |
| `BatchCodec.ReadIsPrefix` | protocol/batch.go:335-432 | what a successful, valid read consumes is itself one whole batch |
| `BatchCodec.WholeUnique` | protocol/batch.go:335-432 | at most one whole batch starts at the same place |
| `RequestCodec.StoredIsWholeIffPlain` | protocol/request.go:98-206 | what the server stores for an accepted request can be scanned if and only if its first line is plain; then both parsers agree on all fields, the topic up to a trailing carriage return, and on the length of the first line |
| `RequestCodec.ExtraWordIsStoredUnreadable` | protocol/request.go:107-116 | every canonical batch with one more word in its first line is accepted with the same fields, and cannot be scanned |
| `RequestCodec.PrintedIsAccepted` | protocol/batch.go:97-144 | the two parsers agree on every canonical batch, whatever follows it: same fields, body and length |
| `RequestCodec.AcceptedFits` | protocol/request.go:127-148 | accepted bytes are a prefix of the input of at most MaxBatchSize bytes |
| `RequestCodec.AcceptedParts` | protocol/request.go:175-206 | an accepted request is a line with four arguments and a body of the announced length with a matching checksum |
| `RequestCodec.WordStep` | protocol/protocol.go:76-86 | parseWord and ReadSlice split a word off at the same byte; only parseWord trims it |
| `ReadCodec.CommandOfIff` | protocol/command.go:83-106 | exactly the six command words are recognised, each as its command |
| `ReadCodec.PrintedReadIsRead` | protocol/read.go:56-134 | the printed READ line is read back as READ with its three words and decoded to the same topic, offset and count, negative counts included; counts below 1 are refused |
| `ReadCodec.PrintedTailIsTail` | protocol/tail_request.go:51-109 | the same for TAIL; an empty topic is refused |
| `ReadCodec.BareCommand` | protocol/request.go:175-206 | STATS, CLOSE and CONFIG are read from a line of their own |
| `ReadCodec.PrintedReadIsAnswered` | events/events.go:279-300 | the answer to a printed READ is that for the offset and count printed |
| `Refusals.AcceptDecides` | protocol/request.go:127-206 | complete decision for a printed BATCH line and anything behind it: accepted exactly when the announced bytes are there, fit and have the announced checksum, otherwise the error |
| `Refusals.RefusedChangesNothing` | events/events.go:218-230 | a refused BATCH is answered with that error and changes nothing |
| `Refusals.NoCountRefused` | protocol/protocol.go:76-86 | a BATCH line without a message count is refused: a lone carriage return is not trimmed and is no number |
| `Refusals.LineRefused` | protocol/request.go:168-206 | complete decision by the first line: panic, missing carriage return, unknown command, too few words |
| `Refusals.NoLineRefused` | protocol/protocol.go:88-102 | input that ends inside the first line is io.EOF |
| `Refusals.LongLineRefused` | protocol/protocol.go:88-102 | a first line that does not fit the reader's buffer is refused, also one that ends with it |
| `Refusals.ReadDecides` | protocol/batch.go:335-432 | complete decision of the stored-batch parser for a first line with any numbers and anything behind it |
| `Refusals.MessageDecides` | protocol/message.go:87-126 | complete decision of the message parser for a size line and anything behind it |
| `Refusals.NoMessage` | protocol/message.go:87-126 | anything but "MSG " in front is an invalid line |
| `Requests.Request.ParseArgWords` | protocol/request.go:107-116 | the argument loop succeeds exactly when the line has that many words, and stores them |
| `Requests.Request.ReadFrom` | protocol/request.go:175-206 | the object ends up with the fields, and the connection with the rest, that the request grammar prescribes, errors included |
| `Requests.Request.ReadBodyFrom` | protocol/request.go:127-148 | the same for the body, with the size limit and the missing body |
| `Batches.Batch.constructor` | protocol/batch.go:38-47 | a new batch is empty |
| `Batches.Batch.Reset` | protocol/batch.go:54-62 | every field is back at its initial value |
| `Batches.Batch.Append` | protocol/batch.go:156-173 | the message is added and the running size stays the length of what will be printed |
| `Batches.Batch.CalcSize` | protocol/batch.go:196-208 | the estimate for the current topic, count and size |
| `Batches.EstimateBoundsPrint` | protocol/batch.go:196-208 | the estimate is never less than the printed length, and off only by the width of the checksum |
| `Batches.Batch.BuildBodyBytes` | protocol/batch.go:214-237 | the body becomes the printed messages in order, or is refused exactly when the size exceeds the limit |
| `Batches.Batch.WriteTo` | protocol/batch.go:240-314 | what is written is the printed frame of the fields; for an appended batch with the printed messages and their checksum; nothing when it is too large |
| `Batches.Batch.ReadFrom` | protocol/batch.go:317-345 | fields, count of bytes and rest of the input are those of the batch grammar, errors included |
| `Batches.Batch.ReadEnvelopeFrom` | protocol/batch.go:353-417 | the same for the envelope |
| `Batches.Batch.FromRequest` | protocol/batch.go:97-130 | the fields decoded from a request, or the error |
| `Batches.Batch.Check` | protocol/batch.go:135-144 | Validate's verdict on the fields |
| `Batches.ReprintIsIdentity` | logd/client.go:255-272 | parsing printed bytes and printing the result reproduces them, so re-encoding keeps byte counts |
| `Scanning.ScanPrinted` | protocol/batch_scanner.go:31-66 | scanning a concatenation of printed batches yields that list, io.EOF, and its total length |
| `Scanning.BatchScanner.Scan` | protocol/batch_scanner.go:42-51 | one batch further with its bytes counted, or the parse error |
| `Repair.CheckOfWhole` | events/topics.go:214-254 | a file of whole batches is left alone |
| `Repair.CheckOfTorn` | events/topics.go:214-254 | a file that ends in a batch cut after k bytes: truncated to the whole batches unless the cut lies between "BATCH " and the first body byte |
| `Repair.CheckKeepsLongestPrefix` | events/topics.go:214-254 | when check truncates, it keeps whole batches, and no longer prefix of the file consists of whole batches |
| `Repair.CheckIsSafeAndIdempotent` | events/topics.go:214-254 | check never cuts into a prefix of whole batches, and a second start changes nothing |
| `Repair.CheckHead` | events/topics.go:214-254 | the scanning loop reaches that verdict for every file |
| `PartitionTable.FullIffAllLive` | events/partitions.go:45-52 | the sentinel test of add is exact: it evicts precisely when every slot holds a partition |
| `PartitionTable.AddPartRep` | events/partitions.go:45-64 | add keeps offsets and sizes of all slots in step with the partitions, with and without eviction |
| `PartitionTable.GrowHeadRep` | events/partitions.go:91-99 | addBatch keeps them in step |
| `PartitionTable.HeadRep` | events/partitions.go:86-89 | nextOffset is the end of the log, and the head record is the newest partition |
| `PartitionTable.LookupIs` | events/partitions.go:116-131 | lookup finds the partition that holds the offset, despite the sentinel; offsets before the oldest partition are not found |
| `PartitionTable.HolderUnique` | events/partitions.go:116-131 | only one partition holds an offset |
| `TopicState.ListingUnique` | logger/partitions.go:224-252 | the ascending listing of a directory is unique |
| `TopicState.DiskPush` | logger/writer.go:45-56 | the file at the end offset is new when the newest partition is not empty |
| `TopicState.DiskDrop` | logger/partitions.go:118-139 | removing the oldest file leaves the remaining partitions where they were |
| `TopicRefinement.BatchRefines` | events/events.go:218-265 | table, files and open file follow the abstract append, and the reply is the end offset |
| `TopicRefinement.RotateRefines` | events/events.go:232-252 | the same for the rotating case: new file, new record and eviction in step |
| `TopicRefinement.BatchRefinesIff` | events/events.go:232-252 | the step leaves a consistent table if and only if the head is not empty or the batch is smaller than PartitionSize |
| `TopicRefinement.EmptyHeadBreaks` | events/partitions.go:82-89 | a batch of PartitionSize bytes at an empty head leaves a state that no partitions describe |
| `TopicRefinement.AddPartitionRep` | events/partitions.go:45-64 | add removes the oldest file exactly when it drops the oldest record |
| `TopicRefinement.LoadRep` | events/topics.go:186-195 | the load loop rebuilds the table of the newest partitions and evicts all others |
| `TopicRefinement.SetupEmpty` | events/topics.go:184-212 | start-up on an empty directory |
| `TopicRefinement.SetupRefines` | events/topics.go:184-254 | start-up from any number of consecutive files, also more than the table holds |
| `TopicRefinement.FinishRefines` | events/topics.go:203-254 | after check the head record has the length of the repaired file, and the writer opens it |
| `Refusals.StartFailsIff` | events/topics.go:184-254 | start-up fails, and with a panic, if and only if the parser panics in the newest file |
| `Refusals.BareCountStopsStart` | protocol/batch.go:353-417 | a first line with nothing for the message count panics, and a newest file that holds one keeps the server from starting |
| `Refusals.BatchIsCounted` | events/partitions.go:159-162 | a batch is counted in the newest record, starting with 1 after a rotation |
| `Refusals.RefusedAfterWriting` | events/events.go:232-252 | when the oldest file is missing a rotating batch is written, then refused, and the table does not change |
| `StartUp.InterruptedStart` | events/topics.go:184-254 | interrupted after any of its disk operations, start-up leaves files from which the next start recovers the same partitions |
| `StartUp.StartsRefine` | events/topics.go:184-254 | any number of interrupted starts and a completed one reach the state that one undisturbed start reaches |
| `StartUp.RepairedIsIntact` | events/topics.go:214-254 | a repaired file needs no second repair |
| `LogHistory.AppendLogSegs` | events/events.go:218-265 | a batch is added to the history and to nothing else |
| `LogHistory.EndIsHistoryLength` | events/partitions.go:86-89 | the next offset is the number of bytes accepted so far |
| `LogHistory.ReceiveRefines` | events/events.go:218-265 | an accepted request is acknowledged with that offset and appended |
| `LogHistory.RestartRefines` | events/topics.go:184-254 | a restart changes nothing |
| `LogHistory.CrashRecoverable` | events/topics.go:184-254 | what a crash at such a point leaves are consecutive partitions from which start-up recovers the history with or without the batch |
| `LogHistory.CrashRefines` | events/topics.go:184-254 | a crash at any of the points of handleBatch and the restart after it lose or keep the one batch being written; includes MaxPartitions + 1 files |
| `LogHistory.StepKeepsGood` | events/partitions.go:45-99 | retention bounds and shape of the log are kept by every event |
| `LogHistory.StepRefines` | events/events.go:218-265 | every event follows the history |
| `LogHistory.RunRefines` | events/events.go:218-265 | over every run the server keeps running and table, files and writer represent the history |
| `LogTheorems.FilesAreSuffixOfHistory` | events/partitions.go:45-99 | in every reachable state the live files, oldest first, are the suffix of all kept bytes from the first record's offset on; records match files one to one, each starts where the previous ends, at most MaxPartitions files, newest one open |
| `LogTheorems.RetentionBounds` | events/partitions.go:45-99 | each partition below PartitionSize, the total below MaxPartitions * PartitionSize; after an eviction at least (MaxPartitions - 1) * (PartitionSize - MaxBatchSize) bytes retained |
| `LogTheorems.RunExtendsHistory` | events/events.go:218-265 | the history only ever grows at its end |
| `LogTheorems.AcknowledgedStaysPut` | events/events.go:249-258 | in runs whose crashes keep every byte written before the current batch, the acknowledged offset is the sum of all earlier batch sizes, and the batch is at that offset in every later state |
| `LogTheorems.ReplyIsEnd` | events/events.go:249-258 | every accepted request of a run is acknowledged with the number of bytes kept before it |
| `LogTheorems.RecoveryIsCompleteIffCleanCut` | events/topics.go:214-254 | restart after a cut write leaves whole batches only, if and only if the cut is clean; otherwise the torn bytes stay |
| `TornHeader.FieldsSpoilt` | protocol/batch.go:353-417 | what is parsed across a cut in the first line, with another batch behind it, is an error other than io.EOF, wherever the cut is |
| `TornHeader.CheckCutsBehindTornHeader` | events/topics.go:214-254 | batches written behind a header that was cut and left in place are truncated away by the next start, if and only if the cut lies inside the first line or what follows is too short for the body or has another checksum |
| `TornHeader.AcknowledgedBatchIsLost` | events/topics.go:214-254 | so a batch acknowledged after such a restart is gone after a further one, and the log then ends before its offset; every unclean cut |
| `TornHeader.ForeignBody` | protocol/batch.go:335-432 | behind a whole first line the following bytes are read as the body: too short, or valid exactly when their checksum agrees |
| `TornHeader.TornCrashLosesNext` | events/topics.go:184-254 | from any state of the log: an uncleanly cut crash, with or without rotation, a restart, an acknowledged batch and another restart lead back to the log before both batches |
| `Durability.CrashLeavesPoint` | events/events.go:231-277 | when every batch is synced, whatever a crash after any disk operation of handleBatch leaves is one of the crash points |
| `Durability.PointIsLeft` | events/events.go:231-277 | conversely a crash can leave every one of the points |
| `Durability.EvictionIsDurable` | events/partitions.go:45-64 | removing the oldest file keeps all others as they were written |
| `Durability.ServedInStep` | events/events.go:218-277 | with FlushBatches = 1 an acknowledged request is in the log and durable before the reply |
| `Durability.CrashedInStep` | events/topics.go:184-254 | after a crash or a stop the files are recoverable to a log that extends the one before |
| `Durability.DurableRun` | events/events.go:218-277 | over every run of requests, crashes and interrupted starts no start-up fails, and table, files and what is durable of them represent a log that only grows |
| `Durability.DurableFiles` | events/partitions.go:45-99 | in every such state the live files, all durable, are the suffix of all kept bytes, within the retention bounds |
| `Durability.AcknowledgedSurvives` | events/events.go:267-277 | with FlushBatches = 1, whatever happens afterwards, the server comes up and READ at the acknowledged offset returns exactly the batch, or not-found once it is evicted |
| `Durability.LostUnlessFlushed` | events/events.go:267-277 | for every other FlushBatches a run acknowledges a batch at offset 0 and loses it: READ there is not-found after the crash |
| `Flushing.CounterIs` | events/events.go:44-54 | after n batches since start-up the flush counter is n modulo FlushBatches |
| `Flushing.DueIff` | events/events.go:56-74 | batch n is flushed if and only if the timer has fired or n is a multiple of FlushBatches |
| `Flushing.ServedRun` | events/events.go:218-277 | after any requests in one partition the open file holds all their batches, and exactly those up to the last flush are durable |
| `Flushing.DurableIffFlushed` | events/events.go:267-277 | everything is durable if and only if the last batch was flushed; without the timer, if and only if their number is a multiple of FlushBatches |
| `Flushing.CrashLosesUnflushed` | events/events.go:267-277 | a crash keeps every batch up to the last flush and may lose all later ones |
| `Flushing.ClosedStaysUnsynced` | logger/writer.go:40-56 | what is not durable of a file that is no longer open stays so, whatever is flushed later |
| `Reading.ShortestIs` | events/events.go:421-444 | the run the read theorems speak of is a prefix, long enough or everything, and no shorter prefix is |
| `ReadTheorems.ScanWhole` | events/events.go:435-444 | the inner loop over whole batches stops behind the shortest run, or counts all of them |
| `ReadTheorems.GatherRound` | events/events.go:420-460 | one round stops there or records the rest of the partition and moves to the next start offset |
| `ReadTheorems.GatherIs` | events/events.go:409-463 | the recorded ranges concatenate to the shortest run across all partition boundaries, with the right number of batches; panic exactly for an empty head behind too few messages |
| `ReadTheorems.EmptyHeadPanics` | events/events.go:450-453 | an empty partition never advances the walk, and the argument list overflows |
| `ReadTheorems.RangesAscend` | events/events.go:420-460 | every round records a partition behind all recorded ones |
| `ReadTheorems.EachPartitionOnce` | events/partitions.go:247-256 | in any state, an answered READ names each file at most once, so neither the argument list nor the response's readers overflow |
| `ReadTheorems.ReadReturnsShortestRun` | events/events.go:279-327 | READ at any retained batch returns exactly the shortest run of whole batches with enough messages, or everything; the panic case is exact |
| `ReadTheorems.ReadOutsideIsNotFound` | events/events.go:279-300 | offsets before the oldest partition and at or behind the end are not found |
| `ReadAnywhere.GatherStops` | events/events.go:434-459 | a round in which the scan stops with an error before there are enough messages, with anything recorded before: invalid offset, panic, or io.ErrUnexpectedEOF without a message |
| `ReadAnywhere.ReadStops` | events/events.go:279-300 | the same for READ at any offset of the log, batch start or not; not found when the partition just ends |
| `ReadAnywhere.ReadAtNoBatch` | events/events.go:279-300 | READ at an offset where no batch parses, decided by the parser's error |
| `ReadAnywhere.ReadInsideIsInvalid` | events/events.go:457-458 | READ one to five bytes into any retained batch is an invalid offset |
| `ReadAnywhere.ReadEnough` | events/events.go:434-447 | READ at any offset from which enough messages scan returns exactly those batches |
| `Refusals.ReadBeyondInt` | logger/partitions.go:170-190 | an offset 2^63 or more behind the newest partition's start fails to seek |
| `Refusals.NothingAskedFor` | protocol/read.go:79-84 | READ for no messages is refused, TAIL for none is answered with none |
| `ReadTheorems.TailIsReadAtOldest` | events/events.go:329-374 | TAIL is READ at the oldest retained batch; not found on an empty log |
| `ReadTheorems.RunIsReadable` | events/events.go:218-265 | the read theorems apply to every reachable state |
| `ReadTheorems.ReadYourWrites` | events/events.go:249-327 | in every later state READ at the acknowledged offset returns exactly the batch, or not-found once it lies before the oldest partition |
| `ReadTheorems.ReadNeverPanicsWithoutCrash` | events/events.go:409-463 | in runs without crashes READ at a retained batch is always answered |
| `ReadTheorems.ReadPanicsAfterCrash` | events/events.go:450-453 | after a crash that left an empty head, READ for more messages than there are panics |
| `Partitioning.Disk.Remove` | logger/partitions.go:118-139 | takes the file out of the directory, or fails and changes nothing |
| `Partitioning.Disk.List` | logger/partitions.go:224-252 | all start offsets in ascending order |
| `Partitioning.SwapToEnd` | events/partitions.go:66-76 | the swapping loop moves the first element to the end and shifts the others |
| `Partitioning.Partitions.constructor` | events/partitions.go:21-33 | an empty table of MaxPartitions distinct records |
| `Partitioning.Partitions.Rotate` | events/partitions.go:66-76 | rotates the records in place; head still names the same record |
| `Partitioning.Partitions.Add` | events/partitions.go:45-64 | the array of records, the counters and the directory follow the step on values, errors included |
| `Partitioning.Partitions.ShouldRotate` | events/partitions.go:78-84 | the rotation test on the array |
| `Partitioning.Partitions.NextOffset` | events/partitions.go:86-89 | the end of the head partition |
| `Partitioning.Partitions.GrowHead` | events/partitions.go:159-162 | only the head record grows |
| `Partitioning.Partitions.SetHeadSize` | events/topics.go:247-253 | only the head record's size changes |
| `Partitioning.Partitions.Lookup` | events/partitions.go:116-131 | the downward loop over the slots finds what lookup on values finds |
| `Topics.PartitionArgList.Reset` | events/partitions.go:242-245 | empties the list |
| `Topics.PartitionArgList.Add` | events/partitions.go:247-256 | appends a range, or panics exactly when the list is full |
| `Topics.Topic.DoFlush` | events/events.go:267-277 | increments, syncs the open file and resets as the flush counter and timer ask; when that is is stated by Flushing.DueIff |
| `Topics.Topic.Decode` | events/events.go:218-230 | the decoding half of handleBatch on the request objects |
| `Topics.Topic.HandleBatch` | events/events.go:218-265 | the objects follow the step on values; what is durable afterwards and the states the disk passes through are those of the durability theorems |
| `Topics.Topic.Record` | events/events.go:249-258 | the reply's offset, then addBatch with its own rotation decision, on table and directory |
| `Topics.Topic.WriteBatch` | events/events.go:231-258 | the two rotation decisions, before and after the write, agree: together both halves are the one step on values |
| `Topics.Topic.Persist` | events/events.go:231-247 | the disk half of the step, in order |
| `Topics.Topic.SetupPartitions` | events/topics.go:184-212 | start-up on the objects follows start-up on values, and the disk passes through the states at which it may be interrupted |
| `Topics.Topic.LoadFiles` | events/topics.go:191-195 | the load loop |
| `Topics.Topic.FinishSetup` | events/topics.go:197-254 | check and SetPartition |
| `Topics.Topic.ScanPartition` | events/events.go:434-447 | the inner loop of gatherReadArgs |
| `Topics.Topic.GatherRound` | events/events.go:420-460 | one round of its outer loop |
| `Topics.Topic.GatherReadArgs` | events/events.go:409-463 | the loops terminate and compute the plan on values, for every offset, count and state |
| `Topics.Topic.HandleRead` | events/events.go:279-327 | the reply is that of READ on values |
| `Topics.Topic.HandleTail` | events/events.go:329-374 | the reply is that of TAIL on values |
| `Topics.Topic.ServeRanges` | events/events.go:313-324 | one reader per range, in order |
| `Lifecycle.StepKeepsAccounts` | logger/partitions.go:268-291 | the reference count is the number of open readers, and, if removeFile finds files, somebody is responsible for every removed file without references, in every step |
| `Lifecycle.NothingLeftBehind` | logger/partitions.go:118-139 | with a WorkDir that ends in a slash, in every interleaving, once all operations finished no removed file without references is on disk |
| `Lifecycle.FoundIff` | logger/partitions.go:316-342 | removeFile looks for a file under the path Remove moved it to, if and only if WorkDir ends in a slash, is empty or ends in a lone dot |
| `Lifecycle.AllLeftBehind` | logger/partitions.go:316-342 | otherwise every removed file stays in the temporary directory, in every interleaving |
| `Lifecycle.DeletedOnlyUnread` | logger/partitions.go:316-342 | unless a Get overtakes a Close, files are deleted only after Remove and only without open readers |
| `Lifecycle.OvertakingDeletesUnderReader` | logger/partitions.go:170-212 | whenever a Get overtakes a Close, four more steps delete the file under the new reader |
| `Lifecycle.OvertakingIsReachable` | logger/partitions.go:170-212 | and a run gets there |
| `Lifecycle.CirculatesUntilRemoved` | logger/partitions.go:118-139 | a file leaves circulation only by Remove |
| `Handlers.SectionKeepsOneQueue` | events/handlers.go:128-171 | every critical section keeps one queue per topic and every pushed request on its topic's queue |
| `Handlers.OneQueueForAll` | events/handlers.go:128-171 | for any number of concurrent BATCH requests to a topic, among any others, and every interleaving, exactly one queue is made and all of them are pushed to it |
| `Handlers.RoutedWhenLooked` | events/handlers.go:128-171 | in every interleaving a request of any kind ends where its first look decides: in the queue of its topic if there is one, in the asynchronous queue if not and it is no BATCH, otherwise in the queue made for the topic or with an error |
| `Handlers.AsyncOnlyBefore` | events/handlers.go:128-171 | a request with a topic is pushed to the asynchronous queue if and only if it is no BATCH and looked before the queue existed |
| `Handlers.FailsOnlyByTopic` | events/handlers.go:155-166 | a request fails only in its own second look, when there is still no queue and the topic cannot be set up |
| `Handlers.MakesQueueIff` | events/handlers.go:147-168 | a queue is made by a second look that still finds none, if the topic can be set up, and by nothing else |
| `Handlers.QueuesAreForBatches` | events/handlers.go:144-168 | every queue was made for a BATCH to its topic |
| `BatchBuffer.FirstScanPulls` | logd/client.go:72-94 | scanning the first batch pulls max(BatchSize, 4096) bytes out of the batch buffer, or twice as many when the batch is larger, or all it has |
| `BatchBuffer.BodyPullsOnce` | logd/client.go:72-94 | a body that reaches beyond what was pulled by at most 4096 bytes makes exactly one more pull |
| `BatchBuffer.WordsOfBatch` | protocol/batch.go:353-432 | the words of the envelope and the body are exactly the bytes a scan consumes |
| `ClientRead.RelayPrinted` | logd/client.go:255-272 | re-encoding a response of printed batches reproduces its bytes |
| `ClientRead.RelayStops` | logd/client.go:255-272 | re-encoding stops with the parser's error behind the batches before it |
| `ClientRead.SkipPrinted` | logd/scanner.go:269-273 | skipping to a checkpoint reads exactly the messages before it |
| `ClientRead.SkipAnywhere` | logd/scanner.go:269-273 | skipping by any distance ends behind the first messages that take as many bytes, and fails beyond the body |
| `ClientRead.StartPrinted` | logd/scanner.go:258-275 | on a buffer that starts with a batch the skipping loop ends before the message the checkpoint names, whatever follows |
| `ClientRead.SeekBehindEnd` | logd/scanner.go:314-337 | a READ behind the old end by some bytes finds a batch if and only if exactly so many bytes were appended before it |
| `ScannerClient.Scanner.ReadBatches` | logd/client.go:255-272 | the loop computes the re-encoding, errors included |
| `ScannerClient.Scanner.ReadOffset` | logd/client.go:276-304 | the batch buffer holds the announced batches behind what nobody had pulled; an error leaves it alone |
| `ScannerClient.Scanner.ScanBatch` | protocol/batch_scanner.go:42-51 | one batch further, with what was pulled out of the batch buffer |
| `ScannerClient.Scanner.ReadMessage` | logd/scanner.go:203-216 | the next message of the current batch with bytes and messages counted, or the parse error |
| `ScannerClient.Scanner.SkipMessages` | logd/scanner.go:269-273 | the loop computes the skipping, errors included |
| `ScannerClient.Scanner.DoInitialRead` | logd/scanner.go:218-275 | one READ; then reading starts at the checkpoint's distance into whatever comes first in the buffer, left-over bytes included |
| `ScannerClient.Scanner.AskMore` | logd/scanner.go:314-337 | the READ goes to the old offset plus the bytes scanned since a READ was last answered, and fails without other effect |
| `ScannerClient.Scanner.RequestMore` | logd/scanner.go:277-337 | if a batch starts at that offset the scanner is at its first message |
| `ScannerClient.Scanner.NextInResponse` | logd/scanner.go:293-303 | the next batch of the same response |
| `ScannerClient.Scanner.SetStart` | logd/scanner.go:146-152 | the scanner will start at the given entry and message |
| `ScannerClient.Scanner.ScanNextBatch` | logd/scanner.go:277-306 | positions at the next unread message or reports the end of the log; a READ goes out only at the end of a response |
| `ScannerClient.Scanner.Advance` | logd/scanner.go:159-178 | the same from every state a Scan can start in |
| `ScannerClient.Scanner.Scan` | logd/scanner.go:159-178 | a true result is the next message of the stream whatever the response sizes, a false one is the limit or the end of the log, with the READs sent; also after the end was met, and with left-over bytes in the buffer |
| `ScannerClient.Scanner.Drain` | logd/scanner.go:159-178 | the messages of successive Scans, each with its own server behaviour, are exactly the stream from the start, none skipped or repeated, cut short only by the limit; every READ goes to the batch behind those delivered |
| `ScannerClient.Scanner.Retry` | logd/scanner.go:277-337 | a Scan that meets the end and one after more was appended: the second READ is further on by the whole last response, and finds a batch exactly when so many bytes were appended before one |
| `ScannerClient.Scanner.Complete` | logd/scanner.go:188-201 | the stored checkpoint names the following message if and only if the current batch is the first of its response |
| `ScannerClient.Scanner.StartAfterCurrent` | logd/scanner.go:188-201 | the position behind the current message as an entry and a count, also at a batch end |
| `ScannerClient.Scanner.Resume` | logd/scanner.go:89-275 | Reset and a Scan from a right checkpoint: in step with the log and at the following message if and only if nothing unpulled was left in the batch buffer, otherwise what the left-over bytes and the response read as; in the first batch nothing is left exactly when the response is not larger than what scanning that batch pulls, in the last one never |
| `ScannerClient.ResumesInWrongBatch` | logd/scanner.go:89-275 | for every two batches in one response, the first as large as the buffer, with first messages of equal length: the second message of the second batch is delivered instead of that of the first |
| `WriterSteps.SentIsGood` | logd/writer.go:294-332 | a sent batch beyond the bound (BatchSize - 9, topic length, digit growth) holds exactly one message, acknowledged or not |
| `WriterSteps.AppendFits` | logd/writer.go:290-292 | a message that passes shouldFlush keeps the batch within that bound |
| `WriterSteps.FlushKeeps` | logd/writer.go:294-332 | a flush attempt moves the pending batch as a whole to the outcomes and loses no message; without a fault nothing is pending and no error is set |
| `WriterSteps.WriteKeeps` | logd/writer.go:167-288 | a Write that returns nil adds its message behind all others, a refused one changes no message |
| `WriterSteps.StartIsGood` | logd/writer.go:103-126 | a new writer satisfies the invariant and holds no message |
| `WriterSteps.StepKeeps` | logd/writer.go:210-263 | every event keeps the invariant and neither loses, repeats nor reorders a message |
| `WriterSteps.RunKeeps` | logd/writer.go:210-263 | over every run of events and network behaviour each message whose Write returned nil is, in order, in exactly one batch: acknowledged, sent and reported, reported unsent, or pending; every sent batch obeys the bound |
| `WriterOutcomes.StepOutcomes` | logd/writer.go:210-332 | an event disposes of the pending batch exactly when it sends it: on Flush, on a timer tick when connected, and on a Write that does not fit |
| `WriterOutcomes.NilIff` | logd/writer.go:167-332 | a Write or Flush returns nil if and only if no error is set, the connection stands and a batch it sends is printed, acknowledged and its offset taken |
| `WriterOutcomes.ErrorOf` | logd/writer.go:294-392 | the error and state after each kind of failure and after a reconnection |
| `WriterOutcomes.RunOutcomes` | logd/writer.go:294-332 | over every run each outcome belongs to the one event that sent the batch, in order, and is acknowledged if and only if the batch was printed and that event's network acknowledged it; nil after sending means acknowledged |
| `WriterOutcomes.FairRunDelivers` | logd/writer.go:210-332 | over a good connection every command returns nil, and after a final Flush all messages are in acknowledged batches, in order |
| `WriterOutcomes.Recovers` | logd/writer.go:357-384 | a failing writer accepts the next Write after a timer tick with a connection, with nothing lost |
| `WriterOutcomes.StuckForEver` | logd/writer.go:222-261 | a writer with an error that is not failing never changes again and refuses everything |
| `WriterOutcomes.StuckIffPushFault` | logd/writer.go:324-331 | in every run that is so if and only if the state handler did not take an offset |
| `WriterOutcomes.PushFaultSticks` | logd/writer.go:324-331 | a run gets there, with its batch acknowledged |
| `WriterOutcomes.EmptyFlushCountsTopic` | logd/writer.go:294-303 | after a Flush of an empty batch the size test counts the topic, and messages that would overshoot together are sent apart |
| `WriterSteps.FitsIffEstimated` | protocol/batch.go:196-208 | a batch stays within BatchSize for every checksum if and only if CalcSize with the topic says so |
| `WriterSteps.PassingBatchFitsIff` | logd/writer.go:265-292 | what shouldFlush lets through stays within BatchSize for every checksum if and only if topic and digit growth fit into the bytes left |
| `WriterSteps.RunOvershoots` | logd/writer.go:210-332 | for any two messages, any topic of more than 18 bytes and a BatchSize between two bounds, two Writes and a Flush send one batch larger than BatchSize |
| `WriterSteps.TwoWritesSend` | logd/writer.go:210-332 | whenever the second of two messages passes shouldFlush both are sent in one batch, larger than BatchSize exactly when the estimate with the topic, less the unused checksum digits, is |
| `WriterClient.Writer.constructor` | logd/writer.go:103-126 | a new writer is the loop's initial value |
| `WriterClient.Writer.HandleFlush` | logd/writer.go:294-332 | the object makes the flush step |
| `WriterClient.Writer.HandleMsg` | logd/writer.go:265-288 | the object makes the message step |
| `WriterClient.Writer.NeedsFlush` | logd/writer.go:290-292 | shouldFlush on the pending batch |
| `WriterClient.Writer.Write` | logd/writer.go:167-178 | the object makes the Write step, refused while an error is set |
| `WriterClient.Writer.Flush` | logd/writer.go:181-183 | the object makes the Flush step |
| `WriterClient.Writer.Timer` | logd/writer.go:357-384 | the object makes the timer step: a flush when connected, a reconnection attempt when failing |
| `WriterClient.Writer.RunEvents` | logd/writer.go:210-263 | the event loop on the object follows the run on values, to which the accounting theorem applies |
| `EndToEnd.PrintedIsAdmissible` | protocol/batch.go:240-314 | the hypotheses of the run theorems hold for every request a client prints within the limits, and for a crash during it exactly unless the cut lies between "BATCH " and the first body byte |
| `EndToEnd.ServerAnswersClient` | events/events.go:279-327 | the server's reply is a count and that many printed batches of the log |
| `EndToEnd.ServiceServes` | events/events.go:279-327 | for every offset the server answers a READ that the client printed as the scanner relies on |
| `EndToEnd.ClientReadsLog` | logd/scanner.go:159-178 | the scanner, with a configuration of its own and printed READs, against the server delivers the messages of the retained batches from any of them on, all in order, exactly as many as the limit allows |
| `Histogram.InsertBin` | stats/histogram.go:51-59 | the insertion loop puts a bin of one sample before the first larger one |
| `Histogram.ClosestPair` | stats/histogram.go:64-71 | the search finds the first pair of neighbours with the least distance |
| `Histogram.InsertKeeps` | stats/histogram.go:46-60 | order and range are kept |
| `Histogram.InsertSums` | stats/histogram.go:46-60 | the counts grow by one and the weighted sum by the sample |
| `Histogram.MergeKeeps` | stats/histogram.go:62-80 | merging neighbours keeps order, range, counts and weighted sum |
| `Histogram.QuantileMonotone` | stats/histogram.go:82-91 | a larger share never has a smaller quantile |
| `Histogram.QuantileInRange` | stats/histogram.go:82-91 | a quantile lies in the range of the bins |
| `Histogram.QuantilesOrdered` | stats/histogram.go:82-91 | both for shares of the number of samples in [0, 1] |
| `Histogram.QuantileAt` | stats/histogram.go:82-91 | the quantile is the value of the first bin up to which there are as many samples as the share asks for |
| `Histogram.QuantileBeyond` | stats/histogram.go:82-91 | 0 beyond all samples |
| `Histogram.KthSmallest` | stats/histogram.go:82-91 | up to a hundred samples the quantile of k / n is the k-th smallest of the n samples |
| `Histogram.Histogram.Add` | stats/histogram.go:46-60 | after any sequence of calls: at most 100 sorted bins, one for each of the first hundred samples, counts adding up to the number of samples, weighted sum equal to the sum of the samples, all within their range |
| `Histogram.Histogram.Trim` | stats/histogram.go:62-80 | merges the closest neighbours until the limit holds, keeping the sums |
| `Histogram.Histogram.Quantile` | stats/histogram.go:82-91 | the walk over the bins |

## Left out

- The servers, the HTTP front end, the transport package, the command line programs, statistics other than the histogram, the handling of STATS, CLOSE and CONFIG requests, and the codec for client responses: none of them touches offsets or stored bytes.
- File paths, directories and the operating system: a topic directory is a map from start offsets to bytes, and the temporary directory exists only as a state of a file in `Lifecycle`, which presumes that moving a file there succeeds and that each reader is closed once.
- Failing writes, syncs and truncations: the error returns in the middle of handleBatch, which leave the disk ahead of the table, are covered by crash points only.
- Wrap-around of 64-bit offsets and sizes in the table: offsets are unbounded naturals there, and the read theorems assume fewer than 2^63 bytes. Number parsing, sizes and message counts on the wire do wrap.
- Gather: the running message counter of gatherReadArgs is unbounded, so its wrap-around for announced counts near 2^63 is not modelled.
- Topics longer than 255 bytes, for which SetTopic in the source leaves a length beyond its buffer.
- RunRefines: its crashes keep everything written before the current batch, which Durability.CrashLeavesPoint justifies for FlushBatches = 1 only.
- CrashRefines: the same.
- AcknowledgedStaysPut: the same; Durability.AcknowledgedSurvives is the theorem with unsynced bytes.
- HandleBatch: losing directory entries or an earlier truncation in a crash is not modelled.
- DurableRun: the first start on an empty directory is not interrupted.
- FoundIff: path.Clean is modelled only as far as Join drops empty elements and a lone dot; a WorkDir that ends in `..` is not covered.
- SetupPartitions: starts from a new topic object; a second start on a table that is already filled is not modelled.
- Scan: polling with ReadForever is left out, and so are UseTail without a checkpoint and Stop. After an error of the batch parser the unread bytes are not followed further; an io.EOF there, which scanNextBatch passes over, is reported, and with a server that serves the log neither occurs.
- ReadOffset: retries, back-off and broken connections are left out.
- Retry: the log grows between two Scans, not during one.
- Append: the source keeps a reference to the caller's slice; the model copies it.
- RunEvents: the backlog and what Close does with a pending batch are left out; a message has fewer than 2^63 - 64 bytes.
- Quantile: over real numbers, without floating-point rounding.
- Goroutine scheduling, channels and liveness beyond the interleavings of Lifecycle and Handlers.
- Partition and batch bookkeeping that nothing reads: FirstOffset, getStartOffset and the batch records of a partition.
- ReadStops: when the rest of a partition ends with io.EOF behind some messages the walk goes on to the next partition, which ReadReturnsShortestRun covers for whole batches only.
