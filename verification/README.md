# ElasticRelay: verified models

ElasticRelay moves row changes from MySQL, PostgreSQL and MongoDB into Elasticsearch. This project models the parts of it
in which an ordering, a buffer boundary or a restart decides whether data arrives, and proves what can be said of them
for all inputs and all runs.

| part | files |
|---|---|
| A decoder of buffered fragments, for any message format | `Streaming.dfy` |
| The pgoutput decoder (section 55.9 of the PostgreSQL 16 documentation) as functions, its stability, its round trip, and what each message does | `Pgoutput.dfy`, `PgoutputStability.dfy`, `PgoutputRoundTrip.dfy`, `PgoutputEvents.dfy`, `PgoutputEffects.dfy`, `Bytes.dfy` |
| The WAL parser as a class, its frames and event LSNs | `WalParser.dfy`, `WalFrames.dfy` |
| LSN and binlog positions (section 8.20, pg_lsn Type, of the PostgreSQL 16 documentation) | `Lsn.dfy`, `Binlog.dfy`, `Decimals.dfy` |
| The event pipeline of a job, its class, and the sink | `Pipeline.dfy`, `MultiJob.dfy`, `SinkService.dfy` |
| The handoff from snapshot to change capture and through restarts | `Replay.dfy`, `Handoff.dfy`, `HandoffRuns.dfy`, `HandoffCourse.dfy`, `HandoffExact.dfy`, `HandoffFailures.dfy`, `HandoffGaps.dfy`, `HandoffTransform.dfy` |
| The single-table job that keeps its batch on failure | `LegacyJob.dfy` |
| The dead-letter queue as a state machine and as a class | `DeadLetters.dfy`, `RetryOutcomes.dfy`, `DlqManager.dfy` |
| Chunk allocation | `Chunks.dfy` |
| Nested documents changed in place, the field mapper, and flattening | `NestedPaths.dfy`, `FieldMapper.dfy`, `MappingEffects.dfy`, `Flatten.dfy` |
| Configuration merging | `ConfigSync.dfy` |

`dafny verify dfyconfig.toml` checks the whole project with Dafny 4.11.

Code that changes state step by step is a class or a loop here too. Its methods are proved against functions on values,
steps of a state machine or laws about the new state, and the theorems are about these. Where a property that the design
promises does not hold of the code, the code is modelled as it is, a concrete run or input shows the failure, and the exact
condition for the property is proved:

- An UPDATE whose bytes end right behind the marker of its new tuple is accepted without that tuple (`PrefixStabilityExactly`, `CutCannotBeNoticedExactly`).
- A TRUNCATE never reaches the stream (`RunSendsNoTruncate`).
- `resetCDCBuffers` does not stop the batch processor: an event that it holds, or takes while the channel is being emptied, can become the checkpoint and hide the rows that were cleared (`ResettingExactly`, `OverlappingExactly`, `ResetLosesRow`, `OvertakenResetLosesRow`).
- A failed flush empties the batch and the next one moves the checkpoint past it (`FailingExactly`, `FailedFlushLeavesGap`, `FailedReplayRevives`). A retry brings the rows back, but only the first change of a row is stored, and a late retry puts an old row back (`RetriedInOrderExactly`, `RetryingExactly`, `OnlyFirstStored`, `LateRetryRevives`).
- Received positions are confirmed as flushed, so that the server may resume behind events that never reached the sink (`ConfirmingExactly`, `ConfirmLosesRows`).
- An UPDATE of a primary key leaves the row under its old key in the sink (`MovedRowsStayExactly`).
- The deduplication key of the dead-letter queue has no position for PostgreSQL (`LaterChangeRefused`), and a discarded item can come back beside a new one of its key (`StepKeepsUniqueExactly`, `DiscardedComesBack`, `FailedRetryComesBack`).
- Key columns joined by colons, and NULLs spelled out, can give different rows one document, and so does a table without key columns (`JoinIdentifiesExactly`, `RowIdentifiedExactly`, `UnkeyedRowIdentifiedExactly`).
- Flattening can give two paths one name where keys hold dots or are empty, and then depends on the order in which the fields are visited (`VisitingOrderExactly`, `DottedKeysCollide`, `EmptyKeysCollide`).
- `isValidLSN` accepts texts that cannot be read as positions (`ValidIsReadableExactly`).
- The loops over ids overflow near the greatest int64 (`StrideExactly`, `CreateIdBasedChunks`), and skip/limit chunks miss what the estimated count does (`PagesAreAllExactly`).
- A merge resets the global settings (`GlobalSettingsReset`).

The comment in `wal_parser.go` on the old-tuple branch and the error text "missing new tuple marker" suggest that a
message without its new tuple is incomplete; the code accepts it when the marker is the last byte, and the model follows the code.

## Model

| member | source | states |
|---|---|---|
| Streaming.FragmentIndependence | internal/connectors/postgresql/wal_parser.go:341-394 | For any message format whose verdicts stand: however a byte stream is cut into payloads, feeding the pieces sends the same things in the same order and leaves the same state, tail and fault as feeding it whole |
| Streaming.DrainInTwo | internal/connectors/postgresql/wal_parser.go:367-394 | Draining a buffer, keeping its tail and draining on with more bytes equals draining everything at once, unless the first drain ends at a verdict that depends on the cut |
| Streaming.DrainTrimmed | internal/connectors/postgresql/wal_parser.go:383-393 | Trimming the consumed bytes off the buffer changes nothing |
| Streaming.CutIsInvisibleExactly | internal/connectors/postgresql/wal_parser.go:367-394 | A cut cannot be noticed by any continuation if and only if the drain before it does not end at a verdict that depends on the cut |
| Streaming.DrainProgresses | internal/connectors/postgresql/wal_parser.go:377-380 | The drain loop never stops for want of progress when every message takes a byte |
| Streaming.StreamRoundTrip | internal/connectors/postgresql/wal_parser.go:367-394 | Draining an encoded stream of messages, whatever follows it, is executing the messages one by one and then draining what follows |
| Streaming.UnsafeCutsAreMarkers | internal/connectors/postgresql/wal_parser.go:715-739 | In an encoded stream, the cuts that a verdict depends on are positions behind a marker, and exactly these where no message fails |
| Streaming.DeliveredAsWritten | internal/connectors/postgresql/wal_parser.go:318-394 | Any fragmentation of an encoded stream that avoids those cuts ends as if the messages had been executed one by one, at the same fault if one fails |
| PgoutputStability.MessageStands | internal/connectors/postgresql/wal_parser.go:396-438 | Prefix stability: a verdict on a buffer is the same, with the same consumed count, when more bytes follow and wherever the bytes lie, but for an UPDATE accepted at its marker |
| PgoutputStability.PrefixStabilityExactly | internal/connectors/postgresql/wal_parser.go:715-739 | Prefix stability holds at a buffer if and only if the message was not accepted at an UPDATE marker without its new tuple |
| PgoutputStability.MarkerVerdictFalls | internal/connectors/postgresql/wal_parser.go:715-739 | A message accepted at the marker takes the whole buffer, and one more zero byte makes it incomplete |
| PgoutputStability.UpdateStands | internal/connectors/postgresql/wal_parser.go:692-745 | The verdict on an UPDATE stands, old tuple, marker and new tuple included, unless it was reached at the marker |
| PgoutputStability.TupleStands | internal/connectors/postgresql/wal_parser.go:796-865 | The verdict on a tuple (incomplete, unknown relation, too many columns, or the row) stands when more bytes follow |
| PgoutputStability.CodecIsStable | internal/connectors/postgresql/wal_parser.go:396-438 | The parser as a whole takes at least one byte and at most the buffer for each message, and its verdicts stand but at the marker |
| PgoutputStability.CodecIsSharp | internal/connectors/postgresql/wal_parser.go:715-739 | At the marker the verdict falls with the next byte |
| PgoutputStability.PayloadsAgree | internal/connectors/postgresql/wal_parser.go:318-394 | Fragment independence of the WAL parser: changes, relations, transaction, tail and fault do not depend on how the stream is cut, short of a cut behind a marker; the no-progress error never arises |
| PgoutputStability.CutCannotBeNoticedExactly | internal/connectors/postgresql/wal_parser.go:715-739 | A cut of the WAL stream cannot be noticed by any continuation if and only if it does not fall behind an UPDATE marker |
| PgoutputRoundTrip.MessageRoundTrip | internal/connectors/postgresql/wal_parser.go:396-438 | Wherever the encoding of a well-formed message (all ten kinds) lies and whatever follows, decoding gives back that message and consumes exactly its length |
| PgoutputRoundTrip.TupleAt | internal/connectors/postgresql/wal_parser.go:796-865 | A tuple of text, null and unchanged-TOAST cells decodes to its row, with the TOAST columns omitted |
| PgoutputRoundTrip.RelationAt | internal/connectors/postgresql/wal_parser.go:579-665 | A RELATION message decodes to its columns and the key columns flagged in it |
| PgoutputRoundTrip.UpdateAt | internal/connectors/postgresql/wal_parser.go:692-745 | An UPDATE with an old tuple decodes to both rows |
| PgoutputRoundTrip.PartialMessage | internal/connectors/postgresql/wal_parser.go:396-455 | A proper prefix of an encoded message is never refused, and is complete only at an UPDATE marker |
| PgoutputRoundTrip.ServerStreamRoundTrip | internal/connectors/postgresql/wal_parser.go:367-438 | The bytes of a sequence of well-formed messages are consumed exactly, with the effect of executing the messages in order |
| PgoutputRoundTrip.ServerDelivers | internal/connectors/postgresql/wal_parser.go:318-394 | End to end: any fragmentation that avoids the markers delivers what the server wrote; if a message is refused, the changes before it and the same fault |
| PgoutputRoundTrip.ServerDeliversWithoutOldTuples | internal/connectors/postgresql/wal_parser.go:718-739 | Without old tuples on UPDATEs, every fragmentation does |
| PgoutputRoundTrip.TruncateSendsNothing | internal/connectors/postgresql/wal_parser.go:783-793 | Building a TRUNCATE event succeeds only by being filtered out |
| PgoutputRoundTrip.RunSendsNoTruncate | internal/connectors/postgresql/wal_parser.go:772-793 | No sequence of messages ever sends a TRUNCATE |
| WalFrames.SentAsDecoded | internal/connectors/postgresql/wal_parser.go:318-343 | A connection sends, in order, exactly the changes of the decoding session that its payloads make up |
| WalFrames.FramingIsInvisible | internal/connectors/postgresql/wal_parser.go:318-394 | Two ways of framing the same bytes, cut cleanly, send the same (operation, key, data) sequence |
| WalFrames.EventsInLsnOrder | internal/connectors/postgresql/wal_parser.go:329-343 | If the positions that the frames give (their WAL start or, where that is 0, the server's end) never go back from the start LSN, the LSNs on the sent events never decrease under compareLSN |
| WalFrames.SentInOrder | internal/connectors/postgresql/wal_parser.go:329-343 | Every event carries a readable LSN between the start and the current position, in order |
| WalFrames.OnceStopped | internal/connectors/postgresql/wal_parser.go:250-253 | After a failed frame nothing further is processed |
| WalParsing.ReadCString | internal/connectors/postgresql/wal_parser.go:867-874 | The scan for the terminator finds the text in front of the first zero byte, or that there is none |
| WalParsing.ReadColumns | internal/connectors/postgresql/wal_parser.go:615-650 | The column loop reads exactly the columns of the message and collects the flagged key columns |
| WalParsing.ReadCells | internal/connectors/postgresql/wal_parser.go:809-853 | The cell loop reads the cells of a tuple, skipping unchanged TOAST values, with the same incomplete and fatal verdicts |
| WalParsing.ReadGenericMessage | internal/connectors/postgresql/wal_parser.go:908-926 | A MESSAGE is consumed to the end of its content |
| WalParsing.BuildDocument | internal/connectors/postgresql/wal_parser.go:959-974 | The document holds the table, the schema and the last value of every column name |
| WalParsing.ValuesByName | internal/connectors/postgresql/wal_parser.go:1014-1017 | The map holds the last value of each column name |
| WalParsing.ExtractPrimaryKey | internal/connectors/postgresql/wal_parser.go:1002-1029 | The key is the values of the key columns joined by colons, or the first column when no key is flagged, or the error of the missing column |
| WalParsing.WalParser.CreateChangeEvent | internal/connectors/postgresql/wal_parser.go:929-1000 | At most one event is sent, stamped with the LSN: none for a filtered table, an error for an unknown relation, missing data or a missing key column |
| WalParsing.WalParser.ReadTuple | internal/connectors/postgresql/wal_parser.go:796-865 | The tuple parser on the parser's own relation table equals its specification |
| WalParsing.WalParser.HandleRelation | internal/connectors/postgresql/wal_parser.go:579-665 | A RELATION message replaces its entry of the relation table; an incomplete one changes nothing |
| WalParsing.WalParser.HandleUpdate | internal/connectors/postgresql/wal_parser.go:692-745 | An UPDATE sends its event and changes nothing else; incomplete or refused, it sends nothing |
| WalParsing.WalParser.ReadUpdateRows | internal/connectors/postgresql/wal_parser.go:703-739 | The tuples of an UPDATE, with the acceptance at the marker |
| WalParsing.WalParser.HandleInsert | internal/connectors/postgresql/wal_parser.go:668-689 | An INSERT sends its event, stamped with the handler's LSN |
| WalParsing.WalParser.HandleDelete | internal/connectors/postgresql/wal_parser.go:748-769 | A DELETE sends the event of its old row |
| WalParsing.WalParser.HandleTruncate | internal/connectors/postgresql/wal_parser.go:772-793 | A TRUNCATE is consumed and sends nothing |
| WalParsing.WalParser.ParseSingle | internal/connectors/postgresql/wal_parser.go:396-438 | One message, decoded and executed on the mutable state, is one round of the specified drain; incomplete and refused messages change nothing |
| WalParsing.WalParser.ProcessBufferedMessages | internal/connectors/postgresql/wal_parser.go:367-394 | The drain loop over the buffer: what is sent, the new state, and the tail that is kept, or the fault with the buffer left as it was |
| WalParsing.WalParser.ParseXLogData | internal/connectors/postgresql/wal_parser.go:318-343 | The frame's LSN is taken over, the payload appended, and the whole is one feed of the session |
| WalParsing.WalParser.ProcessMessages | internal/connectors/postgresql/wal_parser.go:217-275 | The receive loop processes frames in order up to the first that fails |
| Lsn.FormatThenParse | internal/connectors/postgresql/checkpoint.go:221-247 | Printing and parsing an LSN are inverse on every 64-bit value |
| Lsn.FormatIsCanonical | internal/connectors/postgresql/checkpoint.go:250-256 | FormatLSN keeps the number and is idempotent |
| Lsn.FormatIsInjective | internal/connectors/postgresql/checkpoint.go:250-256 | Two readable LSNs have the same canonical text if and only if they are the same position |
| Lsn.ComparisonsAreNumeric | internal/connectors/postgresql/checkpoint.go:169-217 | compareLSN and LSNManager.CompareLSN are the numeric order wherever both halves fit 32 bits |
| Lsn.FormatKeepsOrder | internal/connectors/postgresql/checkpoint.go:250-256 | Canonical texts compare as the texts they stand for |
| Lsn.ComparisonsAgreeExactly | internal/connectors/postgresql/lsn_manager.go:78-117 | Where compareLSN answers, the LSN manager gives the same answer if and only if both texts are readable |
| Lsn.CompareIsTotalPreorder | internal/connectors/postgresql/checkpoint.go:169-217 | compareLSN is a total preorder on the texts that pass validation |
| Lsn.ValidIsReadableExactly | internal/connectors/postgresql/checkpoint.go:136-164 | A text that passes isValidLSN can be read as a position if and only if both halves fit 32 bits |
| Lsn.ValidButUnreadable | internal/connectors/postgresql/checkpoint.go:136-164 | Every text with a wider high half passes validation and is unreadable |
| Lsn.AdvanceIsAddition | internal/connectors/postgresql/lsn_manager.go:129-154 | AdvanceLSN is addition modulo 2^64, and plain addition if and only if nothing wraps |
| Lsn.AdvanceUndone | internal/connectors/postgresql/lsn_manager.go:129-154 | Advancing and going back by the same distance returns to the canonical text |
| Binlog.CompareIsLexicographic | internal/connectors/mysql/checkpoint.go:128-202 | Compare is the lexicographic order on binlog number, file name and offset |
| Binlog.CompareIsTotalOrder | internal/connectors/mysql/checkpoint.go:128-202 | It is a total order on parsed positions: reflexive, antisymmetric, transitive, total |
| Binlog.FilesInSequence | internal/connectors/mysql/checkpoint.go:164-202 | Files of one server are ordered by the sequence numbers printed in their names, however far each is padded with zeros |
| Pipeline.FlushConserves | internal/orchestrator/multi_orchestrator.go:617-676 | A flush moves every event of the batch to exactly one fate |
| Pipeline.FiledApart | internal/orchestrator/multi_orchestrator.go:642-661 | The dead-letter queue stores or refuses each kept event, never both |
| HandoffRuns.RunConserves | internal/orchestrator/multi_orchestrator.go:561-676 | In every interleaving, each offered event is in exactly one of channel, hand, batch, acknowledged, dead-lettered, refused, lost, removed, cleared; the channel keeps to its capacity and the batch is below batchSize between steps |
| SinkService.Sink.BulkWrite | internal/sink/es/es.go:171-281 | A bulk write applies its events in order: INSERT and UPDATE index, DELETE deletes, others are skipped |
| MultiOrchestrator.MultiJob.AddToBatch | internal/orchestrator/multi_orchestrator.go:561-568 | An event goes into the channel when there is room |
| MultiOrchestrator.MultiJob.ResetCdcBuffers | internal/orchestrator/multi_orchestrator.go:571-590 | The batch and the channel are emptied, and the counts are those dropped; an event in the processor's hand is not reached |
| MultiOrchestrator.MultiJob.Receive | internal/orchestrator/multi_orchestrator.go:599-599 | The processor takes the oldest event of the channel |
| MultiOrchestrator.MultiJob.Process | internal/orchestrator/multi_orchestrator.go:600-605 | The event is appended and a full batch is flushed |
| MultiOrchestrator.MultiJob.TransformEvents | internal/orchestrator/multi_orchestrator.go:714-732 | The results are collected in order |
| MultiOrchestrator.MultiJob.AddToDeadLetters | internal/orchestrator/multi_orchestrator.go:643-658 | Events that have a live item (of the same key and, for MySQL, the same position) are refused, the others stored and counted |
| MultiOrchestrator.MultiJob.FlushBatch | internal/orchestrator/multi_orchestrator.go:617-676 | The whole new state of a flush in each of its cases: empty batch, nothing kept, acknowledged, failed with and without a dead-letter queue |
| MultiOrchestrator.MultiJob.ProcessSnapshotChunk | internal/orchestrator/multi_orchestrator.go:1437-1513 | Snapshot records become INSERTs at the chunk's LSN, records without a key are skipped, and the checkpoint moves only when the sink accepted |
| HandoffRuns.ResetInSteps | internal/orchestrator/multi_orchestrator.go:570-590 | The reset as one method is the protocol's clearing and dropping steps with nothing in between |
| Pipeline.FlushExactly | internal/orchestrator/multi_orchestrator.go:617-676 | Whatever the transform service returns for a batch: once the sink has accepted, each row holds what the last result that concerns it says and a row that no result concerns is as before, and the checkpoint is the position of the last result; after a failure, or when nothing came back, the checkpoint stays and only what landed is in the sink; the batch is empty in every case |
| Pipeline.PutExactly | internal/orchestrator/multi_orchestrator.go:599-605 | An event waits in the batch until a hundred have come together; then they are flushed, whatever comes of it |
| Pipeline.FiledExactly | internal/orchestrator/multi_orchestrator.go:642-661 | Of the events that a failed flush keeps, the dead-letter queue stores exactly the first of each identity that has no live item there |
| MultiOrchestrator.ChunkMerges | internal/orchestrator/multi_orchestrator.go:1441-1502 | Sending the records of a chunk is merging its rows into the sink |
| Replay.ReplayStretch | internal/orchestrator/multi_orchestrator.go:592-676 | Replaying a stretch of the log that begins at or before the oldest row of the sink brings every row at least to its end, whatever the sink had seen before |
| Replay.ReplayOne | internal/sink/es/es.go:181-190 | Applying one entry again moves the lower bound of every row on |
| Handoff.StepKeeps | internal/orchestrator/multi_orchestrator.go:398-491 | Every clean step of the handoff protocol keeps the invariant |
| Handoff.SinkRowsKeeps | internal/orchestrator/multi_orchestrator.go:1437-1513 | Writing part of a chunk's records keeps it, including for rows that appear or vanish while chunks are read |
| Handoff.ReadChunkKeeps | internal/connectors/postgresql/parallel_integration.go:252-345 | Reading a chunk at any time after the slot was created keeps it |
| Handoff.StartReadingKeeps | internal/connectors/postgresql/postgresql.go:145-167 | Starting the stream anywhere before the requested and the confirmed position, but not before what was confirmed, keeps it |
| Handoff.FlushKeeps | internal/orchestrator/multi_orchestrator.go:637-675 | An acknowledged flush keeps it, and with it the checkpoint stays behind every row of the sink |
| HandoffRuns.RowsStandBetween | internal/orchestrator/multi_orchestrator.go:398-491 | Safety over whole runs: after any number of restarts, each row of the sink is the source row at some index between wherever the server may resume and the furthest entry read |
| HandoffRuns.SinkConverges | internal/orchestrator/multi_orchestrator.go:421-491 | Whenever a clean run has caught up with the log, the sink equals the source table |
| HandoffRuns.CatchingUp | internal/orchestrator/multi_orchestrator.go:592-614 | From every state with the stream open, steps of the job alone lead there |
| HandoffRuns.InitiallyHolds | internal/connectors/postgresql/postgresql.go:684-710 | The invariant holds once the slot has been created and then the table divided into chunks |
| Replay.ReplayExactly | internal/orchestrator/multi_orchestrator.go:592-676 | Replaying the log from any index on any sink arrives at the source's table if and only if every row that the rest of the log leaves alone is already as the source had it there |
| Replay.RecoversAcross | internal/orchestrator/multi_orchestrator.go:592-676 | Whether a sink recovers is settled before a stretch of the log is replayed, and not changed by it |
| Replay.BetweenRecovers | internal/orchestrator/multi_orchestrator.go:592-676 | A sink whose rows lie between two indices recovers from the first and from anywhere before |
| HandoffTransform.MirrorStep | internal/orchestrator/multi_orchestrator.go:398-732 | Every step of a job with a transform service is a step of a job without one on the transformed log, and keeps its invariant |
| HandoffTransform.RowsConverge | internal/orchestrator/multi_orchestrator.go:421-732 | With a transform service that acts on rows, in snapshot and change capture alike: whenever a run has caught up, after any number of restarts, the sink is the source's table with every row transformed |
| HandoffTransform.LogConverges | internal/orchestrator/multi_orchestrator.go:421-732 | With any per-event transform that keeps positions, also one that removes events or changes keys, for a source that is empty when the slot is created: whenever a run has caught up, the sink is what applying the service's results for the whole log, in order, makes of an empty index |
| HandoffCourse.OnCourseArrives | internal/orchestrator/multi_orchestrator.go:421-614 | A row that is on course (it recovers from the oldest entry on its way and from wherever the server may resume) is right whenever a clean run, with any number of restarts, has caught up |
| HandoffCourse.CourseStep | internal/orchestrator/multi_orchestrator.go:421-614 | Every clean step keeps a row on course, also with an event left over from before a reset |
| HandoffExact.OpenExactly | internal/orchestrator/multi_orchestrator.go:421-614 | With the stream open, whatever has been confirmed: all clean runs from here, with any number of restarts, end at the source's table whenever they have caught up if and only if every row recovers from the oldest entry on its way, from where the server resumes if the stream ends now, and, where a confirmed position lies behind entries on their way, from there after each flush that may come first |
| HandoffExact.StreamingExactly | internal/orchestrator/multi_orchestrator.go:421-614 | With no position confirmed too early: they do if and only if every row that the log leaves alone, from the oldest entry on its way or from where the server resumes if that is further, is in the sink as the source had it there |
| HandoffExact.InvArrives | internal/orchestrator/multi_orchestrator.go:421-491 | From every state in which the invariant holds, all clean runs end at the source's table whenever they have caught up |
| HandoffExact.ClosedExactly | internal/orchestrator/multi_orchestrator.go:466-491 | With the stream closed, whatever a processor that overlaps with the reset has left beside the channel: they do if and only if the rows recover with all of that from the furthest index that the server may resume at by the checkpoint, the confirmed position and the last of these events, and, unless the processor has to flush them, without all of it from where the server resumes now |
| HandoffExact.LadenExactly | internal/orchestrator/multi_orchestrator.go:466-614 | With the stream opened again while events are left over from before the reset: they do if and only if every row is steady as if these had reached the sink, recovers from where the server resumes if they are flushed alone, and without them from where it resumes if a further reset clears them |
| HandoffFailures.ResettingExactly | internal/orchestrator/multi_orchestrator.go:571-603 | After a reset while the processor holds an event, and takes no other until the channel is empty, all clean runs still arrive if and only if the rows recover with the event from where the server may resume once it is flushed, and without it from where the server resumes now |
| HandoffFailures.TakingExactly | internal/orchestrator/multi_orchestrator.go:578-603 | The same for one more event that is taken from the channel while it is being emptied, whatever has been taken before, if it is the last |
| HandoffFailures.OverlappingExactly | internal/orchestrator/multi_orchestrator.go:571-605 | A reset during which the processor takes, puts and flushes any events while others are dropped: at every point until the stream is opened again, if it takes no more from then on, the same of everything left beside the channel |
| HandoffFailures.HarmlessReset | internal/orchestrator/multi_orchestrator.go:571-603 | A reset with an event in hand and none in the batch loses nothing, whatever restarts follow, if the server resumed where it was asked to and the processor takes nothing more until the channel is empty |
| HandoffFailures.FlushingExactly | internal/orchestrator/multi_orchestrator.go:617-676 | Whatever transform service and sink made of a flush, all clean runs still arrive if and only if every row that the log leaves alone, from the end of the batch or from where the server resumes if that is further, is in the sink as the source had it there |
| HandoffFailures.FailingExactly | internal/orchestrator/multi_orchestrator.go:637-666 | A failed flush loses nothing if and only if that holds of what the sink held before with what has landed of the batch: a condition on the state before the flush |
| HandoffFailures.ConfirmingExactly | internal/connectors/postgresql/wal_parser.go:206-231 | After a position has been confirmed as flushed, all clean runs still arrive if and only if the rows recover from the oldest entry on its way, from where the server now resumes, and from there after each flush that may end in front of it |
| HandoffFailures.RetryingExactly | internal/orchestrator/multi_orchestrator.go:1552-1601 | After a dead-lettered event has been retried with the stream open, all clean runs still arrive if and only if the rows recover with the event applied |
| HandoffFailures.RetryingClosedExactly | internal/orchestrator/multi_orchestrator.go:1552-1601 | The same with the stream closed, whatever is left over beside the channel |
| HandoffFailures.RetryingLadenExactly | internal/orchestrator/multi_orchestrator.go:1552-1601 | The same with the stream opened again while events are left over |
| HandoffFailures.ConfirmingLadenExactly | internal/connectors/postgresql/wal_parser.go:206-231 | The same for a position that is confirmed then |
| HandoffFailures.RetriedRowDecides | internal/orchestrator/multi_orchestrator.go:1552-1601 | In a job that has lost nothing, at any time after the snapshot, only the retried row decides |
| HandoffFailures.RetriedExactly | internal/orchestrator/multi_orchestrator.go:1646-1673 | Events retried in any order after the job has caught up, with any number of restarts before: every such run ends at the source's table if and only if each retried row is at the end of the log as the last event retried for it leaves it, and every other row recovered without |
| HandoffFailures.FiledOnce | internal/dlq/dlq.go:96-109 | Of a failed batch only the first event of each identity is stored: for PostgreSQL one change of a row |
| HandoffFailures.RetriedInOrderExactly | internal/orchestrator/multi_orchestrator.go:637-666 | What the dead-letter queue has stored of a failed batch, retried in order after the job has caught up: the sink is the source's table if and only if every retried row is at the end of the log as its last stored change leaves it, and every row with changes in the batch of which none is stored recovers without them |
| HandoffGaps.ResetLosesRow | internal/orchestrator/multi_orchestrator.go:466-491 | A reset that overlaps with the processor loses a row for good although every flush succeeds |
| HandoffGaps.OvertakenResetLosesRow | internal/orchestrator/multi_orchestrator.go:571-605 | A reset that would be harmless, had the processor not taken another event behind a dropped one: both are flushed together, the later LSN becomes the checkpoint, and the row in between is lost |
| HandoffGaps.ConfirmLosesRows | internal/connectors/postgresql/wal_parser.go:222-231 | Received positions that are confirmed before their events reach the sink lose both rows of a run in which every step of the job succeeds |
| HandoffGaps.FailedFlushLeavesGap | internal/orchestrator/multi_orchestrator.go:637-671 | After a refused batch the checkpoint moves beyond a row that is not in the sink, though its event can still be retried |
| HandoffGaps.FailedReplayRevives | internal/orchestrator/multi_orchestrator.go:637-671 | A replayed batch that fails after it has landed, and a clean restart behind the row's update: the sink keeps the old row |
| HandoffGaps.OnlyFirstStored | internal/dlq/dlq.go:96-109 | A failed batch holds an insert and an update of one row; only the insert is stored, and its retry leaves the row behind the source |
| HandoffGaps.LateRetryRevives | internal/orchestrator/multi_orchestrator.go:1552-1601 | An insert that is retried after the row's update went through puts the old row back into a sink that was at the source's table |
| HandoffGaps.MovedRowsStayExactly | internal/connectors/postgresql/wal_parser.go:950-997 | The sink disagrees on a key if and only if an UPDATE that gave its row another key was the last to concern it |
| LegacyOrchestrator.LegacyJob.AddToBatch | internal/orchestrator/orchestrator.go:147-155 | The event is appended and a full batch flushed |
| LegacyOrchestrator.LegacyJob.FlushBatch | internal/orchestrator/orchestrator.go:173-251 | Any failure leaves the batch; otherwise it is done, acknowledged and named by the checkpoint |
| LegacyOrchestrator.RunIsSafe | internal/orchestrator/orchestrator.go:147-257 | In every run, offered events are the done ones and then the batch, the sink has acknowledged exactly what the transform service returned for the done ones, and the checkpoint is the last of these |
| LegacyOrchestrator.CheckpointIsDone | internal/orchestrator/orchestrator.go:244-257 | The checkpoint names the last done event that had a result |
| LegacyOrchestrator.FailuresLeaveNoTrace | internal/orchestrator/orchestrator.go:173-251 | However often and however partially writes failed, whenever the batch is empty the sink is what applying every offered event once makes of it |
| LegacyOrchestrator.RedeliveryHeals | internal/orchestrator/orchestrator.go:229-242 | Delivering a batch again undoes whatever part of it a failed write had landed |
| LegacyOrchestrator.FlushExactly | internal/orchestrator/orchestrator.go:173-251 | A flush gets somewhere if and only if the transform service answers and no event came back or the sink accepted: each event of the batch is then done with its own result, each row holds what the last result that concerns it says, and the checkpoint is the position of the last result; otherwise batch and checkpoint stay |
| LegacyOrchestrator.TickSettles | internal/orchestrator/orchestrator.go:157-251 | In every run: after a tick on which nothing fails, the batch is empty and every event offered so far is done |
| LegacyOrchestrator.AddExactly | internal/orchestrator/orchestrator.go:147-155 | An event waits in the batch until a hundred have come together; then a flush is tried |
| LegacyOrchestrator.BatchStaysSmall | internal/orchestrator/orchestrator.go:147-251 | As long as neither transform service nor sink fails, the batch stays below a hundred events |
| LegacyOrchestrator.BatchHasNoBound | internal/orchestrator/orchestrator.go:151-185 | While the transform service fails the batch grows without bound |
| DeadLetters.RetriesAreBounded | internal/dlq/dlq.go:173-268 | No item is retried more than maxRetries times, a pending item has retries left, and attempt i starts at least delay * 2^i after attempt i - 1 |
| DeadLetters.RetryingEnds | internal/dlq/dlq.go:172-268 | Returns of the callback and remaining retries add up to maxRetries for each stored item |
| DeadLetters.LiveKeysAreUnique | internal/dlq/dlq.go:88-151 | Without discards of items held by the retrier, no two live items share a key |
| DeadLetters.BeginKeepsUniqueExactly | internal/dlq/dlq.go:232-237 | Starting a retry keeps live keys unique if and only if the item is unlisted, still live, or nothing else live has its key |
| DeadLetters.EndKeepsUniqueExactly | internal/dlq/dlq.go:243-262 | The end of a retry keeps live keys unique if and only if it succeeded or was the last, or the item is unlisted, still live, or nothing else live has its key |
| DeadLetters.StepKeepsUniqueExactly | internal/dlq/dlq.go:88-341 | Of all seven kinds of steps, exactly those that revive a discarded item beside a live one of its key break uniqueness |
| DeadLetters.LiveKeysAreUniqueExactly | internal/dlq/dlq.go:88-341 | Live keys are unique all through a run if and only if no step of it does that |
| DeadLetters.DiscardedComesBack | internal/dlq/dlq.go:324-341 | An item discarded while the retrier holds it comes back to life, next to a new item for the same event |
| DeadLetters.FailedRetryComesBack | internal/dlq/dlq.go:241-262 | So does one that is discarded while its callback runs and the callback fails |
| DeadLetters.SameKeyExactly | internal/dlq/dlq.go:144-151 | Two failed events are taken for the same if and only if job, primary key and binlog position agree, whatever the primary keys hold, where binlog files and the ids of different jobs do not hold the separator |
| DeadLetters.SamePositionExactly | internal/dlq/dlq.go:146-149 | Position texts agree if and only if there is no position or file and offset agree |
| DeadLetters.LaterChangeRefused | internal/dlq/dlq.go:96-109 | A later PostgreSQL change of a row with a live item is refused as a duplicate |
| DlqManagement.DlqManager.AddFailedEvent | internal/dlq/dlq.go:88-141 | An item is stored unless a live one has its key; under a new id this is the queue's step |
| DlqManagement.DlqManager.CollectDue | internal/dlq/dlq.go:173-193 | Exactly the pending items with retries left and the delay passed are collected, each once: the queue's step |
| DlqManagement.DlqManager.BeginRetry | internal/dlq/dlq.go:232-237 | The item is marked as retrying now |
| DlqManagement.DlqManager.EndRetry | internal/dlq/dlq.go:243-262 | The count goes up and the item is resolved, exhausted or pending again |
| DlqManagement.DlqManager.RetryItem | internal/dlq/dlq.go:232-268 | One call of the callback is a run of the queue: time passes, the retry begins, and it ends as the callback says |
| DlqManagement.DlqManager.DiscardItem | internal/dlq/dlq.go:324-341 | Only the named item becomes discarded |
| DlqManagement.DlqManager.CleanupResolved | internal/dlq/dlq.go:378-403 | Exactly the resolved and discarded items older than the cutoff are removed, and counted |
| DlqManagement.DlqManager.GetStats | internal/dlq/dlq.go:271-293 | Every item is counted once, under its status |
| Chunks.CreateIdBasedChunks | internal/parallel/manager.go:241-299 | Computed in int64, the half-open chunks are non-empty, adjacent and run from the least id to behind the greatest if and only if the range fits; then they differ in width only in the last, by less than their number; there are as many as whole chunk sizes fit the range, but at least one and at most the limit |
| Chunks.CreateStrideChunks | internal/connectors/postgresql/parallel_integration.go:224-243 | Where the sum of the least id and all strides fits int64, the loop in int64 arithmetic terminates and its chunks are non-empty, adjacent and complete, of equal width but for the last |
| Chunks.StrideExactly | internal/connectors/postgresql/parallel_integration.go:224-243 | The loop in int64 stops after some number of rounds with adjacent chunks from the least to the greatest id if and only if that sum does not overflow, and then after as many rounds as the range has strides |
| Chunks.ChunksAreTheTable | internal/parallel/worker.go:155-176 | Reading the chunks one after the other is the full ordered scan of the table |
| Chunks.ExactlyOneChunk | internal/parallel/manager.go:274-298 | Every id of the range lies in exactly one chunk |
| Chunks.PagesAreAllExactly | internal/connectors/mongodb/parallel_integration.go:294-317 | The skip/limit chunks concatenate to the whole sorted collection if and only if it is no larger than the estimate rounded up |
| Chunks.SendInBatches | internal/connectors/postgresql/parallel_integration.go:280-341 | Rows go out in order, complete, in full batches but for the last |
| Chunks.ChunksMakeAPlan | internal/connectors/postgresql/parallel_integration.go:209-243 | Chunks from the least to the greatest id of the table make a plan that the handoff may start from |
| NestedPaths.GetNestedValue | internal/transform/field_mapper.go:55-77 | The value that the path leads to through nested maps, or none |
| NestedPaths.SetNestedValue | internal/transform/field_mapper.go:81-105 | Get after set returns the value with all it holds; every path apart from the set one leads where it led before |
| NestedPaths.DeleteNestedValue | internal/transform/field_mapper.go:108-134 | Get after delete is absent; every path that does not lead on from the deleted one is unchanged |
| NestedPaths.MoveField | internal/transform/field_mapper.go:36-39 | The value is found at the target, the source is gone, and paths apart from both are unchanged |
| NestedPaths.OnlyBehind | internal/transform/field_mapper.go:81-134 | Changing one key of one map of an unshared tree changes only what is reached through it |
| NestedPaths.HungUpLaws | internal/transform/field_mapper.go:89-104 | Storing a value keeps the document an unshared tree, lists included, with the value at its place and everything else as before |
| FieldMapping.DeepCopy | internal/transform/field_mapper.go:137-157 | The copy consists of new maps throughout, those inside lists included, and holds the same all the way down |
| FieldMapping.CopiedAtPath | internal/transform/field_mapper.go:137-157 | Every path leads somewhere in the copy if and only if it does in the original, and to a copy of what is there |
| FieldMapping.ApplyMapping | internal/transform/field_mapper.go:29-48 | One rename, move or copy does what the laws say, and nothing when the source is absent |
| FieldMapping.Apply | internal/transform/field_mapper.go:17-51 | The mappings act in order on a copy that shares no map with the input, which is not changed, up to the first unknown action or copy of a value that holds a map |
| FieldMapping.ProcessFieldConfigs | internal/transform/field_mapper.go:160-195 | The rules act in order and in place, up to the first required field that is missing; a default value of any kind becomes part of the document with the maps it holds |
| ConfigSync.MergeConfigs | internal/config/sync_service.go:268-321 | Existing entries other than the default are appended in order unless their id is known |
| ConfigSync.ValidateMultiConfig | internal/config/sync_service.go:323-375 | No fault if and only if ids, hosts, ports and addresses are given and every job refers to known entries; a fault that is reported is one that the configuration has |
| ConfigSync.RoundTrip | internal/config/sync_service.go:219-266 | Migrating, merging into any configuration and converting back gives the single record back |
| ConfigSync.MergeIsUnique | internal/config/sync_service.go:268-321 | The merge has unique ids even if the existing configuration repeats them |
| ConfigSync.MergeIsIdempotent | internal/config/sync_service.go:268-321 | Merging again changes nothing |
| ConfigSync.MergeIsValid | internal/config/sync_service.go:323-375 | The merge is valid whenever the existing configuration and the single record are |
| ConfigSync.ReferencesKept | internal/config/sync_service.go:362-371 | Jobs keep the sources and sinks they refer to |
| ConfigSync.GlobalSettingsReset | internal/config/multi_config.go:248-252 | The global settings survive a merge if and only if they are the migration's own |
| Flattening.FlattenRecursive | internal/connectors/mongodb/type_converter.go:227-256 | For any keys and any limit: the result is what visiting the fields in some order comes to; it adds a value for the name of every path that appears below them, each the value of a path of that name, and loses no name |
| Flattening.FlattenDocument | internal/connectors/mongodb/type_converter.go:221-225 | For any document: the flat map of some visiting order; the names are exactly those of the paths that appear, and each has the value of a path of that name |
| Flattening.FlatAgreesWithLookup | internal/connectors/mongodb/type_converter.go:240-254 | Every path of length at most maxDepth + 1 to a value that is no map is in the flat map under its name, with that value |
| Flattening.FlatHoldsNothingElse | internal/connectors/mongodb/type_converter.go:241-248 | Every entry is found at a path within the limit, and is a map only at the limit or as the top-level _id |
| Flattening.FlatHoldsAll | internal/connectors/mongodb/type_converter.go:227-256 | With non-empty, dot-free keys, what is found at each path that appears is under its dotted name |
| Flattening.VisitingOrderExactly | internal/connectors/mongodb/type_converter.go:227-256 | All orders of visiting the fields of a document and of the maps in it lead to the same flat map if and only if paths that appear under the same name lead to the same value |
| Flattening.LastVisited | internal/connectors/mongodb/type_converter.go:227-256 | Every path that appears can be visited last, and its value then remains under its name |
| Flattening.FlatIsUniqueExactly | internal/connectors/mongodb/type_converter.go:227-256 | Only one map has the names and values that flattening promises if and only if the same holds |
| Flattening.DottedKeysCollide | internal/connectors/mongodb/type_converter.go:229-232 | With a dot in a key they need not |
| Flattening.EmptyKeysCollide | internal/connectors/mongodb/type_converter.go:229-232 | With an empty key and no dot in any they need not |
| Flattening.FlatIsUnique | internal/connectors/mongodb/type_converter.go:227-228 | With non-empty, dot-free keys, the result does not depend on the order in which the fields are visited |
| Flattening.NamesApart | internal/connectors/mongodb/type_converter.go:229-232 | Different paths of non-empty, dot-free keys have different dotted names |
| PgoutputEvents.DocumentHolds | internal/connectors/postgresql/wal_parser.go:959-974 | The document holds, under each name, the last column of that name, the table and the schema where no column took their names, and nothing else |
| PgoutputEvents.PartsAreColumns | internal/connectors/postgresql/wal_parser.go:1019-1026 | The key parts are the texts of the key columns in order, and exist if and only if every key column is in the row |
| PgoutputEvents.KeyExistsExactly | internal/connectors/postgresql/wal_parser.go:1002-1029 | When a row gets a key, as an if-and-only-if |
| PgoutputEvents.JoinedApart | internal/connectors/postgresql/wal_parser.go:1028-1028 | Rows with equally many colon-free key columns share a key if and only if they agree on all of them |
| PgoutputEvents.JoinIdentifiesExactly | internal/connectors/postgresql/wal_parser.go:1028-1028 | The parts of a key can be told from it, among all lists of as many parts, if and only if there is one part or none has a colon |
| PgoutputEvents.RowIdentifiedExactly | internal/connectors/postgresql/wal_parser.go:1002-1029 | A row with a key is the only one of its columns with that key, up to the values of the key columns, if and only if none of these is NULL or spells it and, if there are several, none has a colon |
| PgoutputEvents.UnkeyedRowIdentifiedExactly | internal/connectors/postgresql/wal_parser.go:1007-1012 | Without key columns, rows of one key agree on the first column if and only if it is neither NULL nor spells it, and are the same row if and only if it is also the only column |
| PgoutputEvents.SentExactly | internal/connectors/postgresql/wal_parser.go:929-1000 | When an operation sends its change, when it is held back by the filters, and when it is refused |
| PgoutputEffects.InsertIsSent | internal/connectors/postgresql/wal_parser.go:668-689 | The bytes of an INSERT of an allowed table send exactly one change, an insert with the key and the document of the written cells, or are refused because these make no key |
| PgoutputEffects.UpdateIsSent | internal/connectors/postgresql/wal_parser.go:692-745 | The bytes of an UPDATE send exactly one update of the new row, with or without an old row in front of it |
| PgoutputEffects.DeleteIsSent | internal/connectors/postgresql/wal_parser.go:748-769 | The bytes of a DELETE send exactly one delete of the old row |
| PgoutputEffects.HeldBack | internal/connectors/postgresql/wal_parser.go:936-948 | The bytes of a row's message of a table outside the filters are consumed and do nothing |
| PgoutputEffects.RelationIsLearnt | internal/connectors/postgresql/wal_parser.go:579-665 | The bytes of a RELATION replace exactly its own entry of the relation table, with all the columns that were written, and send nothing |
| PgoutputEffects.KeyColumnsInTwo | internal/connectors/postgresql/wal_parser.go:615-665 | The key columns are the flagged ones in the order of the table |
| PgoutputEffects.BeginSetsTransaction | internal/connectors/postgresql/wal_parser.go:536-552 | The bytes of a BEGIN set the transaction with its id, commit time and final position |
| PgoutputEffects.CommitClearsTransaction | internal/connectors/postgresql/wal_parser.go:555-577 | The bytes of a COMMIT clear it |
| PgoutputEffects.OthersDoNothing | internal/connectors/postgresql/wal_parser.go:772-926 | The bytes of a TRUNCATE, ORIGIN, TYPE or MESSAGE are consumed and do nothing |
| PgoutputEffects.JoinInTwo | internal/connectors/postgresql/wal_parser.go:1028-1028 | A key of several parts is these parts with colons between them, and a key of one part is that part |
| PgoutputEffects.OwnTexts | internal/connectors/postgresql/wal_parser.go:959-974 | A NULL key part is spelled <nil>, and the added names are _table and _schema |
| PgoutputEffects.KnownStream | internal/connectors/postgresql/wal_parser.go:367-438 | The literal bytes of a transaction, as the protocol lays them out, with a RELATION, an INSERT, an UPDATE and a DELETE: their three changes, the relation, and no transaction left open |
| WalFrames.FrameStamps | internal/connectors/postgresql/wal_parser.go:329-335 | A frame's events are stamped with its WAL start whatever the server's end is, with the server's end if there is no start, and with the position before if there is neither |
| Lsn.ReadableIsValidExactly | internal/connectors/postgresql/checkpoint.go:136-164 | A readable text is accepted as a checkpoint if and only if it is not literally 0/0 |
| Lsn.FormatIsValidExactly | internal/connectors/postgresql/checkpoint.go:136-164 | The canonical text of a position is accepted as a checkpoint if and only if the position is not 0 |
| Lsn.CaseDoesNotCount | internal/connectors/postgresql/checkpoint.go:221-240 | The case of the hexadecimal digits does not change the position that is read |
| Lsn.KnownLsn | internal/connectors/postgresql/checkpoint.go:221-247 | 16/B374D848, in either case, is the number 0x16B374D848, and this is how the number is printed |
| Binlog.NumberIsRead | internal/connectors/mysql/checkpoint.go:190-202 | The sequence number in a file name is read as the number printed there, however far it is padded with zeros; a name without a dot counts as 0 |
| Binlog.TextLessExactly | internal/connectors/mysql/checkpoint.go:176-188 | A text comes before another where it is a proper part of it from the start or has the lesser character at the first difference |
| Decimals.PrintedIsRead | internal/dlq/dlq.go:146-149 | A number is read back from its decimal text, whatever zeros stand in front |
| RetryOutcomes.StatusTells | internal/dlq/dlq.go:243-262 | In every run, an item that is not discarded is resolved if and only if its last callback succeeded, and exhausted if and only if maxRetries callbacks returned and all failed |
| RetryOutcomes.CleanupSpares | internal/dlq/dlq.go:378-403 | After every run, a cleanup takes exactly the items that first failed before the cutoff and are discarded or had a callback succeed last: no undiscarded item whose callbacks all failed |
| RetryOutcomes.AddStoresExactly | internal/dlq/dlq.go:88-141 | A failed event is refused if and only if an item of its key waits for or undergoes retry; otherwise it is stored as it is, waiting, with no retry yet, as of now |
| RetryOutcomes.CollectedExactly | internal/dlq/dlq.go:173-230 | In every run, exactly the listed items are collected that wait and have not been retried, or were last retried at least delay * 2^retries ago |
| RetryOutcomes.DueInTime | internal/dlq/dlq.go:173-230 | A waiting item is taken by the next collection once its delay has passed |
| RetryOutcomes.DiscardedForGood | internal/dlq/dlq.go:324-341 | An item that is discarded while the retrier does not have it stays discarded, and its callback is never called again |
| MappingEffects.RefusedExactly | internal/transform/field_mapper.go:29-48 | A mapping is refused if and only if it finds a value and its action is unknown, or it would put maps in a second place |
| MappingEffects.MappingMeans | internal/transform/field_mapper.go:35-44 | The target holds the value; the source still does after a copy and no longer after a rename or move; what lies apart from both is as it was |
| MappingEffects.HalfMapping | internal/transform/field_mapper.go:29-48 | Without a value at the source nothing changes; without a target a rename or move only removes, and a copy does nothing |
| MappingEffects.RenameUndone | internal/transform/field_mapper.go:36-39 | Renaming a field to a free name and back restores every path but those on the way to the two names |
| MappingEffects.RefusesExactly | internal/transform/field_mapper.go:185-188 | A rule refuses a document if and only if it demands a field that is not there or null |
| MappingEffects.RulesAllHold | internal/transform/field_mapper.go:160-195 | Rules over separate fields: in the end each has done to its field what it does alone, from what the field held at the start, and no demanded field is missing or null |
| MappingEffects.RulesTouchNothingElse | internal/transform/field_mapper.go:160-195 | What lies apart from every rule's field is untouched |
| NestedPaths.WalkExactly | internal/transform/field_mapper.go:55-77 | A path leads from one value to another if and only if there are maps on the way that hold each other under its keys |
| ConfigSync.ConvertExactly | internal/config/sync_service.go:219-266 | The single record is made of the first MySQL source and the first Elasticsearch sink; it fails, with the matching error, if and only if one of them is missing |
| ConfigSync.PreservedExactly | internal/config/sync_service.go:268-321 | What comes through a merge: the latest entries and, unchanged, the first existing one of every id that is neither the default nor taken; nothing else |
| ConfigSync.DefaultJobRuns | internal/config/multi_config.go:211-252 | The default job of a merged configuration is enabled, between the single record's own database and index |
| ConfigSync.ValidExactly | internal/config/sync_service.go:323-375 | Validity in terms of the fields: a version, ids, hosts, ports from 1 to 65535, addresses, and jobs that refer to what is there |

## Left out

- FieldMapping.Apply: what happens after a copy of a value that holds a map, which puts one map in two places of the result, to which the laws of unshared trees do not apply; the outcome says that this point was reached.
- FieldMapping.ApplyMapping: copies of values that hold maps, for the same reason.
- FieldMapping.ProcessFieldConfigs: a second document that the same rules are applied to, which would share the maps of a default value with the first.
- Chunks.CreateStrideChunks: ranges for which the loop does not stop with a partition; Chunks.StrideExactly says which these are.
- Chunks.CreateIdBasedChunks: limits or chunk sizes below one, with which the source divides by zero or makes no chunks.
- DlqManagement.DlqManager.AddFailedEvent: two failures of one row in the same nanosecond have the same item id; the method then replaces the stored item, which is no step of the state machine.
- DlqManagement.DlqManager.RetryItem: the loop of processRetryBatch, which collects once (CollectDue) and calls this for each collected item; other methods may run between its two locked halves, as the state machine allows.
- DeadLetters.RetriesAreBounded: int64 overflow of the shifted delay, which takes dozens of retries.
- HandoffRuns.SinkConverges: rows whose primary key changes, failed flushes, retries, overlapping resets and positions confirmed too early, for which the exact conditions are stated separately; and transform services, which HandoffTransform.dfy adds.
- HandoffTransform.RowsConverge: a service that removes events or changes keys while there is also a snapshot; whether a row is then kept depends on when its chunk was read. LogConverges covers such services without a snapshot.
- HandoffTransform.LogConverges: a service whose answer for an event depends on other events, and failures, as for SinkConverges.
- MultiOrchestrator.MultiJob.AddToDeadLetters: the live items that it meets are part of the flush outcome rather than read from the queue of DeadLetters.dfy, whose key of an event is by SameKeyExactly, within one job, the identity used here; a MySQL position is one number.
- HandoffRuns.RowsStandBetween: the same, and that the server begins no later than at the greater of requested and confirmed position and no earlier than at the confirmed one.
- HandoffFailures.HarmlessReset: a processor that takes further events from the channel during the same reset; OverlappingExactly judges that, and OvertakenResetLosesRow shows a loss.
- HandoffExact.LadenExactly: buffers that hold anything but events left over from a reset and then a stretch of the log.
- HandoffFailures.RetryingExactly: an event that the transform service changed; the event retried is the one that the batch held.
- WalParsing.WalParser.ProcessMessages: keepalives, status updates and messages that are no WAL frames, which send nothing and touch no state of the parser; what the status updates confirm is a step of the handoff protocol instead.
- Errors told apart by parts of their text: a datatype separates incomplete from fatal. A column whose name contains "too short" can make the source take a fatal error for an incomplete message.
- Errors of sending to the stream, and cancellation of contexts.
- Row values: the type mappers, JSON encoding and the cleaning of documents for Elasticsearch are opaque. UPDATEs that omit an unchanged TOAST column replace the whole document in the sink; rows are taken as complete.
- The commit time is kept as the message's own number; the source reads it against the Unix epoch rather than the PostgreSQL one.
- The Elasticsearch bulk indexer's workers: a bulk write applies its events in order or fails having landed some.
- Partial results of a failing transform stream: part of the flush outcome in Pipeline.dfy, where the result of an event may be missing, but not part of the runs of HandoffTransform.dfy, in which every event has the service's own result.
- Committing checkpoints to the connector service and reading them back after a process restart; only the job's own memory of its checkpoint is modelled.
- Snapshot retries after errors in a table, progress tracking, pools, schedulers and metrics.
- GetSnapshotConsistencyPoint without a preferred LSN, and ObjectID ranges, which the source replaces by skip and limit.
- gRPC, SQL and HTTP plumbing, file reads and writes, logging, the filter engine, masking, expressions, and the configuration watcher: no ordering or buffering of their own.
