# Host agent telemetry: a verified model

This project models how hardware telemetry travels from the `librehw_bridge` process and the GPU
collector into the host agent's store, and how the agent answers from it. The results are for-all statements:
over every input, every way of cutting the bytes, every sequence of calls. What a result needs beyond that is in
its hypotheses and named in its row below: ranges (two digits for the month and day of a date string, 2^52 bytes
for the memory of a GPU), that no engine call fails, or that no call of the pipe comes inside a GPU pass.
`Interleaving`, `History`, `Staleness`, `GpuHistory` and `SharedDelivery` speak of all interleavings of the pipe
thread with the collectors, with any calls failing.

The path, module by module:

- `Bridge`, `SensorPaths`, `Session`: the recursive walks over the hardware tree, against the sensors by their
  place in it; the documents built from them, and the session loop that writes them to the pipe.
- `Framing`: the incremental line buffer of the pipe server against a one-shot split of the whole stream.
- `JsonTree`, `MessageParser`, `Messages`, `MessageGrammar`: from a JSON tree to a bridge message, against a
  relation that says which message a document is.
- `CivilDays`, `Decimals`, `Timestamp`, `TimestampLaws`, `CppArithmetic`: the timestamp reader and its day
  arithmetic, in C++ semantics, against RFC 3339 and a naive calendar.
- `Database`, `Engine`, `Store`, `JsonText`: the tables, the effect of each SQL statement, a connection
  whose calls may fail, transactions, and the message writers; `Effects`, `MessageHistory`: what a stored message
  promises about each table, and what a list of them about the merged times.
- `Interleaving`, `History`, `GpuHistory`, `Staleness`: the connection shared by the pipe thread and the
  collectors, as a state machine over single engine calls, and what its tables say about the history of writes.
- `Service`, `Delivery`, `SharedDelivery`, `SensorDelivery`: parse and dispatch, and the end-to-end delivery
  results, of samples and of sensors.
- `Throttle`, `GpuProbe`, `ThermalDiscovery`, `GpuCollector`, `Freshness`, `Vram`: rate-limited GPU polling,
  sensor discovery, one poll's rows and how fresh they look, and memory from the driver to the verdict.
- `Queries`, `Readiness`: the history and snapshot queries, and the readiness reducer.
- `Wrappers`, `Subsequence`: options and results; subsequences.

`dafny verify dfyconfig.toml` checks the project.

## How to read it

A table is a map from its primary key to the other columns; a SQL statement is a `Stmt` holding its bound
parameters, and `Apply` is its effect. Every engine call has a `Fate`: it succeeds, fails, or fails and
rolls the transaction back by itself, as SQLite may. `Conn` holds the committed database and the working
one that the connection sees. The classes `Connection`, `Transaction`, `SqliteStore`, `PipeConnection`,
`PipeWriter`, `Service`, `Probe`, `SensorReader` and `DirectGpuCollector` are the program's objects, with
its loops; their contracts give their new state as a function of the old one, and the lemmas are about
those functions.

Times are unbounded integers, steady time in nanoseconds. Clock readings, driver readings, hardware trees
and reads from the pipe are parameters. Steady time is assumed non-decreasing where the throttle's
optimality needs it; nothing is assumed about UTC time except where a lemma says so.

## What turned out not to hold

- A collector's key is `machine_id:source`, which two different pairs can share when a machine id contains
  a colon (`History.CollectorIdsCollideIff`). One can then take over the other's row, and staleness is
  reported wrongly (`Staleness.ColonHidesARecentWrite`); it is right for every history exactly when the
  machine id has no colon (`Staleness.ReportIsHistoryIff`).
- A collector's write that returned success while the pipe's transaction was open can still be lost
  (`Interleaving.AcknowledgedWriteIsLost`, `Interleaving.OpenWriteCanBeLost`); it survives whatever follows
  exactly when no transaction was open (`Interleaving.WriteIsDurableIff`).
- A message can be stored in part: when a collector's failing statement rolls back the transaction, the
  pipe's next statement commits by itself (`Interleaving.PartialMessage`). Messages are whole exactly when
  the transaction is open before each of the pipe's statements (`Interleaving.MessagesAreWholeIff`).
- A verdict that is not `stale` does not mean recent GPU rows. The collector renews its health row after a
  pass whose inserts all failed, after one whose inserts succeeded and were rolled back with a message, and
  even when it found no GPU at its start; old rows are then judged as fresh (`Freshness.OldRowsLookFresh`,
  `Freshness.RolledBackPassIsLost`, `Freshness.FailedInitLooksFresh`, and one input in
  `Freshness.OldRowIsOffered`). Over every run this happens exactly when the machine's inserts that are left in
  the log are all old and some write of its health row is not (`Freshness.OldRowsLookFreshIff`). An insert is
  sure to stay exactly when no transaction is open at the time (`GpuHistory.InsertIsKeptIff`).
- `docs/ipc-contract.md` says the catalog is sent again when it changes. The bridge sends it once per
  connection, so the samples of a sensor that appears later are dropped until it reconnects
  (`Delivery.LateSensorIsLost`). When no engine call fails, a session loses nothing exactly when every sensor it
  sampled was known after the opening (`Delivery.KnownSessionLosesNothingIff`).
- The bridge is not told when a message cannot be stored, so a session of known sensors can lose samples too,
  up to all of them (`Delivery.FailingStoreLosesSession`). Whatever calls fail, a sample has a row exactly when
  its key had one before, or a stored batch carries it for a sensor catalogued by then
  (`Delivery.SampleIsDeliveredIff`, `Delivery.NothingIsLostIff`).
- The same document shows timestamps ending in `Z`; the bridge prints `+00:00`. The bridge also writes a
  `min` or `max` that is null, which the agent reads as absent. The model does as the code.
- A catalog row's last-seen time is that of the last snapshot stored, so unlike a machine's it may decrease
  (`Effects.CatalogMerged`).
- The timestamp reader checks field widths only: months, days, hours and offsets out of range are
  accepted, as are a decimal point without digits and an offset without a colon (`TimestampLaws.AcceptedIff`).
- A GPU whose used or total memory is below 1 MiB counts as having unknown memory, and is left out of the
  free total (`Vram.StoredBytesRoundDownIff`, `Vram.PassVramBound`). So is one whose slow tier was refused.

## Model

| member | source | states |
|---|---|---|
| `Framing.PipeConnection.Serve` | apps/host_agent/src/ipc/named_pipe_server_win32.cpp:68-90 | for every sequence of reads, the handler gets exactly the one-shot split of all bytes received: pieces at newlines, one trailing carriage return dropped, empty pieces dropped, the unterminated tail included |
| `Framing.PipeConnection.DispatchCompleteLines` | apps/host_agent/src/ipc/named_pipe_server_win32.cpp:19-32 | the erase-in-place loop delivers exactly the terminated lines, in order; what is consumed plus what is pending is what was pending before, and no newline remains |
| `Framing.PipeConnection.Receive` | apps/host_agent/src/ipc/named_pipe_server_win32.cpp:72-79 | one read keeps: pending is the unterminated rest of the stream, the calls so far are the stream's complete lines, and consumed bytes plus pending are the stream |
| `Framing.Run` | apps/host_agent/src/ipc/named_pipe_server_win32.cpp:43-95 | over any sequence of connections, each one is framed by itself: a partial line is never joined to the next connection's bytes |
| `Framing.EveryChunkingIsReceived` | apps/host_agent/src/ipc/named_pipe_server_win32.cpp:68-79 | every way of cutting a stream into non-empty reads receives the whole stream, so the messages do not depend on the cut |
| `Framing.SplitIsACut` | apps/host_agent/src/ipc/named_pipe_server_win32.cpp:19-32 | the reference split is a cut of the stream at its newlines: the pieces contain none and join back to the stream |
| `Framing.SplitIsUnique` | apps/host_agent/src/ipc/named_pipe_server_win32.cpp:19-32 | there is no other such cut |
| `Framing.SplitResumes` | apps/host_agent/src/ipc/named_pipe_server_win32.cpp:19-32 | after a prefix, only its unterminated rest matters for what more bytes complete |
| `Framing.NewlineSeparates` | apps/host_agent/src/ipc/named_pipe_server_win32.cpp:19-32 | what stands before a newline and what comes after it are handled on their own, in this order |
| `Framing.LineIsHandled` | apps/host_agent/src/ipc/named_pipe_server_win32.cpp:23-30 | a line between newlines is handled as it is, less one trailing carriage return; an empty one is not handled |
| `Framing.NothingAfterTheEnd` | apps/host_agent/src/ipc/named_pipe_server_win32.cpp:68-84 | a stop request, a failed read or an empty read ends the stream, whatever would come after it |
| `CivilDays.DaysFromCivilIsDayCount` | apps/host_agent/src/core/bridge_message_parser.cpp:39-48 | the era formula, with truncating division and 32-bit wrap-around, is the naive recursive count of days since 1970-01-01 for every valid date of every year, negative ones included |
| `CivilDays.WrapAroundIsHarmless` | apps/host_agent/src/core/bridge_message_parser.cpp:39-48 | the unsigned wrap-around in the era arithmetic cancels out: the value is the one computed on unbounded integers, also for months and days out of range |
| `CivilDays.NextDayAddsOne` | apps/host_agent/src/core/bridge_message_parser.cpp:39-48 | the next calendar day has the next number |
| `CivilDays.DaysFromCivilIsMonotone` | apps/host_agent/src/core/bridge_message_parser.cpp:39-48 | an earlier date has a smaller number, and only then |
| `CivilDays.NumberOfDateOfDay` | apps/host_agent/src/core/bridge_message_parser.cpp:39-48 | every day number is reached by a valid date |
| `CivilDays.DateOfDayOfNumber` | apps/host_agent/src/core/bridge_message_parser.cpp:39-48 | and by only one: walking the calendar to a date's number gives the date |
| `Timestamp.ParseInt` | apps/host_agent/src/core/bridge_message_parser.cpp:23-37 | the digit loop yields a value exactly when all characters of the field are digits, and then their decimal value |
| `Timestamp.ParseFraction` | apps/host_agent/src/core/bridge_message_parser.cpp:75-90 | the two loops consume a maximal run of digits and keep three of them, padded with zeros |
| `Timestamp.ParseZone` | apps/host_agent/src/core/bridge_message_parser.cpp:92-123 | Z, or a sign, two digits, an optional colon and two digits, and nothing after them |
| `Timestamp.ParseIso8601UtcMs` | apps/host_agent/src/core/bridge_message_parser.cpp:50-130 | the reader computes what the scanner of the grammar denotes |
| `Timestamp.AcceptsExactlyTheGrammar` | apps/host_agent/src/core/bridge_message_parser.cpp:50-130 | a string is accepted exactly when it is the written form of some well-formed fields, and every such reading gives the value returned |
| `Timestamp.ScanOfRender` | apps/host_agent/src/core/bridge_message_parser.cpp:50-130 | reading back the written form of well-formed fields gives the fields |
| `TimestampLaws.FractionIsTruncated` | apps/host_agent/src/core/bridge_message_parser.cpp:75-90 | for any number of digits, the milliseconds are the fraction rounded down |
| `TimestampLaws.MillisecondsAreFloorOfInstant` | apps/host_agent/src/core/bridge_message_parser.cpp:125-129 | for valid dates and any offset, the milliseconds are the floor of the instant, in milliseconds, by the naive day count and the whole fraction |
| `TimestampLaws.Rfc3339IsRead` | apps/host_agent/src/core/bridge_message_parser.cpp:50-130 | every string of sections 5.6 and 5.7 of RFC 3339 with uppercase T and Z, leap seconds aside, is accepted and yields the floor in milliseconds of its instant |
| `TimestampLaws.WrittenTimeIsRead` | apps/host_agent/src/core/bridge_message_parser.cpp:50-130 | on the text itself: the digits of a valid date and a time, followed by Z or a signed offset with or without its colon, are read as the milliseconds from the epoch to that local time less the minutes it is ahead of UTC |
| `TimestampLaws.WrittenFractionIsRead` | apps/host_agent/src/core/bridge_message_parser.cpp:75-90 | a fraction of any length adds its milliseconds to that |
| `TimestampLaws.AcceptedIff` | apps/host_agent/src/core/bridge_message_parser.cpp:50-130 | a string is accepted exactly when it is digits in their places, perhaps a point and any number of digits, and a zone: no range is checked |
| `TimestampLaws.SameInstantSameMilliseconds` | apps/host_agent/src/core/bridge_message_parser.cpp:50-130 | two spellings of one instant, with different offsets or digits, give the same value |
| `TimestampLaws.MillisecondsFitIn64Bits` | apps/host_agent/src/core/bridge_message_parser.cpp:125-129 | no accepted string makes the 64-bit arithmetic overflow |
| `TimestampLaws.PrintThenParse` | bridges/librehw_bridge/Program.cs:206 | printing any tick of the .NET range in the bridge's format and parsing it gives that tick's millisecond |
| `JsonText.JsonEscape` | apps/host_agent/src/storage/sqlite_store.cpp:50-90 | the appending loop builds the escaped text |
| `JsonText.ReadEscaped` | apps/host_agent/src/storage/sqlite_store.cpp:50-90 | decoding a string literal by section 7 of RFC 8259 inverts the escape, for every byte string and whatever follows the closing quote |
| `JsonText.EscapedHasNoControl` | apps/host_agent/src/storage/sqlite_store.cpp:50-90 | the output contains no raw control byte |
| `JsonText.MachineExtraJsonReadsBack` | apps/host_agent/src/storage/sqlite_store.cpp:100-106 | the object built for a machine reads back as exactly the source and version given |
| `JsonText.ObjectReadsBack` | apps/host_agent/src/storage/sqlite_store.cpp:100-135 | an object of any number of text and integer members reads back, by sections 4, 6 and 7 of RFC 8259, as those members in order |
| `JsonText.HelloExtraJsonReadsBack` | apps/host_agent/src/storage/sqlite_store.cpp:108-122 | the object of a hello without capabilities reads back as its four members |
| `JsonText.CapabilitiesAreSpliced` | apps/host_agent/src/storage/sqlite_store.cpp:116-118 | capabilities become one more member, in the text in which they were received |
| `JsonText.CatalogExtraJsonReadsBack` | apps/host_agent/src/storage/sqlite_store.cpp:124-126 | the object of a catalog reads back as the number of its sensors |
| `JsonText.SampleExtraJsonReadsBack` | apps/host_agent/src/storage/sqlite_store.cpp:128-130 | and that of a batch as the number of its samples |
| `JsonText.HeartbeatExtraJsonReadsBack` | apps/host_agent/src/storage/sqlite_store.cpp:132-135 | that of a heartbeat as its uptime and catalog size |
| `MessageParser.ReadAllSucceeds` | apps/host_agent/src/core/bridge_message_parser.cpp:222-328 | an array is read in full and in order exactly when every item can be read |
| `MessageParser.ReadAllReportsFirstError` | apps/host_agent/src/core/bridge_message_parser.cpp:222-328 | otherwise the error is that of the first bad item |
| `MessageParser.MessageIff` | apps/host_agent/src/core/bridge_message_parser.cpp:191-377 | a document is read as a message exactly when it is that message, member by member: kind, envelope, every required field with its type, the optional ones, and the arrays item by item; text that is not JSON is none |
| `MessageGrammar.MemberIsFirst` | apps/host_agent/src/core/bridge_message_parser.cpp:148-189 | the value looked at is that of the first member with the name, compared with case, and there is none when the item is not an object |
| `JsonTree.ValueIntSaturates` | apps/host_agent/src/core/bridge_message_parser.cpp:158-166 | a number is truncated to an int within the limits of 32 bits and replaced by the nearest limit outside them |
| `JsonTree.TruncatesTowardZero` | apps/host_agent/src/core/bridge_message_parser.cpp:168-189 | truncation is toward zero for either sign |
| `MessageParser.ParsedArraysKeepOrder` | apps/host_agent/src/core/bridge_message_parser.cpp:222-328 | a catalog or batch that parses has the length and order of its array |
| `MessageParser.ParseCatalogSnapshot` | apps/host_agent/src/core/bridge_message_parser.cpp:222-267 | the loop over sensors returns the message or the first error |
| `MessageParser.ParseSampleBatch` | apps/host_agent/src/core/bridge_message_parser.cpp:269-328 | the loop over samples returns the message or the first error |
| `MessageParser.ParseBridgeMessage` | apps/host_agent/src/core/bridge_message_parser.cpp:345-377 | success exactly when the document is a message in that sense, and then that message; a failing parse leaves the caller's message as it was |
| `Database.ApplyKeepsValid` | apps/host_agent/sql/schema.sql:15-73 | every statement keeps: samples refer to catalogued sensors, rows sit under the keys their columns spell, first seen is not after last seen |
| `Database.ApplyGrows` | apps/host_agent/src/storage/sqlite_store.cpp:326-430 | no statement removes a row, moves a first-seen time, or lets a merged machine or collector time decrease |
| `Store.SqliteStore.UpsertHello` | apps/host_agent/src/storage/sqlite_store.cpp:605-638 | all or nothing: the message is stored exactly when no engine call failed, and otherwise the committed state is as before and no transaction is left open. A stored hello names its machine twice, merges its send time into last seen and last hello, keeps the last sample, and sets the bridge's row to ok; no other row changes |
| `Store.SqliteStore.UpsertHeartbeat` | apps/host_agent/src/storage/sqlite_store.cpp:722-757 | the same; a stored heartbeat merges its send time into last seen, sets the status it was sent with, and moves neither collector time |
| `Store.SqliteStore.UpsertCatalogSnapshot` | apps/host_agent/src/storage/sqlite_store.cpp:640-679 | the same, for a loop over the sensors that can fail at any of them; each listed sensor then has its last entry, this owner and time, its first time if it had one, and its last properties that were not empty; neither collector time moves |
| `Store.SqliteStore.InsertSampleBatch` | apps/host_agent/src/storage/sqlite_store.cpp:681-720 | the same, for a loop over the samples; the sample time is merged into last seen and last sample, the last hello is kept, each catalogued sensor's last sample has its row at that time, and no other row changes |
| `Store.MessageHasEffect` | apps/host_agent/src/storage/sqlite_store.cpp:605-757 | the effect of a stored message by its kind, row by row and column by column, without the statements that make it |
| `MessageHistory.TimesOfMessages` | apps/host_agent/src/storage/sqlite_store.cpp:326-430 | after any stored messages, per collector key and machine: last hello is the greatest send time of its hellos, last sample the greatest sample time of its batches, and last seen the greatest time of any of its messages, each with what was stored before |
| `MessageHistory.TimesUnderFailures` | apps/host_agent/src/storage/sqlite_store.cpp:605-757 | the same whatever engine calls fail, over the messages whose calls all succeed |
| `MessageHistory.KeyIsOfOnePair` | apps/host_agent/src/storage/sqlite_store.cpp:96-98 | for ids without a colon the messages of a key are those of this machine and source |
| `MessageHistory.BridgeVerdictOfMessages` | apps/host_agent/src/api/http_server.cpp:252-271 | from messages to the verdict, without GPU rows: `unknown` when a stored batch of the machine's bridge is at most 30 s old, and otherwise `stale`; hellos, heartbeats and catalogs do not count |
| `Store.Transaction.Commit` | apps/host_agent/src/storage/sqlite_store.cpp:304-313 | the transaction stays active exactly when COMMIT failed, so the destructor rolls back |
| `Interleaving.EveryRunIsSafe` | apps/host_agent/src/storage/sqlite_store.cpp:759-865 | in every interleaving of one pipe transaction at a time with single statements of the collectors, with any call failing, both the working and the committed database stay valid |
| `Interleaving.RunReplays` | apps/host_agent/src/storage/sqlite_store.cpp:294-324 | both databases are always the replay of a log of the statements that succeeded, and the committed log is a prefix of the working one |
| `Interleaving.CommittedStateNeverShrinks` | apps/host_agent/src/storage/sqlite_store.cpp:326-430 | over any continuation of any run, committed rows stay, first-seen times are fixed and merged times do not decrease |
| `Interleaving.OpenTransactionIsIsolated` | apps/host_agent/src/storage/sqlite_store.cpp:294-324 | while a transaction is open, only a successful COMMIT changes the committed database, and it acknowledges the message |
| `Interleaving.MessagesAreWholeIff` | apps/host_agent/src/storage/sqlite_store.cpp:605-755 | the pipe's part of the committed log is the acknowledged messages, whole and in order, exactly when the transaction was open before every statement the pipe executed |
| `Interleaving.MessagesAreAtomic` | apps/host_agent/src/storage/sqlite_store.cpp:605-755 | that is so in every run in which no collector's failure rolls back the pipe's transaction |
| `Interleaving.PartialMessage` | apps/host_agent/src/storage/sqlite_store.cpp:605-638 | the counterexample otherwise: part of a message is committed and not acknowledged |
| `Interleaving.WriteIsDurableIff` | apps/host_agent/src/storage/sqlite_store.cpp:844-865 | a collector's write that succeeded survives every continuation of the run exactly when no transaction was open at the time |
| `Interleaving.OpenWriteCanBeLost` | apps/host_agent/src/storage/sqlite_store.cpp:844-865 | in every reachable state with an open transaction, one failing call of the pipe and its rollback undo the write |
| `Interleaving.AcknowledgedWriteIsLost` | apps/host_agent/src/storage/sqlite_store.cpp:844-865 | the shortest such run: the write returned true, and the system is back at its start |
| `History.TimesAreLatest` | apps/host_agent/src/storage/sqlite_store.cpp:326-430 | after any statements, last seen, last hello and last sample are the latest times written |
| `History.LatestIsMaximum` | apps/host_agent/src/storage/sqlite_store.cpp:390-412 | the latest time is the maximum of the non-null times in the log, and absent exactly when there is none |
| `History.CommittedTimesAreMaxima` | apps/host_agent/src/storage/sqlite_store.cpp:326-430 | after any concurrent run, the committed times are the maxima over the committed writes |
| `History.TimesIgnoreOrder` | apps/host_agent/src/storage/sqlite_store.cpp:326-430 | reordering the writes changes none of these times |
| `History.FirstSeenIsFirst` | apps/host_agent/src/storage/sqlite_store.cpp:333-349 | first seen is the time of the machine's first write |
| `History.FirstSeenBeforeLastSeen` | apps/host_agent/src/storage/sqlite_store.cpp:333-349 | and never exceeds the latest |
| `History.HostnameIsLastGiven` | apps/host_agent/src/storage/sqlite_store.cpp:341-349 | a machine keeps the last host name given: messages without one do not erase it |
| `History.RowOwnerIsLastWriter` | apps/host_agent/src/storage/sqlite_store.cpp:390-412 | a collector row carries the machine and source of the last write to its key |
| `History.CollectorIdsCollideIff` | apps/host_agent/src/storage/sqlite_store.cpp:96-98 | two pairs share a collector key exactly when they are equal or one machine id extends the other by a colon and the start of the other's source |
| `Staleness.FirstMatchIsTheOnlyMatch` | apps/host_agent/src/api/http_server.cpp:242-250 | in any listing of a machine's rows at most one has the source, so the first-match break does not depend on row order |
| `Staleness.ReportIsHistory` | apps/host_agent/src/api/http_server.cpp:242-250 | for machine ids without a colon, a source is reported stale exactly when it has no write of a time within the last 30000 ms |
| `Staleness.ColonHidesARecentWrite` | apps/host_agent/src/storage/sqlite_store.cpp:96-98 | the counterexample otherwise: a catalog of another machine and source takes over the row of a machine whose id has a colon |
| `Staleness.ReportIsHistoryIff` | apps/host_agent/src/api/http_server.cpp:242-250 | staleness follows from the history, for every history and time, exactly when the machine's id has no colon |
| `Staleness.StaleVerdictIsHistory` | apps/host_agent/src/api/http_server.cpp:233-275 | after any concurrent run, the verdict on given GPU rows is `stale` exactly when the machine has no recent write of direct_gpu, or of librehw_bridge when there are no GPU rows |
| `Staleness.StaleEndpointIsHistory` | apps/host_agent/src/api/http_server.cpp:233-275 | the same with the GPU rows of that run: the verdict is `stale` exactly when the deciding source has no recent write, and that source is librehw_bridge exactly when no GPU row of the machine was ever inserted |
| `Queries.QuerySensorHistory` | apps/host_agent/src/storage/sqlite_store.cpp:968-1001 | the rows are stored rows in range, strictly descending in time, at most `limit` of them, and omit only rows older than all of these |
| `Queries.HistoryIsDetermined` | apps/host_agent/src/storage/sqlite_store.cpp:968-1001 | that description leaves one answer |
| `Queries.HistoryLimit` | apps/host_agent/src/api/http_server.cpp:138-150 | the limit is the parameter within 1 to 10000, 500 for none or a smaller one, 10000 for a larger one |
| `Queries.HistoryStartsWithLatest` | apps/host_agent/sql/schema.sql:185-194 | over an unbounded range the first row is the one latest_sensor_samples row of the sensor, and no row means no history |
| `Throttle.GreedyIsOptimal` | libs/gpu_telemetry/src/gpu_probe.cpp:34-40 | the calls accepted are spaced, are a choice of the calls, and no spaced choice of non-decreasing calls is larger |
| `Throttle.GreedyStaysAhead` | libs/gpu_telemetry/src/gpu_probe.cpp:34-40 | the exchange argument: from any later starting point, no spaced choice overtakes the accepted calls, and from an earlier one by at most one |
| `Throttle.WindowBound` | libs/gpu_telemetry/src/gpu_probe.cpp:34-40 | any closed window of `width` holds at most width/interval + 1 accepted calls |
| `GpuProbe.Probe.SampleTier` | libs/gpu_telemetry/src/gpu_probe.cpp:444-492 | a tier's call is refused exactly when its own interval (5, 16, 16, 100 or 500 ms) has not passed, then changes nothing; accepted, each field that tier is responsible for is the driver's answer where there is one, in the units of the snapshot, every other field is as before, and only that GPU's tier is stamped |
| `GpuProbe.SampleWithMode` | libs/gpu_telemetry/src/gpu_sensor_reader.cpp:11-33 | which fields a mode reads, a Full call those of the fast and of the slow tier as each is due; a call with nothing accepted leaves the snapshot empty but for its index |
| `GpuProbe.SensorReader.Init` | libs/gpu_telemetry/src/gpu_sensor_reader.cpp:57-67 | initialised once, when the driver finds a GPU; every timestamp is then zero, the clock's epoch, and a second call changes nothing |
| `GpuProbe.SensorReader.Sample` | libs/gpu_telemetry/src/gpu_sensor_reader.cpp:103-110 | refused without a probe call when uninitialised or out of range |
| `GpuProbe.SensorReader.SampleAll` | libs/gpu_telemetry/src/gpu_sensor_reader.cpp:112-125 | one snapshot per GPU in index order, rate-limited ones included, each filled from the state its GPU was in |
| `GpuProbe.PassSampleReads` | libs/gpu_telemetry/src/gpu_sensor_reader.cpp:112-125 | in a full pass a GPU's fast fields are read when 16 ms have passed since their last poll before the pass, its slow ones after 100 ms, and all others stay empty, whatever the other GPUs do |
| `GpuProbe.TiersAreIndependent` | libs/gpu_telemetry/src/gpu_probe.cpp:444-492 | over every interleaving of GPUs, tiers and modes, a tier of a GPU accepts exactly what the throttle would accept of its own calls alone |
| `GpuProbe.RunsArePolls` | libs/gpu_telemetry/src/gpu_probe.cpp:444-492 | a helper runs exactly once per accepted poll of the tiers that use it |
| `GpuProbe.DriverLoadIsBounded` | libs/gpu_telemetry/src/gpu_probe.cpp:444-492 | per GPU and window, each helper's runs are at most the sum of its tiers' window bounds |
| `GpuProbe.PollingIsOptimal` | libs/gpu_telemetry/src/gpu_probe.cpp:444-492 | no spaced subset of a GPU's calls to a tier is larger than what was polled |
| `GpuProbe.FullUsesFastAndSlow` | libs/gpu_telemetry/src/gpu_sensor_reader.cpp:11-33 | a Full sample leaves the budgets of all other tiers and GPUs alone |
| `GpuCollector.DirectGpuCollector.Initialize` | apps/host_agent/src/collectors/direct_gpu_collector.cpp:50-74 | when no GPU is found, the error is written to the health row, with its text and a sample time; nothing is written otherwise |
| `GpuCollector.DirectGpuCollector.PollOnce` | apps/host_agent/src/collectors/direct_gpu_collector.cpp:96-144 | a pass executes one insert per GPU in index order and then the health row, whatever fails; every column of each row is the driver's answer of that GPU, as far as its tier was due, in the stored unit |
| `GpuCollector.SampleShowsReading` | apps/host_agent/src/collectors/direct_gpu_collector.cpp:103-139 | column by column: temperatures and clocks with zero as unknown, utilisation with minus one as unknown, power in watts as milliwatts over 1000, memory in bytes of whole mebibytes, the first fan when there is one |
| `GpuCollector.PollShowsInSnapshot` | apps/host_agent/src/storage/sqlite_store.cpp:1048-1075 | at a time above all earlier ones, the snapshot's GPU section is exactly the rows inserted so far, in index order |
| `GpuCollector.ExecutedApply` | apps/host_agent/src/collectors/direct_gpu_collector.cpp:103-139 | statements that fail are skipped: the connection sees the effect of the others |
| `GpuCollector.SnapshotAfterInserts` | apps/host_agent/src/collectors/direct_gpu_collector.cpp:103-139 | from engine calls to snapshot: after the first k inserts of a pass that no call of the pipe interrupts, the section lists exactly those that succeeded |
| `GpuCollector.AllKept` | apps/host_agent/src/collectors/direct_gpu_collector.cpp:103-139 | when all succeed it has one row per enumerated GPU |
| `GpuCollector.PolledRowsAreEnumerated` | apps/host_agent/src/collectors/direct_gpu_collector.cpp:103-139 | the rows of a poll carry their position as index |
| `GpuCollector.GpuUidIsInjective` | apps/host_agent/src/collectors/direct_gpu_collector.cpp:110 | different indexes have different uids |
| `GpuHistory.LatestGpuTimeIsHistory` | apps/host_agent/src/storage/sqlite_store.cpp:1048-1059 | the time of the rows shown is the latest time in the log of inserts |
| `GpuHistory.SectionIsHistory` | apps/host_agent/src/storage/sqlite_store.cpp:1048-1059 | a row is shown exactly when it is the last one inserted for its GPU at the machine's latest time |
| `GpuHistory.SectionIsEmptyIff` | apps/host_agent/src/storage/sqlite_store.cpp:1048-1059 | no row is shown exactly when none was inserted |
| `GpuHistory.RowsShownAreRecentIff` | apps/host_agent/src/storage/sqlite_store.cpp:1048-1059 | after every concurrent run, with any calls failing, the rows shown are from a given time or later exactly when the log of the working database holds an insert of the machine from then or later |
| `GpuHistory.InsertIsKeptIff` | apps/host_agent/src/storage/sqlite_store.cpp:759-809 | an insert that succeeded at a new time keeps a row at that time in the database that is read, whatever follows, exactly when no transaction was open at the insert |
| `Freshness.PassIsShownIff` | apps/host_agent/src/collectors/direct_gpu_collector.cpp:119-139 | for a pass that no call of the pipe interrupts, with its health row: the snapshot shows it exactly when one of its inserts succeeded, and then exactly the rows stored, in index order, and otherwise the rows from before |
| `Freshness.WholePassIsShown` | apps/host_agent/src/collectors/direct_gpu_collector.cpp:96-144 | when moreover nothing fails it shows one row per enumerated GPU with what was sampled |
| `Freshness.Poll` | apps/host_agent/src/collectors/direct_gpu_collector.cpp:96-144 | a pass of the running collector that no call of the pipe interrupts: when an insert succeeded, the snapshot shows exactly the GPUs whose inserts did, in index order, with what the driver answered, and otherwise what it showed before; the health row is renewed exactly when its write succeeded |
| `Freshness.PassRenewsHealth` | apps/host_agent/src/collectors/direct_gpu_collector.cpp:141-143 | the health row is ok, without error, with the pass's time merged into the last sample, whatever happened to the inserts; machines, catalog and samples are untouched |
| `Queries.SnapshotRowsCopy` | apps/host_agent/src/storage/sqlite_store.cpp:1048-1077 | each entry of the section has the stored columns, in the order of the rows |
| `Freshness.OldRowsLookFresh` | apps/host_agent/src/collectors/direct_gpu_collector.cpp:119-144 | a failure: when every insert of a pass fails and the health write succeeds, the stored rows, of any age, are shown and judged as fresh for 30 s |
| `Freshness.FailedInitLooksFresh` | apps/host_agent/src/collectors/direct_gpu_collector.cpp:50-64 | so are they after a start that found no GPU, because its error is written with a sample time |
| `Freshness.RolledBackPassIsLost` | apps/host_agent/src/collectors/direct_gpu_collector.cpp:119-144 | another: all calls of a pass succeed, but its insert joined the transaction of a message that fails, and only the health row is stored |
| `Freshness.OldRowIsOffered` | apps/host_agent/src/api/http_server.cpp:233-307 | that failure on one input: a row 100 s old is shown and gets the verdict `fits_idle` |
| `Freshness.OldRowsLookFreshIff` | apps/host_agent/src/api/http_server.cpp:233-307 | after every concurrent run, for machine ids without a colon, stored rows older than 30 s are judged as fresh exactly when the machine's inserts in the working log are all older and some write of direct_gpu in it is not |
| `Vram.AcceptedPollShowsMemory` | libs/gpu_telemetry/src/gpu_probe.cpp:238-246 | an accepted poll carries the driver's memory through to the snapshot row |
| `Vram.StoredBytesRoundDownIff` | apps/host_agent/src/collectors/direct_gpu_collector.cpp:112-116 | memory is stored rounded down to a MiB exactly when it is at least 1 MiB and below 2^52 bytes; less than 1 MiB is stored as unknown |
| `Vram.VramErrorBound` | apps/host_agent/src/api/http_server.cpp:283-291 | for rows that show the driver's memory, the verdict's free VRAM differs from the driver's total minus used, over GPUs with at least 1 MiB of each, by less than 1 MiB per such GPU |
| `Vram.PassShowsMemory` | libs/gpu_telemetry/src/gpu_probe.cpp:454-463 | every row of a pass shows the driver's memory exactly as seen: the reading when the slow tier was due and the call worked, and unknown otherwise |
| `Vram.PassVramBound` | apps/host_agent/src/api/http_server.cpp:283-291 | from driver to verdict: after a pass whose calls succeed and that no call of the pipe interrupts, the free total of the snapshot is within that bound |
| `Vram.TotalsFitIn64Bits` | apps/host_agent/src/api/http_server.cpp:318-334 | the totals are bounded by 2^52 bytes per GPU |
| `Readiness.Readiness` | apps/host_agent/src/api/http_server.cpp:233-334 | when each verdict is given, in terms of the rows, the age of the deciding health row (30 s), the known memory and utilisation, and the summary's own free total: `insufficient_vram` exactly when recent rows with some known memory have less free than a positive requirement, `unknown` and `stale` in each of their two branches, the three fits otherwise; which reason goes with each; and what the summary holds |
| `Readiness.VerdictIsPromised` | apps/host_agent/src/api/http_server.cpp:233-307 | the rules give the verdict so described, for every input |
| `Readiness.TotalsAreAdditive` | apps/host_agent/src/api/http_server.cpp:318-330 | free memory, total memory and power are sums over the GPUs, of what is known; free memory counts a GPU only when both of its figures are known |
| `Readiness.FreshIff` | apps/host_agent/src/api/http_server.cpp:241-250 | the loop that stops at the first row with a sample time finds a recent one exactly when the first such row is at most 30 s old |
| `Readiness.FittingVerdictMeans` | apps/host_agent/src/api/http_server.cpp:274-307 | a verdict fits exactly when there are GPU rows, the direct_gpu health row is recent, some GPU's memory is known and there is room; it is idle when every known utilisation is below 30, busy when some is not below 80, available in between |
| `Readiness.FittingIsDownwardClosed` | apps/host_agent/src/api/http_server.cpp:293-306 | a fitting verdict is the same verdict at every smaller requirement |
| `Readiness.BusierNeverImproves` | apps/host_agent/src/api/http_server.cpp:279-306 | raising utilisation never improves the tier |
| `Readiness.VerdictIgnoresGpuOrder` | apps/host_agent/src/api/http_server.cpp:279-306 | the verdict is the same for every order of the GPUs |
| `Readiness.MaxOfIsMax` | apps/host_agent/src/api/http_server.cpp:284-287 | the running maximum, from zero, is the maximum |
| `Bridge.CollectCatalogRecursive` | bridges/librehw_bridge/Program.cs:234-257 | the recursive walk appends the tree's sensors in pre-order |
| `Bridge.CollectSamplesRecursive` | bridges/librehw_bridge/Program.cs:259-280 | the recursive walk appends a sample for each sensor of the tree that has a value, sub-hardware included |
| `SensorPaths.CatalogIsPreOrder` | bridges/librehw_bridge/Program.cs:234-257 | the catalog lists what is at every path of child indexes and sensor index, each once, parents before children and siblings by index |
| `SensorPaths.CataloguedIff` | bridges/librehw_bridge/Program.cs:234-257 | a sensor is catalogued, with its hardware, exactly when it is at some path |
| `SensorPaths.SampledIff` | bridges/librehw_bridge/Program.cs:259-280 | a sample is in the batch exactly when it is that of a sensor with a value at some path, however deep |
| `SensorPaths.TreesAreSampled` | bridges/librehw_bridge/Program.cs:234-280 | the samples are those of the catalog's sensors that have a value, in the catalog's order |
| `Bridge.SampledIsCatalogued` | bridges/librehw_bridge/Program.cs:234-280 | while the hardware keeps its shape, the uids sampled are a subsequence of the uids catalogued |
| `Session.PipeWriter.Serve` | bridges/librehw_bridge/Program.cs:53-77 | a session writes hello, catalog, then a batch per turn and a heartbeat when it is due, one line each |
| `Session.SessionShape` | bridges/librehw_bridge/Program.cs:53-77 | a session is the hello, the catalog, then a batch per turn with that turn's time, and a heartbeat after exactly those turns that come at least 30 s after the last heartbeat, or after the connection when there was none |
| `Session.StreamIsFramed` | apps/host_agent/src/ipc/named_pipe_server_win32.cpp:19-32 | framing the written stream gives back the texts, for either newline convention |
| `Delivery.MessageIsRead` | apps/host_agent/src/core/bridge_message_parser.cpp:191-377 | the protocol round trip: each of the four messages is parsed as what was sent, with times rounded down to the millisecond |
| `Service.Service.HandlePipeMessage` | apps/host_agent/src/core/service.cpp:119-146 | a line is stored exactly when it parses and no engine call fails; otherwise the committed state is as before, and a line that does not parse makes no engine call |
| `Service.Service.ServeConnection` | apps/host_agent/src/core/service.cpp:119-146 | for any outcomes of the engine calls, a connection's bytes take the store through its lines in order |
| `Service.StoreIsFoldOfParsed` | apps/host_agent/src/core/service.cpp:119-146 | whatever engine calls fail, the final store is the fold of the parsed messages |
| `Service.OnlyStoredCount` | apps/host_agent/src/core/service.cpp:126-145 | whatever calls fail, the store is that of the messages whose calls all succeed |
| `Service.NoiseIsHarmless` | apps/host_agent/src/core/service.cpp:119-125 | whatever engine calls fail, lines that fail to parse can be inserted or removed anywhere without changing the final store |
| `Delivery.SessionIsDelivered` | apps/host_agent/src/storage/sqlite_store.cpp:499-533 | end to end, for every hardware history, when no engine call fails: the sample table after a session is the one before, overwritten in order with every sample sent for a sensor known after the opening |
| `Delivery.SessionUnderFailures` | apps/host_agent/src/storage/sqlite_store.cpp:499-533 | the same whatever calls fail: the table is overwritten in order with the samples of the batches whose calls all succeeded, each for the sensors catalogued by what was stored before it |
| `Delivery.TableOfMessages` | apps/host_agent/src/storage/sqlite_store.cpp:640-720 | that is the sample table after any stored messages |
| `Delivery.FixedHardwareLosesNothing` | bridges/librehw_bridge/Program.cs:59-69 | while the hardware keeps its shape every sensor sampled is known, so every sample sent counts |
| `Delivery.EverySampleIsDelivered` | apps/host_agent/src/storage/sqlite_store.cpp:499-533 | when no engine call fails, every sample sent for a sensor known after the opening has a row at its sensor and time, and the row is the last one sent for that key |
| `Delivery.OtherSamplesAreKept` | apps/host_agent/src/storage/sqlite_store.cpp:499-533 | and the rows of all other keys are as they were |
| `Delivery.SampleIsDeliveredIff` | apps/host_agent/src/storage/sqlite_store.cpp:499-533 | whatever calls fail, for one-line texts that decode to what was sent: a key is in the table after a session exactly when it was before, or a stored batch of the session carries it for a sensor catalogued by then |
| `Delivery.NothingIsLostIff` | bridges/librehw_bridge/Program.cs:53-77 | whatever calls fail: every sample sent has a row exactly when each key had one before or is carried so by a stored batch |
| `Delivery.KnownSessionLosesNothingIff` | bridges/librehw_bridge/Program.cs:53-77 | when no engine call fails and the store was valid: a session loses nothing exactly when every sensor it sampled was known after the opening |
| `Delivery.FailingStoreLosesSession` | apps/host_agent/src/core/service.cpp:143-145 | when every call fails, a session leaves the store as it was, known sensors or not |
| `SharedDelivery.SharedTable` | apps/host_agent/src/storage/sqlite_store.cpp:640-720 | in every interleaving with the collectors, with any calls failing, while the transaction is open whenever the pipe executes a statement: the committed sample table is that of the acknowledged messages |
| `SharedDelivery.SharedSampleIff` | apps/host_agent/src/storage/sqlite_store.cpp:640-720 | and a key is in it exactly when it was before, or an acknowledged batch carries it for a sensor catalogued by then |
| `SharedDelivery.SharedSession` | apps/host_agent/src/storage/sqlite_store.cpp:640-720 | when all messages of a session are acknowledged, its samples for known sensors are delivered, whatever the collectors write in between |
| `Delivery.LateSensorIsLost` | bridges/librehw_bridge/Program.cs:53-77 | a sample lost though no call fails: a board that appears during the session, whose sample is sent and not stored |
| `Delivery.EverySampleIsSent` | bridges/librehw_bridge/Program.cs:259-280 | every sample of every turn's batch is among the writes the delivery result speaks of |
| `SensorDelivery.EverySensorIsSent` | bridges/librehw_bridge/Program.cs:259-280 | every sensor that has a value at a turn, at whatever path, is sent with its value and bounds at the turn's millisecond |
| `SensorDelivery.EveryWriteIsOfASensor` | bridges/librehw_bridge/Program.cs:259-280 | and nothing else is sent |
| `SensorDelivery.KnownIff` | bridges/librehw_bridge/Program.cs:234-257 | the sensors known after the opening are those catalogued before and every sensor of the hardware at any path, with a value or not |
| `SensorDelivery.EverySensorIsDelivered` | apps/host_agent/src/storage/sqlite_store.cpp:499-533 | when no engine call fails, every known sensor at any path with a value at a turn has a row at that turn's millisecond, the last one sent for the key |
| `SensorDelivery.OwnValueIsDelivered` | apps/host_agent/src/storage/sqlite_store.cpp:499-533 | which is the sensor's own value, bounds and source when no other turn falls in the millisecond and no other sensor has its identifier |
| `Delivery.Deliver` | apps/host_agent/src/ipc/named_pipe_server_win32.cpp:68-90 | both programs and the pipe between them, cutting the bytes in any way and with any calls failing: the store is the one the delivery results speak of; when no call fails it holds the last sample sent under each key of a known sensor |
| `ThermalDiscovery.ProbeBits` | libs/gpu_telemetry/src/nvapi_thermals_core.cpp:36-55 | a bit of the mask is set exactly when its probe succeeded, and `count` is one more than the highest |
| `ThermalDiscovery.DiscoverSensors` | libs/gpu_telemetry/src/nvapi_thermals_core.cpp:29-92 | for every driver: success exactly when a probe and the full read succeed, an empty result otherwise; the core sensor is 1 when its probe succeeds, and the memory sensor the first of 2, 7, 9, 8 that answers its probe and reads neither 0 nor 65280 |
| `ThermalDiscovery.FindMemoryJunction` | libs/gpu_telemetry/src/nvapi_thermals_core.cpp:77-89 | the earliest of 2, 7, 9, 8 with a live value, or none |

## Left out

- Win32 pipe calls, DLL loading, NVAPI, NVML, LibreHardwareMonitor and httplib: what they return is a
  parameter.
- JSON text: cJSON's parser and printer and .NET's serialiser are functions of which only what is needed
  is assumed, per message (`Delivery.Carries`): one line of text that decodes to the tree sent.
- SQLite beyond the effect of the repository's statements: ROLLBACK is assumed to succeed, NULL ordering
  and collations do not arise, and schema creation and the tables no code writes are absent.
- Floating point: sensor values are reals, so rounding, infinities and NaN are not covered; a session that
  meets a value .NET refuses to serialise ends there.
- Text encoding: a byte is a Dafny `char`, and UTF-8 validity and embedded NUL bytes are not modelled.
- Sessions that break off in the middle of a line: the last, partial line is framed and handled by the
  model, but the delivery result speaks of sessions whose bytes all arrive.
- Years beyond the four digits of a timestamp: `DaysFromCivil` is proved without the overflow of
  signed 32-bit years.
- Dates within 30 s of the end of year 9999, where the bridge's deadline arithmetic would throw.
- The five `sample_*` methods are one method with a tier parameter, `GpuProbe.Probe.SampleTier`.
- GpuCollector.SnapshotAfterInserts: speaks of a pass that no call of the pipe interrupts; what is shown when one
  does is stated over runs in `GpuHistory`, by the log and not pass by pass.
- Freshness.PassIsShownIff: the same.
- Freshness.Poll: the same, because the method makes the calls of a pass one after the other.
- Voltage, encoder, PCIe and P-state fields of a snapshot, which nothing downstream reads.
- The capabilities of hello and the unit names are data passed through; their computation is not modelled.
- The text of a parse error is that of the first check that fails, in the program's order; it is only logged, and
  no result speaks of it except for arrays.
- JsonText.HelloExtraJsonReadsBack: speaks of a hello without capabilities; with them the object holds JSON text
  that was printed by the library, and only where it stands is stated (`JsonText.CapabilitiesAreSpliced`).
- The system and Ollama parts of the latest snapshot, the catalog query and its filters, Ollama polling,
  HTTP serialisation, snapshot pushing, service start and stop, command-line and URL parsing.
