# Events publisher synchronisation core, in Dafny

This project models the synchronisation core of the Qubic events publisher. That core is the
loop that mirrors the events of a tick-based event service into Kafka. Each sync cycle does four
things:

- It asks the event service for its status: its epoch and, per epoch, the intervals of processed
  ticks.
- It finds the first interval of some epoch whose end lies beyond that epoch's last
  checkpointed tick.
- It fetches and publishes the events of each tick of that range, writing a checkpoint
  `(epoch, tick)` after each tick that succeeds.
- It hands the epoch `sync` returns to the next cycle. That is the range's epoch after a
  cycle that succeeds, the cycle's start epoch after a failure, and 0 when the scan finds no
  range (see "## Divergences").

Checkpoints live in a key-value store under a one-byte prefix followed by the big-endian epoch.
The value is the big-endian tick.

The modules follow the repository's files:

| module | models |
|---|---|
| `Bytes` | Go's fixed-width integers, `uint32` wrap-around addition, and the big- and little-endian codecs of `encoding/binary`, with their round trips and injectivity |
| `Base64` | the padded standard base 64 encoding of section 4 of RFC 4648 that turns the hash into the unique id |
| `Proto`, `Client`, `Kgo` | the input shapes: tick events grouped by transaction, the service status with its `ProcessedTickInterval`s, and the Kafka record with its topic |
| `Store` | `sync/store.go`: key and value codecs, and the `PebbleStore` class with its contents as a map field |
| `Processor` | `sync/event_processor.go`: the older batch processor, which sends all of a tick's events as one record |
| `Publisher` | `sync/event_publisher.go`: the unique id, the record of one event, and the per-event publisher with the synchronous fake client of its tests |
| `Reader` | `sync/event_reader.go`: the range scan, range processing, the sync cycle and the sync loop, as the `EventReader` class |

The versions in `event_processor.go` and `event_publisher.go` declare the same names, so each
lives in its own module. The reader is wired to the processor of `event_processor.go`, because
that file declares the error-only interface the reader calls.

Each imperative operation is a method. Each method is proved equal to a specification function
of the old state and the inputs:

- `Reader.Scan` and `Reader.TickRangeOf` specify the scan.
- `Reader.RunRange` specifies the walk over a range.
- `Reader.SyncSpec` specifies one cycle and `Reader.LoopSpec` a run of numbered cycles.
- `Publisher.PublishTransactions` and `Publisher.PublishEvents` specify the publisher's nested
  loop.

The lemmas state what the source promises about those functions.

Things outside the core are parameters:

- the event service's answers, per sync cycle;
- the store engine's read and write failures;
- the Kafka client's per-call outcome;
- the K12 hash;
- `json.Marshal`.

Each is an (uninterpreted) function, and `None` or `true` stands for a failed call.

The service is asked afresh in every cycle. The model uses the cycle number `count`, which the
loop already passes to `sync`, as its clock: cycle `count` sees the status and the tick events
`eventClient(count)`. So from one cycle to the next the status can gain intervals, and a fetch
that failed can succeed. Within one cycle the service's answers are fixed.

## Model

| member | source | states |
|---|---|---|
| Bytes.Add32 | sync/event_reader.go:60 | Go's `uint32` sum: the exact sum below 2^32, else the sum minus 2^32 |
| Bytes.BigEndian32 | sync/store.go:35 | `binary.BigEndian.AppendUint32` on an empty slice: the four bytes of a `uint32`, most significant first |
| Bytes.BigEndianUint32 | sync/store.go:62 | `binary.BigEndian.Uint32`: the number whose big-endian encoding is the first four bytes |
| Bytes.LittleEndian32 | sync/event_publisher.go:122-123 | `binary.LittleEndian.PutUint32` into a 4-byte key, and `binary.Write` of a `uint32`: least significant byte first |
| Bytes.LittleEndian64 | sync/event_publisher.go:138-145 | `binary.Write` of a `uint64` in little-endian order: eight bytes, least significant first |
| Bytes.BigEndian32RoundTrip | sync/store.go:37-38 | decoding the big-endian encoding of a tick gives the tick back |
| Bytes.BigEndianUint32RoundTrip | sync/store.go:62 | every 4-byte value is the encoding of what it decodes to |
| Bytes.BigEndian32Injective | sync/store.go:34-35 | distinct numbers have distinct big-endian encodings |
| Bytes.LittleEndian32RoundTrip | sync/event_publisher.go:122-123 | decoding the little-endian partition key gives the tick back |
| Bytes.LittleEndian32Injective | sync/event_publisher.go:130-137 | distinct 32-bit words have distinct little-endian encodings |
| Bytes.LittleEndian64Injective | sync/event_publisher.go:138-145 | distinct 64-bit words have distinct little-endian encodings |
| Base64.Digit | sync/event_publisher.go:154 | every six-bit value maps to a character of the alphabet |
| Base64.Group | sync/event_publisher.go:154 | one to three bytes give four characters, with one `=` per missing byte at the end |
| Base64.Encode | sync/event_publisher.go:154 | the encoding has four characters per started group of three bytes |
| Base64.EncodedLengthFormula | sync/event_publisher.go:154 | the encoded length is `4 * ceil(n / 3)` |
| Base64.EncodeAlphabet | sync/event_publisher.go:154 | every character is in the alphabet or is `=`, and there is no `=` when the length is a multiple of three |
| Base64.DigestEncodingShape | sync/event_publisher.go:150-154 | a 32-byte digest encodes to 44 characters: 43 from the alphabet and a final `=` |
| Base64.EncodeSplit | sync/event_publisher.go:154 | encoding a prefix whose length is a multiple of three, then the rest, is encoding the whole |
| Proto.EventCount | sync/event_processor.go:45-47 | the `eventCount` the processor sums: the number of events over all transactions of a tick, with `Proto.EventCountAppend` stating its additivity |
| Proto.EventCountAppend | sync/event_processor.go:47 | the event count of a concatenation is the sum of the counts |
| Store.Key | sync/store.go:13 | the key is 5 bytes: the prefix `0x00`, then four bytes that decode to the epoch |
| Store.Value | sync/store.go:37-38 | the value is 4 bytes that decode to the tick |
| Store.KeyInjective | sync/store.go:34-35 | distinct epochs never share a key |
| Store.ValueRoundTrip | sync/store.go:62 | every stored value re-encodes from the tick it decodes to |
| Store.PebbleStore.constructor | sync/store.go:24-31 | a new store is empty and consistent |
| Store.PebbleStore.SetLastProcessedTick | sync/store.go:33-46 | on success the engine holds `Value(tick)` under `Key(epoch)` and nothing else changes in it, the epoch's checkpoint becomes the tick (last write wins), and the write is logged; on an engine error nothing changes and the error is returned; the map stays consistent with the byte keys and values |
| Store.PebbleStore.GetLastProcessedTick | sync/store.go:48-65 | an engine error gives `(0, error)`; an epoch never written gives `(0, ErrNotFound)`; otherwise the stored tick with no error |
| Store.SetAndGet | sync/store_test.go:9-27 | a Set then a Get of the same epoch returns the tick with no error |
| Store.GetNotSet | sync/store_test.go:29-41 | a Get of an epoch never set returns `(0, ErrNotFound)` |
| Store.Overwrite | sync/store_test.go:43-69 | a second Set for an epoch replaces the first |
| Store.MultipleEpochs | sync/store_test.go:71-98 | Sets for one epoch do not disturb another epoch's checkpoint |
| Processor.FromSource | sync/event_processor.go:52-61 | the event this version builds: header epoch, tick, id and digest, the enclosing `TxId`, type, size and data |
| Processor.Flatten | sync/event_processor.go:46-64 | the events of all transactions, in transaction order and then event order |
| Processor.Produced | sync/event_processor.go:68-88 | the records one tick produces: none without events or when serialising fails, else one record of all events keyed by the tick |
| Processor.MarshalFails | sync/event_processor.go:68-73 | processing fails exactly when the tick has events and serialising them fails; a tick without events never fails |
| Processor.FlattenLength | sync/event_processor.go:44-66 | the flattened list has as many events as the count summed over the transactions |
| Processor.FlattenOrder | sync/event_processor.go:46-64 | event `j` of transaction `i` sits at position `count(txs[..i]) + j`, with its header's tick and its transaction's hash |
| Processor.ProducedShape | sync/event_processor.go:68-88 | at most one record per tick: none without events or when serialising fails; otherwise one record with all events in order, keyed by the little-endian tick, on the events topic |
| Processor.KafkaClient.constructor | sync/event_processor.go:29-31 | a new client has produced nothing |
| Processor.KafkaClient.ProduceSync | sync/event_processor.go:29-31 | logs the record and returns the broker's answer for that call |
| Processor.EventPublisher.constructor | sync/event_processor.go:37-41 | the processor holds its client and serialiser |
| Processor.EventPublisher.CollectEvents | sync/event_processor.go:44-66 | the nested loop builds exactly the flattened list, and its counter equals the summed event count and the list's length |
| Processor.EventPublisher.ProcessTickEvents | sync/event_processor.go:43-89 | the client's log grows by exactly the produced records; the error is returned exactly when serialising a non-empty list fails; produce errors are swallowed |
| Publisher.UniqueIdPreimage | sync/event_publisher.go:129-149 | the hashed bytes are `24 + len(txHash)` long |
| Publisher.UniqueIdPreimageInjective | sync/event_publisher.go:128-149 | equal preimages mean equal epoch, tick, event id, event digest and transaction hash |
| Publisher.CreateUniqueId | sync/event_publisher.go:128-155 | the id fails exactly when the hash fails, and then with the hash error |
| Publisher.UniqueIdShape | sync/event_publisher.go:150-154 | every id is the encoding of a 32-byte digest: 44 characters, 43 from the alphabet and a final `=` |
| Publisher.UniqueIdIgnoresPayload | sync/event_publisher.go:111-116 | events that agree on the five key fields get the same id, whatever their type, size and data |
| Publisher.EventOf | sync/event_publisher.go:100-109 | the event built from a source event: the tick argument rather than the header's tick, the enclosing `TxId`, the header's epoch and ids |
| Publisher.CreateEventRecord | sync/event_publisher.go:98-126 | a record has a 4-byte key decoding to the tick argument and the `qubic-events` topic; building fails exactly when the id or the serialisation of the identified event fails |
| Publisher.RecordPayload | sync/event_publisher.go:100-118 | the payload serialises an event with the tick argument, the header's epoch and ids, the transaction's hash, and the id computed from those fields |
| Publisher.RecordIgnoresHeaderTick | sync/event_publisher.go:100-102 | the tick in the event's header plays no part in the record |
| Publisher.PartitionByTick | sync/event_publisher.go:122-124 | two records share a partition key exactly when they belong to the same tick |
| Publisher.SendOne | sync/event_publisher.go:68-78 | one `Produce` call: the record is logged, and its callback counts the send or records a send error, by the call's outcome |
| Publisher.PublishEvents | sync/event_publisher.go:57-81 | one transaction's events in order; the first record that fails to build adds one error and ends the transaction |
| Publisher.PublishTransactions | sync/event_publisher.go:53-83 | the transactions in order, with nothing between them looking at the errors |
| Publisher.SendOneExtends | sync/event_publisher.go:68-78 | one produce call adds one record, and either one confirmed send or one send error |
| Publisher.PublishEventsAccounting | sync/event_publisher.go:57-81 | one transaction only adds records, sends and errors, and each record added is a send or a send error; at most one record per event |
| Publisher.PublishAccounting | sync/event_publisher.go:53-83 | with the synchronous client, confirmed sends plus send errors equal the produce calls; calls and sends never exceed the tick's events |
| Publisher.PublishEventsAllBuild | sync/event_publisher.go:57-81 | when every record of a transaction builds, each event is produced once; all succeeding sends count every event, and all failing sends count none and add one error each |
| Publisher.PublishAllBuild | sync/event_publisher.go:53-83 | the same over all transactions of the tick |
| Publisher.BuildErrorEndsTransaction | sync/event_publisher.go:57-66 | a build error at event `k` produces exactly the records of events `0..k-1` of that transaction and none from `k` on |
| Publisher.BuildErrorRecorded | sync/event_publisher.go:60-65 | a build error at event `k` adds exactly one build error, naming that event and its cause, as the last error |
| Publisher.ErrorsDoNotStopLaterTransactions | sync/event_publisher.go:53-83 | later transactions run the same whatever errors were collected before them |
| Publisher.EventsIgnoreErrors | sync/event_publisher.go:57-81 | within a transaction, produced records and sends do not depend on earlier errors |
| Publisher.PublishTransactionsAppend | sync/event_publisher.go:53-83 | publishing `a` then `b` is publishing `a + b` |
| Publisher.TotalLibraryBuilds | sync/event_publisher.go:98-126 | when neither the hash nor the serialiser fails, every event's record builds |
| Publisher.FakeKafkaClient.constructor | sync/event_publisher_test.go:12-15 | a new fake has produced nothing |
| Publisher.FakeKafkaClient.Produce | sync/event_publisher_test.go:17-20 | logs the record and reports that call's outcome to the callback at once |
| Publisher.EventPublisher.constructor | sync/event_publisher.go:41-45 | the publisher holds its client and libraries |
| Publisher.EventPublisher.ProcessTickEvents | sync/event_publisher.go:47-96 | the client's log, the confirmed-send count and the error are those of the specification: the error is returned exactly when some build or send failed, with their number and the tick |
| Publisher.AllSent | sync/event_publisher_test.go:22-60 | five events that all send give count 5, no error and 5 produce calls |
| Publisher.AllSendsFail | sync/event_publisher_test.go:62-100 | when every send fails: count 0, an error for 3 failures, and 3 produce calls |
| Publisher.NoEvents | sync/event_publisher_test.go:102-118 | a tick without transactions gives `(0, nil)` and no produce call |
| Reader.Scan | sync/event_reader.go:107-138 | the scan loop from one epoch: skip epochs without intervals or fully checkpointed, fail on a checkpoint read error, else the first pending interval's range; the sentinel past the status epoch |
| Reader.TickRangeOf | sync/event_reader.go:98-104 | `calculateTickRange`: a status failure gives `(0, 0, startEpoch)` with an error, else the scan from `min(startEpoch, status.Epoch)` |
| Reader.LastProcessed | sync/event_reader.go:118-119 | the checkpoint the scan compares against: the stored tick, or 0 for an epoch the store answers `ErrNotFound` for |
| Reader.FirstPendingFrom | sync/event_reader.go:123-130 | the first interval at or after `k` ending beyond the checkpoint; none exactly when every such interval ends at or before it |
| Reader.ScanSentinel | sync/event_reader.go:110-138 | the scan returns `(0, 0, 0)` exactly when every epoch from its start to the status epoch has no intervals or is fully checkpointed |
| Reader.ScanStops | sync/event_reader.go:107-121 | any other result names an epoch between the start and the status epoch that has intervals, every earlier epoch was skipped, and an error result is `(0, 0, epoch)` after a failed checkpoint read there |
| Reader.ScanFound | sync/event_reader.go:123-128 | a found range comes from the first pending interval: `start = max(From, last + 1)`, `end = To`, `start > last`, `start` and `end` are non-zero, and `start <= end` when `From <= To` |
| Reader.ScanFoundAt | sync/event_reader.go:123-128 | the range's bounds come from the first pending interval of the epoch the scan stops at |
| Reader.ScanSkips | sync/event_reader.go:110-135 | starting the scan after a run of skipped epochs gives the same result |
| Reader.ScanReadsVisited | sync/event_reader.go:118-124 | the scan reads only the checkpoints of the epochs from its start on |
| Reader.TickRangeErrors | sync/event_reader.go:101-121 | a status failure gives `(0, 0, startEpoch)` with an error; a checkpoint read failure gives `(0, 0, searchEpoch)` in the scanned epochs; with a reliable store there is no other error, so `ErrNotFound` is not one |
| Reader.ProcessTick | sync/event_reader.go:83-96 | `processTickEvents`: a fetch failure or a processing failure is an error, else the processor's records are added |
| Reader.RunRange | sync/event_reader.go:69-81 | `processTickEventsRange`: each tick in turn is processed, then checkpointed; the first failure ends the run |
| Reader.FirstFailure | sync/event_reader.go:70-79 | the first tick of the range whose fetch, processing or checkpoint write fails, or the exclusive end |
| Reader.CheckpointSeq | sync/event_reader.go:75 | the checkpoints `(epoch, from)` to `(epoch, toExcl - 1)`, in tick order |
| Reader.RunRangeError | sync/event_reader.go:69-81 | the range ends with the error of the first failing tick, and without error exactly when no tick fails |
| Reader.RunRangeCheckpoints | sync/event_reader.go:70-79 | checkpoints are written in increasing order for exactly the ticks before the first failure, each after its fetch and processing succeed; the epoch's checkpoint ends at the last of them, and other epochs keep theirs |
| Reader.RunRangeRecords | sync/event_reader.go:70-75 | the records produced are those of the ticks up to and including the failing one, or of the whole range |
| Reader.RunRangeRecordsAtFailure | sync/event_reader.go:70-75 | a run whose first tick fails has produced that tick's records, if it fetched and processed it, and nothing else |
| Reader.RunRangeRecordsStep | sync/event_reader.go:69-80 | a tick that succeeds adds its records, is checkpointed, and the run goes on from the next tick with the same first failure |
| Reader.NoTicks | sync/event_reader.go:56 | the guard that declines a range: `start > end`, a zero start or end, or epoch 0 |
| Reader.SyncSpec | sync/event_reader.go:46-67 | `sync`: a range error or a processing error keeps the start epoch; a range the guard rejects is not processed and its epoch is returned; otherwise the range is processed up to `end + 1` in 32-bit arithmetic |
| Reader.LoopSpec | sync/event_reader.go:31-44 | `SyncInLoop`: cycle `count` runs `sync` against that cycle's surroundings, and its returned epoch starts the next cycle |
| Reader.SyncEpochCarry | sync/event_reader.go:46-66 | a failed cycle returns its start epoch; a cycle whose scan returns the sentinel changes nothing and returns 0 |
| Reader.SyncEndWraps | sync/event_reader.go:60 | a range ending at 2^32-1 has exclusive end 0: nothing is processed, yet the cycle reports the epoch with no error |
| Reader.SyncProcesses | sync/event_reader.go:56-66 | a cycle that processes a range checkpoints its ticks up to the first failure; it fails with that tick's error and keeps the start epoch, or succeeds with the range's epoch and the checkpoint at the range's end |
| Reader.SyncAdvances | sync/event_reader.go:56-79 | a successful processing cycle moves its epoch's checkpoint strictly forward and leaves other epochs alone |
| Reader.FirstPendingRaised | sync/event_reader.go:123-128 | raising a checkpoint below the end of the first pending interval keeps that interval first |
| Reader.TickRangeOfStatus | sync/event_reader.go:101-111 | the range depends on the service's status only |
| Reader.FailedCycleCheckpoints | sync/event_reader.go:59-62 | a cycle that fails in its range returns its start epoch, with the range's epoch checkpointed at the tick before the failing one, if any tick succeeded |
| Reader.ResumeScan | sync/event_reader.go:60-62 | after a failure at tick `t`, the scan against the same service returns the range from `t` to the same end |
| Reader.SyncResumesAtFailure | sync/event_reader.go:60-62 | after a failure at tick `t`, the next cycle, whose service reports the same status whatever it now answers for the ticks, returns the range from `t` to the same end: the failing tick is retried and none is skipped |
| Reader.SyncStallsOnEmptyRange | sync/event_reader.go:56-57 | a found range the guard rejects (`start > end`, or epoch 0) is not processed; the cycle returns its epoch, and the next cycle from there finds the same range |
| Reader.ReversedIntervalStalls | sync/event_reader.go:56-57 | with the interval `[10, 8]` of epoch 5 and no checkpoint, the scan returns `(10, 8, 5)` and the cycle returns 5 having processed nothing |
| Reader.LoopOneCycle | sync/event_reader.go:36-40 | one loop cycle is one `sync`, and its returned epoch is the next start epoch |
| Reader.LoopSpecSplit | sync/event_reader.go:35-43 | `m` cycles then `n` more are `m + n` cycles |
| Reader.LoopFixedPoint | sync/event_reader.go:35-43 | cycles that each return their own start epoch and change nothing leave the loop's epoch and state unchanged |
| Reader.LoopStallsOnEmptyRange | sync/event_reader.go:35-57 | while the service answers the same, a loop that meets a range the guard rejects reports that epoch in every later cycle and never writes again |
| Reader.EventReader.constructor | sync/event_reader.go:22-29 | the reader holds its client, processor and store |
| Reader.EventReader.CalculateTickRange | sync/event_reader.go:98-140 | the loop's four results are the specification's for that cycle's service, and it changes nothing |
| Reader.EventReader.ProcessTickEvents | sync/event_reader.go:83-96 | fetches the tick and lets the processor publish it; state and error are those of the specification |
| Reader.EventReader.ProcessTickEventsRange | sync/event_reader.go:69-81 | the loop's store, checkpoint log, records and error are those of the range specification |
| Reader.EventReader.Sync | sync/event_reader.go:46-67 | the returned epoch, state and error are those of the cycle specification |
| Reader.EventReader.SyncInLoop | sync/event_reader.go:31-44 | after `n` cycles numbered from 0, each fed the previous cycle's epoch and its own service answers, the epoch and state are those of the loop specification |
| Reader.ScenarioNoFailures | sync/event_reader_test.go:16-27 | no tick of the test's service fails |
| Reader.ScenarioFirstSync | sync/event_reader_test.go:44-47 | from epoch 115 with no checkpoints, the cycle processes 1230..1233 of epoch 120 and returns 120 |
| Reader.ScenarioSecondSync | sync/event_reader_test.go:49-51 | from 120 with checkpoint 1233, it processes 1234 and returns 120 |
| Reader.ScenarioThirdSync | sync/event_reader_test.go:53-55 | from 120 with checkpoint 1234, it processes 12340..12345 of epoch 123 and returns 123 |
| Reader.ScenarioSynced | sync/event_reader.go:137-138 | once everything is checkpointed, a cycle from any epoch up to 123 returns 0 and changes nothing |
| Reader.ScenarioLoopSettles | sync/event_reader.go:36-40 | once the test's service is fully checkpointed, the loop from any epoch up to 123 moves to epoch 0 and stays there, writing nothing |
| Reader.SyncScenario | sync/event_reader_test.go:29-57 | the reader's cycles from 115, 120 and 120 return 120, 120 and 123; the next two return 0 |
| Reader.RejectedSendCheckpointed | sync/event_reader.go:69-80 | a cycle over one tick with one event records it and checkpoints the tick with no error; the broker's answer is not among its inputs |
| Reader.RejectedSendScenario | sync/event_processor.go:80-88 | a reader whose broker rejects every record still returns epoch 5 without error and stores checkpoint 10, after its one record was rejected |

## Left out

- Timing and logging are not modelled: `time.Tick`, `time.Sleep`, the 5-second context
  timeout and `log.Printf`.
- `Reader.EventReader.SyncInLoop`: runs a given number of cycles instead of forever, because
  an unbounded loop has no final state to specify.
- `Reader.EventReader.SyncInLoop`: the service varies by cycle, but the store's read and write
  failures depend only on the epoch and tick. A checkpoint read or write that fails once fails
  at every retry, so the model does not show a transient store error clearing up.
- `Reader.EventReader.SyncInLoop`: the cycle counter is a `nat`; Go's `uint64` counter cannot
  realistically wrap.
- Pebble's on-disk engine, `NewPebbleStore`'s directory and `Close` become a map field with
  arbitrary read and write failures.
- The Prometheus metrics of `sync/sync_metrics.go` are write-only observability and are not
  modelled.
- `json.Marshal` and `common.K12Hash` are library calls, modelled as uninterpreted functions
  that may fail. The JSON byte format is not modelled.
- The publisher's asynchronous callbacks, the `sync.WaitGroup` barrier and the hang on an
  unreachable broker are concurrency. The model uses the tests' synchronous fake, whose
  callback runs before `Produce` returns.
- The `binary.Write` and `buff.Write` error branches of `createUniqueId` are not modelled,
  because writing into a `bytes.Buffer` cannot fail.
- `main.go` (configuration, client construction, signal handling) and the gRPC client of
  `client/event_client.go` are not part of this model. Only the `EventStatus` and
  `ProcessedTickInterval` types are kept.
- `sync/event_test.go` and `client/event_client_integration_test.go` are not part of this
  model. The first is about the JSON format; the second needs a live service.
- The error texts are not modelled. Each error is a datatype value naming where it arose,
  not a wrapped message.
- `Reader.Scan`: requires a status epoch below 2^32-1. At 2^32-1 the source's `searchEpoch++`
  wraps to 0 and the scan can loop forever.
- `Reader.TickRangeOf`: same precondition as `Reader.Scan`.
- `Reader.EventReader.CalculateTickRange`: same precondition as `Reader.Scan`.
- `Reader.EventReader.Sync`: same precondition as `Reader.Scan`. So are `Reader.SyncSpec` and
  `Reader.LoopSpec`.

## Divergences

Where the code and the system's documentation or tests disagree, the model follows the code.

- **Sentinel cycle.** A cycle whose scan returns the sentinel `(0, 0, 0)` returns epoch 0
  (`sync/event_reader.go:56-66`), and the loop carries that 0 into the next cycle
  (`sync/event_reader.go:36-40`). The next scan therefore restarts from epoch 0; the previous
  epoch is not kept, and lower epochs are visited again. `Reader.SyncEpochCarry` states this,
  the fifth cycle of `Reader.SyncScenario` shows it, and `Reader.ScenarioLoopSettles` shows the
  loop staying at 0.
- **Rejected ranges stall the loop.** An interval with `From > To` whose `To` lies past the
  checkpoint is found by the scan as a range with `start > end`. A pending range of epoch 0 is
  rejected too, because the guard also tests `epoch == 0`. The guard at
  `sync/event_reader.go:56` treats such a range as "no ticks": the cycle returns
  that range's epoch with no error and writes no checkpoint. Every later cycle then finds the
  same range, and the loop never gets past it (`Reader.SyncStallsOnEmptyRange`,
  `Reader.LoopStallsOnEmptyRange`, and `Reader.ReversedIntervalStalls` for `{5: [[10, 8]]}`).
- **Rejected sends are checkpointed.** The processor only prints a produce error and returns
  nil (`sync/event_processor.go:80-88`), and the reader then writes the tick's checkpoint
  (`sync/event_reader.go:75`). A tick whose record the broker rejects is therefore checkpointed
  and never sent again, although the system is meant to deliver every event at least once.
  `Reader.RejectedSendCheckpointed` states the cycle, and `Reader.RejectedSendScenario` runs it
  with a broker that rejects every record.
- **Build errors.** The `break` at `sync/event_publisher.go:65` leaves only the current
  transaction's loop. Later transactions are still published, and nothing checks the errors in
  between, whereas the documentation describes aborting the rest of the tick.
  `Publisher.BuildErrorEndsTransaction` and `Publisher.ErrorsDoNotStopLaterTransactions` state
  the code's behaviour.
- **Publisher error test.** `sync/event_publisher_test.go:95-98` expects 2 `Produce` calls when
  every send fails ("abort after processing first tx"). Send failures never break a loop, so the
  code makes 3 calls, one per event. `Publisher.AllSendsFail` proves 3.
- **Exclusive end.** `end + 1` at `sync/event_reader.go:60` is `uint32` arithmetic. For
  `end = 2^32-1` it is 0, so the cycle processes nothing and still reports success
  (`Reader.SyncEndWraps`).
- **Nil and empty interval lists.** Go's `tickIntervals == nil` test tells an absent epoch from
  one with an empty list. The model's map does the same: an absent key is skipped, while a
  present empty list reads the store, so a failing read there is an error.
- **Reader test.** `sync/event_reader_test.go:44` calls `NewEventReader` with two arguments, but
  the constructor takes three.
- **Missing ticks in the reader test.** The test's fake returns `nil` events for every tick,
  which the processor would dereference. The scenario instead gives every tick an empty event
  list, which each processor handles as "no events".
