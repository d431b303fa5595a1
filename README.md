# Transaction-log sequencing and replay

A Dafny model of the transaction logger of a small key-value service written in Go.
The service changes its in-memory store, then records each Put and Delete as an
Event in an append-only log. At startup it rebuilds the store by replaying that log.

The model covers three source files:

- `transaction.dfy`, module `Transaction` (`transaction/transactionlogger.go`).
  An Event has a `uint64` sequence number, a one-byte kind code, a key and a value.
  Delete is code 1 and Put is code 2. Code 0 is the blank `iota` slot and names no kind.
- `file_logger.dfy`, module `FileLog` (`transaction/file/file_transaction_logger.go`).
  The class `FileLogger` holds the counter `lastSequence`, which replay and the writer share.
  - `ReadEvents` is the replay loop. It accepts a record only when its sequence is above
    the high-water mark, raises the mark to that sequence, and stops at the first parse,
    sequencing or scanner error.
  - `Run` is the writer loop. It raises the counter by one for each queued event, appends
    the event stamped with the new value, and halts at the first failed append. It reports
    that failure on a fresh channel of capacity one.
  - Each loop is proved against a recursive function, `Replay` or `Write`. The sequencing
    properties are lemmas about those functions: strict monotonicity, halt at the first
    fault, one reported error, the hand-off from replay to writer, and write-then-replay.
- `service.dfy`, module `Service` (`gorillamux.go`).
  - `InitializeTransactionLog` is the startup loop. It applies Delete events as
    `store.Delete` and Put events as `store.Put`, and skips any other kind code. It stops
    at the first error or closed channel, then calls `Run` whatever the outcome.
  - The two mutating handlers change the store first and give the logger an event only
    when that succeeds.
  - The store is a `map<string, string>`. A store failure is a parameter, and a failing
    Put or Delete leaves the map as it was.

The model follows the code in three places where one might expect otherwise:

- Recovery calls `Run` even when replay or a store operation failed (gorillamux.go:49),
  not only after an error-free replay.
- With the file backend a replay error can be lost. Its error channel is buffered
  (file_transaction_logger.go:50) and is closed before the event channel, so the `select`
  may see the closed event channel first. The database backend that gorillamux.go:21
  actually builds uses an unbuffered error channel, so there each replay error is taken
  by the `select` before either channel closes. The model leaves the choice to a
  parameter, `takeError`, which is always true for that backend, and proves that a replay
  error is never invented and that a store failure always wins.
- Keys are not required to be non-empty. The code never checks them.

## Model

| member | source | states |
|---|---|---|
| `Transaction.KindOf` | transaction/transactionlogger.go:12-16 | a code names Delete exactly when it is 1 and Put exactly when it is 2 |
| `Transaction.Code` | transaction/transactionlogger.go:13-15 | neither kind is written with code 0 |
| `Transaction.CodeRoundTrip` | transaction/transactionlogger.go:12-16 | kind codes decode back to their kind, and the two kinds have distinct codes |
| `Transaction.ZeroCodeIsNoKind` | transaction/transactionlogger.go:13 | code 0, the kind of the zero Event, is neither Delete nor Put |
| `Transaction.EventFieldRanges` | transaction/transactionlogger.go:3-10 | every sequence lies in 0..2^64-1 and every kind code in 0..255 |
| `FileLog.Replay` | transaction/file/file_transaction_logger.go:58-80 | the replay pass yields no more events than there are lines, never lowers the mark, and leaves it unchanged when nothing is yielded |
| `FileLog.ReplayYieldsPrefix` | transaction/file/file_transaction_logger.go:58-75 | replay yields exactly the leading records of the file, in file order, and no more events than there are lines |
| `FileLog.ReplayAscending` | transaction/file/file_transaction_logger.go:66-74 | yielded sequences strictly increase and all exceed the starting mark; the final mark is the last yielded sequence, or the starting mark if none was yielded |
| `FileLog.ReplayCleanIff` | transaction/file/file_transaction_logger.go:58-80 | replay ends without error if and only if every line was accepted and the scanner reported no error |
| `FileLog.ReplayStopsAtFirstFault` | transaction/file/file_transaction_logger.go:58-80 | a failed replay reports one error that names the first line not yielded: a malformed line, a sequence not above the mark, or else the scanner's error once every line was yielded |
| `FileLog.ReplayAcceptsAscending` | transaction/file/file_transaction_logger.go:58-75 | well-formed records whose sequences strictly increase above the mark are all yielded, with no error, and leave the mark at the last sequence |
| `FileLog.FreshReplayRejectsZero` | transaction/file/file_transaction_logger.go:67-70 | from a fresh logger's mark of 0, a record numbered 0 is rejected as out of sequence and nothing is yielded |
| `FileLog.Write` | transaction/file/file_transaction_logger.go:34-43 | the writer appends at most the whole queue and all of it when no append fails; its counter rises by one per appended record, plus one for a failed append |
| `FileLog.WriteStamps` | transaction/file/file_transaction_logger.go:34-37 | the writer appends a prefix of the queue in queue order; the i-th record keeps its event's kind, key and value and is numbered counter + 1 + i |
| `FileLog.WriteHaltsAtFirstFailure` | transaction/file/file_transaction_logger.go:34-43 | the writer ends cleanly if and only if every append succeeds; otherwise it reports exactly the first failure, appends nothing from that event on, and the failed event has used up a number |
| `FileLog.WriteAscending` | transaction/file/file_transaction_logger.go:35-37 | the writer's records strictly increase above the counter it started from |
| `FileLog.ReplayThenWriteAscending` | transaction/file/file_transaction_logger.go:34-72 | after replay the writer continues from the replayed high-water mark, so replayed and newly written records together strictly increase |
| `FileLog.WriteThenReplay` | transaction/file/file_transaction_logger.go:34-75 | given a faithful parse of each record, records written from a counter and replayed from the same counter are yielded in full and without error, numbered contiguously from counter + 1, and leave the mark where the writer left its counter |
| `FileLog.PutEvent` | transaction/file/file_transaction_logger.go:86-88 | `WritePut` builds a Put event with the given key and value, leaving the sequence for the writer |
| `FileLog.DeleteEvent` | transaction/file/file_transaction_logger.go:90-92 | `WriteDelete` builds a Delete event with the given key and an empty value |
| `FileLog.NewFileTransactionLogger` | transaction/file/file_transaction_logger.go:18-25 | an open failure returns an error and no logger; otherwise a fresh logger starts with mark 0, nothing appended and no error |
| `FileLog.FileLogger.constructor` | transaction/file/file_transaction_logger.go:24 | a new logger has mark 0, nothing appended and an empty error channel |
| `FileLog.FileLogger.Err` | transaction/file/file_transaction_logger.go:94-96 | the error channel holds at most one error |
| `FileLog.FileLogger.ReadEvents` | transaction/file/file_transaction_logger.go:47-84 | the replay loop yields, reports and leaves the mark exactly as `Replay` from the old mark says |
| `FileLog.FileLogger.Run` | transaction/file/file_transaction_logger.go:27-45 | the writer loop appends exactly the records `Write` from the old counter gives, leaves the counter where `Write` does, and its fresh error channel holds the one failure or nothing |
| `Service.UnknownKindIsSkipped` | gorillamux.go:40-45 | an event whose kind code is neither Delete nor Put leaves the store unchanged and raises no error |
| `Service.ZeroEventIsSkipped` | gorillamux.go:39-45 | the zero event a closed channel delivers leaves the store unchanged |
| `Service.RebuildAppend` | gorillamux.go:36-47 | applying a log in two parts gives the same store as applying it whole |
| `Service.RebuildIgnoresSequence` | gorillamux.go:40-45 | the store rebuilt from events depends only on their kinds, keys and values, not their sequence numbers |
| `Service.ApplyEventsClean` | gorillamux.go:36-47 | the recovery loop applies every replayed event and ends without error if and only if no store operation fails; the store is then the one rebuilt from all events |
| `Service.ApplyEventsStopsAtFirstError` | gorillamux.go:36-46 | on a store failure the loop stops at the first failing event and reports its error; the store is rebuilt from exactly the events before it |
| `Service.RecoverReportsOneError` | gorillamux.go:36-51 | with no refused event the store is rebuilt from all events and the error is the replay error if the select took it, else none; an error other than the replay error is a store failure; without a replay error, an error means some event was refused |
| `Service.RecoverReportsFirstStoreFailure` | gorillamux.go:36-51 | when event k is the first refused one, recovery reports that store failure whatever the replay error and the select's choice, and the store is rebuilt from exactly the events before k |
| `Service.Recover` | gorillamux.go:36-51 | the loop's result, with the select as a choice parameter: any error is the replay error or a store failure, and when the select does not take the replay error only a store failure can be reported |
| `Service.ApplyEvent` | gorillamux.go:40-45 | applying one event fails exactly when the store is called (kind Delete or Put) and refuses, and a failure leaves the store unchanged and is reported as that store failure |
| `Service.ApplyEvents` | gorillamux.go:36-46 | the loop consumes at most every event; without error it consumes all of them, and an error is a store failure on an event it consumed |
| `Service.HandlerLogsReplayToStore` | gorillamux.go:72-110 | for a run of handler calls, each of whose logs replays to its new store, replaying everything logged in order reproduces the store the run ends with |
| `Service.InitializeTransactionLog` | gorillamux.go:18-52 | a construction failure returns at once without calling `ReadEvents` or `Run`; otherwise `ReadEvents` then `Run` are called, and the store and error are those of `Recover` |
| `Service.KeyValueDeleteHandler` | gorillamux.go:72-85 | the key is removed and a Delete event for it is logged only when the store delete succeeds; a failure logs nothing and answers 500; other keys keep their values; replaying what was logged reproduces the new store |
| `Service.KeyValuePutHandler` | gorillamux.go:89-110 | a Put event with exactly the key and body stored is logged only when reading the body and the store put both succeed; otherwise nothing changes and the answer is 500; replaying what was logged reproduces the new store |
| `Service.RestartRebuildsStore` | gorillamux.go:32-51 | given a faithful parse of each record, events written by a fresh logger, replayed by a fresh logger and applied without store failure rebuild the same store as applying the original events, with no error |
| `Service.PutPutDeleteScenario` | gorillamux.go:40-45 | Put("a","1"), Put("b","2"), Delete("a") are numbered 1, 2, 3 and rebuild an empty store to {b: "2"} |

## Left out

- The relational-table backend (`transaction/postgres/postgres_transaction_logger.go`) is not part of this model. Its sequence numbers come from the database, and it has no client-side sequencing logic.
- The `TransactionLogger` interface is not modelled as a polymorphic type. Only the file variant is modelled. `FileLogger` carries `ReadEvents`, `Run` and `Err`. `PutEvent` and `DeleteEvent` build the events that `WritePut` and `WriteDelete` enqueue.
- The text format of a record is abstract. Replay takes the parse result of each scanned line (`Scanned`) and the scanner's final error. The writer appends stamped events. So there is no round trip through the text format, and none would hold as written:
  - The `Fprintf` format at transaction/file/file_transaction_logger.go:37 has three verbs for four operands, so the value is never written into a field.
  - The `Sscanf` format at :60 expects a comma after each tab, and it has three verbs for four operands.
  - As a consequence, `Sscanf` fails on every line the writer produces, so replay of any non-empty log file stops at its first line with a parse error. The lemmas that read records back (`FileLog.WriteThenReplay`, `Service.RestartRebuildsStore`) hold only for a faithful parse.
- `WritePut` and `WriteDelete` are modelled as event construction, not as reaching the writer. `Run` never assigns the logger's `events` channel (file_transaction_logger.go:28), so these sends go to a nil channel. `FileLogger.Run` drains a queue given as its argument.
- Goroutines, channel buffering, the 16-slot queue with its backpressure, and `select` fairness are not modelled. The writer and replay run as sequential loops. The recovery `select` is modelled by a choice parameter once both of its channels are ready. A replay goroutine left blocked when recovery stops early is not modelled.
- FileLog.FileLogger.Run: requires `lastSequence + |queue| <= 2^64-1`, so `uint64` wrap-around of `lastSequence++` is not modelled. `FileLog.Write` has the same precondition.
- A failed append is taken to write nothing to the file. A partial write is not modelled.
- Error values are constructors of `Error`, one per message. Message text and `%w` wrapping are not modelled.
- The store package's internals are not modelled. `Put` and `Delete` succeed or fail according to a parameter, and a failure is taken to leave the store unchanged.
- The package-level `store` and `logger` are not modelled as globals. Recovery and the handlers take the store as a value and return the new store and what they logged.
- `initializeTransactionLog` builds a database-backed logger. The model takes that logger's replay output (its events and its error) as parameters and records the logger calls it makes. The model does not depend on the backend.
- Opening the file (`os.OpenFile` and its mode), `bufio.Scanner` internals, the HTTP router, `keyValueGetHandler`, `helloMuxHandler` and `main` are not modelled. They are I/O or plumbing.
