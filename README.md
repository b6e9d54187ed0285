# AntiFraudService: transaction evaluation path in Dafny

This project models the transaction evaluation path of AntiFraudService and
proves properties of that model.

A transaction is created as `Pending` and stored. A message naming it is then
published to a stream. A background worker runs a consumer over the stream.
For each decoded message the worker calls the update handler. The handler
applies the fraud rule and writes `Approved` or `Rejected` back to the store:

- a single value above 2000 is rejected;
- a value that would take the account's same-day approved total above 20000
  is rejected.

The files, one module each:

- `domain.dfy` (`Domain`): the shared vocabulary.
  - The entity, the message and the response.
  - `DateTime` as a day number plus a tick of the day.
  - Money as an exact `real`, like C# `decimal`.
  - Error values for the exceptions the code raises.
  - `Select`, a generic filter over sequences that the reference definitions use.
- `repository.dfy` (`Repository`): the store as a class over a sequence of rows.
  - Its primary-key invariant is `Valid`.
  - `DailyTotal` is the same-day approved sum, a filter-and-sum over the rows.
- `update_transaction.dfy` (`UpdateTransaction`): the threshold rule and the
  update handler.
  - `Handle` is an imperative method on the store.
  - It is proved equal to the pure `Evaluate`, and the properties are proved
    about `Evaluate`.
- `producer.dfy` (`Producer`): the stream producer. The topic is the list of
  records sent, each keyed by transaction id.
- `create_transaction.dfy` (`CreateTransaction`): the creation handler. It
  stores first, then publishes.
- `validators.dfy` (`Validators`): the create and update field rules. Each
  validator is the list of rules a command breaks.
- `get_transaction_by_id.dfy` (`GetTransactionById`): the read path.
- `consumer.dfy` (`Consumer`): the polling loop.
  - The broker is a script of poll outcomes.
  - The JSON decoder is a function parameter that returns decoded, `null` or
    malformed.
  - The consumer's effects form one ordered event log: handler calls,
    commits, pauses, error logs and the two cancellation info logs.
  - `ConsumeAsync` is a `while` loop proved equal to the pure `Run`.
  - `Run` is proved equal to reference definitions stated over the polls.
- `worker.dfy` (`Worker`): the supervision loop with capped exponential backoff.
  - The stopping token, the scope factory and the consumer are replaced by a
    script of cycles.
  - `ExecuteAsync` is a class method with a `while` loop over the cycles.
  - It is proved equal to the pure `Execute`, which the backoff, reset,
    cancellation and cleanup lemmas are about.

Inputs the model takes as parameters:

- the clock (`now`);
- the fresh GUIDs of a new record;
- every outcome of the broker, the JSON decoder, the scope factory and the
  cancellation token;
- whether publishing or closing throws.

Where the code differs from what its own comments, tests, null checks and HTTP contract suggest, the model follows the code:

- **Final status can change.** A record keeps its final status only by
  convention. The update handler decides again for any record it is given.
  This is the second row under "## Findings".
- **The update validator never runs on the worker path.** The worker builds
  the update command itself and calls the handler directly. Its
  `TransferTypeId` is left at 0.
- **`Id` is never set on update or query responses.** Both handlers leave it
  at `Guid.Empty`.
- **The absent-record branches are dead.** The store throws
  `KeyNotFoundException` for an absent key. So the update handler's "not
  found" branch, which throws `InvalidOperationException`, never runs, and
  neither does the query handler's null branch. The exception that escapes
  is `KeyNotFoundException`.
- **The 201 response cannot be followed.** The location returned by the
  creation endpoint carries the external id. The query handler looks up the
  primary key.
- **The consumer's handler-error path is unreachable with this worker.** The
  worker's callback swallows every handler exception. The consumer model
  keeps that path because `ConsumeAsync` takes any handler.

## Model

| member | source | states |
|---|---|---|
| Domain.ToLower | AntiFraudService/Appplication/Queries/GetTransactionById/GetTransactionByIdHandler.cs:27 | lower-casing keeps the length and lowers each character |
| Repository.IndexOf | AntiFraudService/Infrastructure/Repositories/TransactionRepository.cs:23-27 | the key lookup finds a row carrying the key, or none exists |
| Repository.IndexOfUnique | AntiFraudService/Infrastructure/Repositories/TransactionRepository.cs:25 | with unique keys the row found is the only one carrying the key |
| Repository.InDayIffSameDay | AntiFraudService/Infrastructure/Repositories/TransactionRepository.cs:37-43 | `[date.Date, date.Date + 1 day)` holds exactly the instants of that calendar day: midnight in, next midnight out |
| Repository.DailyTotalZero | AntiFraudService/Infrastructure/Repositories/TransactionRepository.cs:40-47 | with no row passing the filter the daily total is 0 |
| Repository.DailyTotalAppend | AntiFraudService/Infrastructure/Repositories/TransactionRepository.cs:40-45 | adding a row changes the total by that row's contribution only |
| Repository.DailyTotalReplace | AntiFraudService/Infrastructure/Repositories/TransactionRepository.cs:40-45 | overwriting a row changes the total by the difference of the two rows' contributions |
| Repository.DailyTotalFixture | AntiFraudService.Tests/Infraestructure/Repositories/TransactionRepository.Test.cs:101-131 | the fixture totals 150: pending, previous-day and other-account rows do not count |
| Repository.TransactionRepository.GetDailyAccumulated | AntiFraudService/Infrastructure/Repositories/TransactionRepository.cs:35-48 | summing the rows the filter keeps, with no rows giving 0, is the daily total the lemmas above are about |
| Repository.KeptSum | AntiFraudService/Infrastructure/Repositories/TransactionRepository.cs:40-47 | the sum of the kept rows equals the daily total |
| Repository.TransactionRepository.constructor | AntiFraudService/Infrastructure/Repositories/TransactionRepository.cs:12-15 | an empty store satisfies the key invariant |
| Repository.TransactionRepository.Add | AntiFraudService/Infrastructure/Repositories/TransactionRepository.cs:17-21 | inserts a new key (then the lookup yields the record); a duplicate key fails and stores nothing |
| Repository.TransactionRepository.GetById | AntiFraudService/Infrastructure/Repositories/TransactionRepository.cs:23-27 | returns the stored record with that key, or `KeyNotFound` exactly when no row has it; never null |
| Repository.TransactionRepository.Update | AntiFraudService/Infrastructure/Repositories/TransactionRepository.cs:29-33 | replaces the row with the key, every other key looks up as before; an absent key fails and changes nothing |
| UpdateTransaction.Decide | AntiFraudService/Appplication/Commands/UpdateTransaction/UpdateTransactionHandler.cs:21-26 | approved iff value ≤ 2000 and total + value ≤ 20000; never Pending |
| UpdateTransaction.DecideMonotone | AntiFraudService/Appplication/Commands/UpdateTransaction/UpdateTransactionHandler.cs:23 | a smaller value on a smaller total stays approved |
| UpdateTransaction.DecisionScenarios | AntiFraudService.Tests/Application/Commands/UpdateTransaction/UpdateTransactionHandler.Test.cs:21-99 | 1500 on 10000 and exactly 2000 approve; 2001, 2000.01 and 500 on 19600 reject |
| UpdateTransaction.Handle | AntiFraudService/Appplication/Commands/UpdateTransaction/UpdateTransactionHandler.cs:18-41 | the response and the new rows are those of `Evaluate` on the old rows; the key invariant is kept |
| UpdateTransaction.Evaluate | AntiFraudService/Appplication/Commands/UpdateTransaction/UpdateTransactionHandler.cs:18-41 | keeps the number of rows; fails iff no row has the key, and then with `KeyNotFound` and no row written |
| UpdateTransaction.EvaluateAbsent | AntiFraudService/Appplication/Commands/UpdateTransaction/UpdateTransactionHandler.cs:28-30 | an absent record: `KeyNotFound` escapes and no row is written |
| UpdateTransaction.EvaluatePresent | AntiFraudService/Appplication/Commands/UpdateTransaction/UpdateTransactionHandler.cs:28-40 | exactly that row changes, only in status, to the decision; the response carries its external id, creation time and status name |
| UpdateTransaction.ApprovalKeepsDailyLimit | AntiFraudService/Appplication/Commands/UpdateTransaction/UpdateTransactionHandler.cs:21-33 | approving a matching pending record created today adds its value and keeps the day's total ≤ 20000; rejecting leaves it unchanged |
| UpdateTransaction.RedeliveryOverturnsApproval | AntiFraudService/Appplication/Commands/UpdateTransaction/UpdateTransactionHandler.cs:21-33 | the same message handled twice first approves a record, then rejects it |
| UpdateTransaction.EvaluateOnce | AntiFraudService/Appplication/Commands/UpdateTransaction/UpdateTransactionHandler.cs:28-33 | records with a final status never change; for a pending or absent record it is `Evaluate` |
| UpdateTransaction.EvaluateOnceIdempotent | AntiFraudService/Appplication/Commands/UpdateTransaction/UpdateTransactionHandler.cs:28-33 | handling a message twice has the effect of handling it once |
| Producer.TransactionProducer.Produce | AntiFraudService/Infraestructure/Messaging/TransactionProducer.cs:23-33 | appends the message keyed by its transaction id; a failing send appends nothing |
| CreateTransaction.NewTransaction | AntiFraudService/Appplication/Commands/CreateTransaction/CreateTransactionHandler.cs:23-33 | the record is Pending with the fresh ids and clock and carries the request's four fields |
| CreateTransaction.CreatedRecordAndMessage | AntiFraudService/Appplication/Commands/CreateTransaction/CreateTransactionHandler.cs:23-44 | the message names the record by primary key and carries back the request's four fields |
| CreateTransaction.Handle | AntiFraudService/Appplication/Commands/CreateTransaction/CreateTransactionHandler.cs:21-55 | store then publish: a duplicate key publishes nothing; a failed publish leaves the Pending row; success sends one keyed message and answers id, external id, creation time and "Pending" |
| CreateTransaction.CreationKeepsDailyTotals | AntiFraudService/Appplication/Commands/CreateTransaction/CreateTransactionHandler.cs:32-35 | a new Pending row changes no account's daily total |
| Validators.CreateFailures | AntiFraudService/Application/Commands/CreateTransaction/Validators/CreateTransactionCommandValidator.cs:10-26 | each create rule is reported iff its field breaks it |
| Validators.CreateIsValid | AntiFraudService/Application/Commands/CreateTransaction/Validators/CreateTransactionCommandValidator.cs:8-27 | a create command is valid iff all four rules hold, 1,000,000 included |
| Validators.UpdateFailures | AntiFraudService/Application/Commands/UpdateTransaction/Validators/UpdateTransactionCommandValidator.cs:10-22 | each update rule is reported iff its field breaks it; target and transfer type are never reported |
| Validators.UpdateIsValid | AntiFraudService/Application/Commands/UpdateTransaction/Validators/UpdateTransactionCommandValidator.cs:8-23 | an update command is valid iff its three rules hold |
| Validators.UpdateIgnoresTargetAndTransferType | AntiFraudService/Application/Commands/UpdateTransaction/Validators/UpdateTransactionCommandValidator.cs:8-23 | changing target or transfer type never changes the update verdict |
| Validators.ValueBoundaries | AntiFraudService/Application/Commands/CreateTransaction/Validators/CreateTransactionCommandValidator.cs:22-26 | 1,000,000 and 0.01 pass; 1,000,000.01 and 0 fail with the matching rule |
| GetTransactionById.LowerNameMatches | AntiFraudService/Appplication/Queries/GetTransactionById/GetTransactionByIdHandler.cs:27 | the lowered enum name is the literal lower-case word |
| GetTransactionById.LowerStatusNames | AntiFraudService/Appplication/Queries/GetTransactionById/GetTransactionByIdHandler.cs:27 | the names are "pending", "approved", "rejected"; distinct per status; never equal to the update path's unlowered name |
| GetTransactionById.ToResponse | AntiFraudService/Appplication/Queries/GetTransactionById/GetTransactionByIdHandler.cs:23-28 | no id, the stored external id and creation time, and the lower-case word for the status |
| GetTransactionById.Handle | AntiFraudService/Appplication/Queries/GetTransactionById/GetTransactionByIdHandler.cs:16-29 | a response iff the key is stored, the one built from that row; otherwise `KeyNotFound` |
| GetTransactionById.HandleOutcomes | AntiFraudService/Appplication/Queries/GetTransactionById/GetTransactionByIdHandler.cs:16-29 | answers a response iff the key is stored, with its external id, creation time and lowered status; otherwise `KeyNotFound`; never null |
| GetTransactionById.HandleOrNull | AntiFraudService/Appplication/Queries/GetTransactionById/GetTransactionByIdHandler.cs:20-21 | null iff the key is absent; otherwise the response the handler gives |
| Consumer.Processed | AntiFraudService/Infrastructure/Messaging/TransactionConsumer.cs:33-88 | the turns handled are the prefix before the first cancellation or escaping error |
| Consumer.Reaction | AntiFraudService/Infrastructure/Messaging/TransactionConsumer.cs:35-87 | within one turn a commit or a pause is only ever the last entry |
| Consumer.Run | AntiFraudService/Infrastructure/Messaging/TransactionConsumer.cs:29-99 | when the loop rethrows, the fatal error is the last thing logged |
| Consumer.ReactionMatchesDue | AntiFraudService/Infrastructure/Messaging/TransactionConsumer.cs:35-87 | one turn's commits, handler calls and pauses are the reference ones |
| Consumer.RunMatchesDue | AntiFraudService/Infrastructure/Messaging/TransactionConsumer.cs:29-99 | over a run: commits are the offsets of non-empty, non-null payloads; the handler gets exactly the decoded messages; pauses are 100/1000/5000 ms; all in order |
| Consumer.DecodedDelivery | AntiFraudService/Infrastructure/Messaging/TransactionConsumer.cs:43-64 | a decoded message: handler first, one commit last, even if the handler throws; a throw only adds an error log, a deserialization error when the handler throws a `JsonException` and a processing error otherwise |
| Consumer.MalformedDelivery | AntiFraudService/Infrastructure/Messaging/TransactionConsumer.cs:51-57 | malformed JSON: logged and committed, handler not called |
| Consumer.IgnoredDelivery | AntiFraudService/Infrastructure/Messaging/TransactionConsumer.cs:39-49 | no payload, an empty payload or JSON `null`: no call, no commit, no pause |
| Consumer.CancelledBeforeFirstPoll | AntiFraudService/Infrastructure/Messaging/TransactionConsumer.cs:33-93 | a cancellation before any poll completes: nothing handled, committed or paused for, no rethrow; at the loop test nothing is logged either |
| Consumer.CancellationLogged | AntiFraudService/Infrastructure/Messaging/TransactionConsumer.cs:33-93 | the loop-test exit logs no cancellation; a cancelled poll or empty-poll pause logs "operation cancelled" from the inner handler; a cancelled error pause logs "stopped due to cancellation" from the outer handler; at most one, as the last entry |
| Consumer.TransactionConsumer.Cancel | AntiFraudService/Infrastructure/Messaging/TransactionConsumer.cs:68-93 | a cancelled turn appends the error it was pausing after, if any, then the cancellation info log of the handler that catches it |
| Consumer.RethrownOnlyOnFatal | AntiFraudService/Infrastructure/Messaging/TransactionConsumer.cs:77-98 | the loop rethrows iff it stopped on an error escaping the per-turn handlers |
| Consumer.TransactionConsumer.constructor | AntiFraudService/Infrastructure/Messaging/TransactionConsumer.cs:16-27 | a new consumer is open with nothing done |
| Consumer.TransactionConsumer.ConsumeAsync | AntiFraudService/Infrastructure/Messaging/TransactionConsumer.cs:29-99 | appends exactly `Run`'s events and ends as `Run` does; a closed consumer does nothing |
| Consumer.TransactionConsumer.Turn | AntiFraudService/Infrastructure/Messaging/TransactionConsumer.cs:35-87 | one non-stopping turn appends its reaction |
| Consumer.RunAdvance | AntiFraudService/Infrastructure/Messaging/TransactionConsumer.cs:33-88 | after a turn that does not stop the loop, its reaction followed by the rest of the run is the run from that turn |
| Consumer.TransactionConsumer.CloseAsync | AntiFraudService/Infrastructure/Messaging/TransactionConsumer.cs:101-114 | closing marks the consumer closed; a throwing close is logged and leaves the flag |
| Worker.NextDelay | AntiFraudService/Infrastructure/Messaging/TransactionStatusWorker.cs:83-84 | the next delay is double the last or the 300000 ceiling, never above either, never below the last |
| Worker.ToCommand | AntiFraudService/Infrastructure/Messaging/TransactionStatusWorker.cs:43-49 | the command copies id, source, target and value; transfer type stays 0 |
| Worker.CommandIgnoresTransferType | AntiFraudService/Infrastructure/Messaging/TransactionStatusWorker.cs:43-49 | the message's transfer type never reaches the command |
| Worker.Cleanup | AntiFraudService/Infrastructure/Messaging/TransactionStatusWorker.cs:86-101 | close iff a consumer was obtained, first; warning iff that close throws; dispose iff the scope was created, last; each at most once |
| Worker.TransactionStatusWorker.constructor | AntiFraudService/Infrastructure/Messaging/TransactionStatusWorker.cs:14-20 | a new worker has an empty log and holds the store |
| Worker.TransactionStatusWorker.ExecuteAsync | AntiFraudService/Infrastructure/Messaging/TransactionStatusWorker.cs:22-105 | from a delay of 5000, the rows and log become those of `Execute`, framed by start and stop entries |
| Worker.TransactionStatusWorker.RunCycle | AntiFraudService/Infrastructure/Messaging/TransactionStatusWorker.cs:30-101 | one turn's delay, rows, log and exit decision are `CycleStep`'s |
| Worker.TransactionStatusWorker.Release | AntiFraudService/Infrastructure/Messaging/TransactionStatusWorker.cs:86-101 | the `finally` block appends exactly the cleanup of the turn |
| Worker.TransactionStatusWorker.DeliverAll | AntiFraudService/Infrastructure/Messaging/TransactionStatusWorker.cs:39-62 | the callback over the delivered messages has `Deliver`'s effect |
| Worker.TransactionStatusWorker.OnMessage | AntiFraudService/Infrastructure/Messaging/TransactionStatusWorker.cs:39-62 | one callback has `Callback`'s effect: handler on the store, then reset or logged error |
| Worker.Callback | AntiFraudService/Infrastructure/Messaging/TransactionStatusWorker.cs:51-61 | either the delay is reset to 5000, or delay and rows are unchanged |
| Worker.Deliver | AntiFraudService/Infrastructure/Messaging/TransactionStatusWorker.cs:39-62 | adds exactly one log entry per delivered message |
| Worker.CallbackHandled | AntiFraudService/Infrastructure/Messaging/TransactionStatusWorker.cs:51-55 | a handled message writes the handler's decision to the store, resets the delay to 5000 and logs the success |
| Worker.CallbackUnhandled | AntiFraudService/Infrastructure/Messaging/TransactionStatusWorker.cs:51-61 | a message the handler fails on logs one error naming it and changes neither delay nor rows |
| Worker.DeliverUnhandled | AntiFraudService/Infrastructure/Messaging/TransactionStatusWorker.cs:39-62 | messages the handler fails on each add one error entry, in order, and leave delay and rows unchanged |
| Worker.DeliverUncancelled | AntiFraudService/Infrastructure/Messaging/TransactionStatusWorker.cs:39-62 | the callbacks never log a cancellation |
| Worker.CallbackEntry | AntiFraudService/Infrastructure/Messaging/TransactionStatusWorker.cs:51-61 | one callback appends one success or error entry naming its message; the delay is reset to 5000 exactly on success |
| Worker.DeliverLog | AntiFraudService/Infrastructure/Messaging/TransactionStatusWorker.cs:39-62 | the callbacks keep the earlier log and add one entry per message, in order, each naming its message |
| Worker.DeliverReset | AntiFraudService/Infrastructure/Messaging/TransactionStatusWorker.cs:51-61 | after the callbacks the delay is 5000 iff some message was handled successfully, otherwise unchanged |
| Worker.CycleKeepsDelayBounds | AntiFraudService/Infrastructure/Messaging/TransactionStatusWorker.cs:55-84 | a turn keeps 5000 ≤ delay ≤ 300000 |
| Worker.Execute | AntiFraudService/Infrastructure/Messaging/TransactionStatusWorker.cs:26-84 | a run keeps 5000 ≤ delay ≤ 300000 |
| Worker.BackoffClosedForm | AntiFraudService/Infrastructure/Messaging/TransactionStatusWorker.cs:83-84 | doubling from 5000 under the ceiling gives `min(5000 * 2^n, 300000)` |
| Worker.BackoffValues | AntiFraudService/Infrastructure/Messaging/TransactionStatusWorker.cs:11-12 | waits of 5, 10, 20, 40, 80, 160 s, then 300 s from the seventh on |
| Worker.FailureTraceWaits | AntiFraudService/Infrastructure/Messaging/TransactionStatusWorker.cs:71-84 | the waits of a failure run are the consecutive terms of the schedule |
| Worker.FailedTurn | AntiFraudService/Infrastructure/Messaging/TransactionStatusWorker.cs:39-101 | a failing turn whose messages all fail in the handler (or that has none) logs one error per message, then failure, wait and cleanup, doubles the delay, leaves the store |
| Worker.BackoffSchedule | AntiFraudService/Infrastructure/Messaging/TransactionStatusWorker.cs:39-101 | consecutive failing turns that handle no message successfully append the failure trace, end at the next term of the schedule, touch no row |
| Worker.BackoffFromStart | AntiFraudService/Infrastructure/Messaging/TransactionStatusWorker.cs:26-84 | after N failing turns that handle no message successfully (none delivered, or the handler fails on each), the k-th wait is `min(5000 * 2^k, 300000)` |
| Worker.CycleStep | AntiFraudService/Infrastructure/Messaging/TransactionStatusWorker.cs:30-101 | a turn exits iff consuming is cancelled by the token or the backoff wait is cancelled; on exit the delay is the one the callbacks left, not doubled |
| Worker.InterruptedWaitUnlogged | AntiFraudService/Infrastructure/Messaging/TransactionStatusWorker.cs:64-80 | an interrupted backoff wait ends the loop without logging a cancellation |
| Worker.CycleCleanup | AntiFraudService/Infrastructure/Messaging/TransactionStatusWorker.cs:86-101 | every turn keeps the earlier log and ends with its cleanup |
| Worker.CreateThenEvaluate | AntiFraudService/Infrastructure/Messaging/TransactionStatusWorker.cs:43-51 | after creation, the published message's command rewrites exactly the new record to the decision on the total before it, and succeeds |

## Left out

- Kafka client calls: `ConsumerBuilder`, `Subscribe`, `Consume`, `Commit`, `Close` and `ProducerBuilder`. Their outcomes are inputs; commits and sends are log entries. A `Commit` that throws is not modelled.
- JSON serialisation and deserialisation: the decoder is a parameter with three outcomes, and the JSON grammar is not modelled.
- `TransactionConsumer.Dispose` and the producer's `CloseAsync`: they only release client resources.
- Real time: waits are recorded as requested milliseconds, and the poll timeout is a constant.
- Clock mix: `DateTime.Now` against `UtcNow` is not modelled; the clock reading is a parameter. `AddDays` overflow at `DateTime.MaxValue` is not modelled either, because days are unbounded.
- Money is an exact `real`. The database's `decimal(18,2)` rounding and C# decimal overflow are not modelled.
- Async/await and the hosting lifecycle (`BackgroundService`, `StopAsync`): the loops are sequential and driven by the cycle and poll scripts.
- Races between concurrent workers on the daily total: sequential model only.
- EF Core change tracking and `SaveChangesAsync`: the store is a sequence of rows with a unique-key invariant.
- Failures of `scope.Dispose`, and database errors thrown inside the update handler, are not modelled. The handler fails only on an absent key.
- Log levels and message texts: each modelled log call is one event naming what is logged. The Kafka client's error callback (`SetErrorHandler`) and the error logged by `Dispose` are not modelled.
- DI wiring (`Program.cs`, service registration) and the HTTP controller are not modelled.
- Worker.TransactionStatusWorker.ExecuteAsync: the consumer inside a cycle is a script of deliveries plus an ending. It is not the `Consumer` model, because the worker works with any `ITransactionConsumer`.
- Worker.BackoffSchedule: a turn in which some message is handled successfully resets the delay, so the schedule lemmas cover only failing turns that handle no message successfully.
- Repository.TransactionRepository.Add: EF Core generates a fresh key when a record's `Id` is `Guid.Empty`; the model stores the given key as it is. No caller in this path adds an empty key: the creation handler sets `Guid.NewGuid()`.
- Repository.TransactionRepository.Update: EF Core inserts a detached record whose key is `Guid.Empty` instead of updating it; the model fails on any absent key. The update handler only writes back a record it has just loaded.

## Findings

| source | as written | input that shows it | evidently intended | confidence | as-written member | corrected member |
|---|---|---|---|---|---|---|
| AntiFraudService/Appplication/Queries/GetTransactionById/GetTransactionByIdHandler.cs:18-21 | the handler returns null when the store answers null, but the store throws `KeyNotFoundException` for an absent key | any id not in the store: the exception escapes | an absent id yields a null response, which the controller turns into 404 | high; not executed | GetTransactionById.HandleOutcomes | GetTransactionById.HandleOrNull |
| AntiFraudService/Appplication/Commands/UpdateTransaction/UpdateTransactionHandler.cs:21-33 | any record is decided again, whatever its status, and its own approval counts toward the total | account with an approved 18000 today; a pending 1500 delivered twice is approved, then rejected | a record leaves Pending once and its final status never changes | medium; not executed | UpdateTransaction.RedeliveryOverturnsApproval | UpdateTransaction.EvaluateOnce |

In the second row, `EvaluateOnceIdempotent` proves that the corrected
evaluation applied twice has the effect of applying it once. The worker model
calls the handler as written, so `Worker` keeps the code's behaviour.
