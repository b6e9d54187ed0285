/** The evaluation worker: a supervision loop that acquires a consumer and the
    update handler in a fresh scope, lets the consumer feed messages to the
    handler, and on failure waits with capped exponential backoff before
    trying again. The host's stopping token, the scope factory and the
    consumer are replaced by a script of cycles, one per turn of the loop;
    the script ending means the token was found cancelled at the loop test. */
module Worker {
  import opened Domain
  import opened Repository
  import opened UpdateTransaction
  import CreateTransaction

  /** The first wait after a failure, and the value a success resets to. */
  const BaseDelayMs: nat := 5000
  /** The ceiling of the backoff. */
  const MaxDelayMs: nat := 300000

  /** The wait after the one of `d`: doubled, but never above the ceiling. */
  function NextDelay(d: nat): (r: nat)
    ensures r <= MaxDelayMs
    ensures d <= MaxDelayMs ==> d <= r
    ensures r <= 2 * d
    ensures r == 2 * d || r == MaxDelayMs
  {
    if 2 * d < MaxDelayMs then 2 * d else MaxDelayMs
  }

  function Pow2(n: nat): (r: nat)
    ensures r >= 1
  {
    if n == 0 then 1 else 2 * Pow2(n - 1)
  }

  /** The `n`-th wait of an uninterrupted run of failures: 5000 ms doubled
      `n` times under the ceiling. */
  function Backoff(n: nat): nat {
    if n == 0 then BaseDelayMs else NextDelay(Backoff(n - 1))
  }

  /** How a turn of the loop obtains its collaborators: creating the scope
      throws, resolving the consumer throws, resolving the handler throws
      (the consumer is already held), or everything is obtained. */
  datatype Acquisition = ScopeFails | ConsumerFails | HandlerFails | Acquired

  /** How `ConsumeAsync` ends once it runs: it returns, it throws an
      `OperationCanceledException` while the token is cancelled, or it
      throws anything else. */
  datatype CycleEnd = Returned | CancelledByToken | Failed

  /** A message the consumer hands to the callback, with the clock reading
      the handler takes. */
  datatype Delivery = Delivery(message: MessageDto, now: DateTime)

  /** One turn of the loop: what acquisition gives, the messages delivered,
      how consuming ends, whether the backoff wait is cancelled and whether
      closing the consumer throws. */
  datatype Cycle = Cycle(
    acquire: Acquisition,
    deliveries: seq<Delivery>,
    end: CycleEnd,
    waitCancelled: bool,
    closeFails: bool)

  /** The worker's log, in order. */
  datatype WorkerEvent =
    | WorkerStarted
    | HandledOk(id: Guid)
    | HandlerError(id: Guid)
    | CycleFailed(delay: nat)
    | BackoffWait(ms: nat)
    | CancellationLogged
    | CloseCalled
    | CloseWarning
    | ScopeDisposed
    | WorkerStopped

  /** What the loop carries from one step to the next: `currentDelay`, the
      store's rows and the log. */
  datatype WorkerState = WorkerState(delay: nat, rows: seq<Transaction>, log: seq<WorkerEvent>)

  datatype CycleResult = CycleResult(state: WorkerState, stop: bool)

  /** The command the callback builds: the transfer type is not copied. */
  function ToCommand(m: MessageDto): (cmd: UpdateTransactionCommand)
    ensures cmd.transactionId == m.transactionId
    ensures cmd.sourceAccountId == m.sourceAccountId && cmd.targetAccountId == m.targetAccountId
    ensures cmd.value == m.value
    ensures cmd.transferTypeId == 0
  {
    UpdateTransactionCommand(m.transactionId, m.sourceAccountId, m.targetAccountId, 0, m.value)
  }

  /** Two messages that differ only in transfer type are evaluated alike. */
  lemma CommandIgnoresTransferType(m: MessageDto, transferType: int)
    ensures ToCommand(m.(transferTypeId := transferType)) == ToCommand(m)
  {
  }

  /** The callback: the handler runs on the command; success resets the
      delay, an exception is logged and swallowed and keeps the delay. */
  function Callback(s: WorkerState, d: Delivery): (r: WorkerState)
    ensures r.delay == BaseDelayMs || (r.delay == s.delay && r.rows == s.rows)
  {
    var e := Evaluate(s.rows, ToCommand(d.message), d.now);
    if e.response.Ok? then WorkerState(BaseDelayMs, e.rows, s.log + [HandledOk(d.message.transactionId)])
    else WorkerState(s.delay, e.rows, s.log + [HandlerError(d.message.transactionId)])
  }

  /** The callback applied to each delivered message in turn: the log gains
      one entry per message. */
  function Deliver(s: WorkerState, ds: seq<Delivery>): (r: WorkerState)
    ensures |r.log| == |s.log| + |ds|
    decreases |ds|
  {
    if ds == [] then s else Deliver(Callback(s, ds[0]), ds[1..])
  }

  predicate ConsumerObtained(a: Acquisition) {
    a == HandlerFails || a == Acquired
  }

  /** The `finally` block: the consumer is closed when it was obtained (a
      throwing close is logged as a warning), and the scope is disposed when
      it was created. */
  function Cleanup(c: Cycle): (r: seq<WorkerEvent>)
    ensures CloseCalled in r <==> ConsumerObtained(c.acquire)
    ensures CloseWarning in r <==> ConsumerObtained(c.acquire) && c.closeFails
    ensures ScopeDisposed in r <==> c.acquire != ScopeFails
    ensures forall e :: e in r ==> e.CloseCalled? || e.CloseWarning? || e.ScopeDisposed?
    ensures ConsumerObtained(c.acquire) ==> r[0] == CloseCalled
    ensures c.acquire != ScopeFails ==> r[|r| - 1] == ScopeDisposed
    ensures |r| == (if ConsumerObtained(c.acquire) then (if c.closeFails then 2 else 1) else 0) + (if c.acquire != ScopeFails then 1 else 0)
  {
    (if ConsumerObtained(c.acquire) then [CloseCalled] + (if c.closeFails then [CloseWarning] else []) else [])
    + (if c.acquire != ScopeFails then [ScopeDisposed] else [])
  }

  predicate CycleFails(c: Cycle) {
    c.acquire != Acquired || c.end == Failed
  }

  /** One turn of the loop, and whether it leaves the loop: it leaves
      exactly when consuming is cancelled by the token or the backoff wait is
      cancelled, and then the delay is not doubled. */
  function CycleStep(s: WorkerState, c: Cycle): (r: CycleResult)
    ensures r.stop <==> (c.acquire == Acquired && c.end == CancelledByToken) || (CycleFails(c) && c.waitCancelled)
    ensures r.stop ==> r.state.delay == (if c.acquire == Acquired then Deliver(s, c.deliveries).delay else s.delay)
  {
    var s1 := if c.acquire == Acquired then Deliver(s, c.deliveries) else s;
    if CycleFails(c) then
      var log := s1.log + [CycleFailed(s1.delay), BackoffWait(s1.delay)];
      if c.waitCancelled then CycleResult(WorkerState(s1.delay, s1.rows, log + Cleanup(c)), true)
      else CycleResult(WorkerState(NextDelay(s1.delay), s1.rows, log + Cleanup(c)), false)
    else if c.end == CancelledByToken then
      CycleResult(WorkerState(s1.delay, s1.rows, s1.log + [CancellationLogged] + Cleanup(c)), true)
    else
      CycleResult(WorkerState(s1.delay, s1.rows, s1.log + Cleanup(c)), false)
  }

  /** The loop over the script, up to the first turn that leaves it; the
      delay stays within [5000, 300000] over any run. */
  function Execute(s: WorkerState, cycles: seq<Cycle>): (r: WorkerState)
    ensures BaseDelayMs <= s.delay <= MaxDelayMs ==> BaseDelayMs <= r.delay <= MaxDelayMs
    decreases |cycles|
  {
    if cycles == [] then s
    else
      var step := CycleStep(s, cycles[0]);
      CycleKeepsDelayBounds(s, cycles[0]);
      if step.stop then step.state else Execute(step.state, cycles[1..])
  }

  class TransactionStatusWorker {
    /** The store the update handler of every scope writes to. */
    const store: TransactionRepository
    /** Everything the worker logged, in order. */
    var log: seq<WorkerEvent>

    constructor (store: TransactionRepository)
      ensures this.store == store && log == []
    {
      this.store := store;
      log := [];
    }

    /** `ExecuteAsync`: logs the start, runs the loop from a delay of 5000 ms,
        and logs the stop. */
    method ExecuteAsync(cycles: seq<Cycle>)
      requires store.Valid()
      modifies this, store
      ensures store.Valid()
      ensures
        var s := Execute(WorkerState(BaseDelayMs, old(store.rows), old(log) + [WorkerStarted]), cycles);
        store.rows == s.rows && log == s.log + [WorkerStopped]
    {
      log := log + [WorkerStarted];
      ghost var start := WorkerState(BaseDelayMs, store.rows, log);
      var currentDelay := BaseDelayMs;
      var i := 0;
      while i < |cycles|
        invariant 0 <= i <= |cycles|
        invariant store.Valid()
        invariant BaseDelayMs <= currentDelay <= MaxDelayMs
        invariant Execute(start, cycles) == Execute(WorkerState(currentDelay, store.rows, log), cycles[i..])
        decreases |cycles| - i
      {
        assert cycles[i..][0] == cycles[i] && cycles[i..][1..] == cycles[i + 1..];
        CycleKeepsDelayBounds(WorkerState(currentDelay, store.rows, log), cycles[i]);
        var stop;
        currentDelay, stop := RunCycle(cycles[i], currentDelay);
        if stop {
          break;
        }
        i := i + 1;
      }
      if i == |cycles| {
        assert cycles[i..] == [];
      }
      log := log + [WorkerStopped];
    }

    /** One turn of the loop: acquire, consume, back off on failure, and
        clean up in the `finally` block. */
    method RunCycle(c: Cycle, currentDelay: nat) returns (delay: nat, stop: bool)
      requires store.Valid()
      modifies this, store
      ensures store.Valid()
      ensures
        var r := CycleStep(WorkerState(currentDelay, old(store.rows), old(log)), c);
        WorkerState(delay, store.rows, log) == r.state && stop == r.stop
    {
      delay, stop := currentDelay, false;
      var scopeCreated, consumerObtained, failed := false, false, false;
      if c.acquire == ScopeFails {
        failed := true;
      } else {
        scopeCreated := true;
        if c.acquire == ConsumerFails {
          failed := true;
        } else {
          consumerObtained := true;
          if c.acquire == HandlerFails {
            failed := true;
          } else {
            delay := DeliverAll(c.deliveries, delay);
            match c.end {
              case Returned =>
              case CancelledByToken =>
                log := log + [CancellationLogged];
                stop := true;
              case Failed =>
                failed := true;
            }
          }
        }
      }
      if failed {
        log := log + [CycleFailed(delay), BackoffWait(delay)];
        if c.waitCancelled {
          stop := true;
        } else {
          delay := NextDelay(delay);
        }
      }
      Release(c, consumerObtained, scopeCreated);
    }

    /** The `finally` block of one turn. */
    method Release(c: Cycle, consumerObtained: bool, scopeCreated: bool)
      requires consumerObtained == ConsumerObtained(c.acquire) && scopeCreated == (c.acquire != ScopeFails)
      modifies this
      ensures log == old(log) + Cleanup(c)
    {
      if consumerObtained {
        log := log + [CloseCalled];
        if c.closeFails {
          log := log + [CloseWarning];
        }
      }
      if scopeCreated {
        log := log + [ScopeDisposed];
      }
    }

    /** `ConsumeAsync` handing each delivered message to the callback. */
    method DeliverAll(ds: seq<Delivery>, currentDelay: nat) returns (delay: nat)
      requires store.Valid()
      modifies this, store
      ensures store.Valid()
      ensures WorkerState(delay, store.rows, log) == Deliver(WorkerState(currentDelay, old(store.rows), old(log)), ds)
    {
      delay := currentDelay;
      var k := 0;
      while k < |ds|
        invariant 0 <= k <= |ds|
        invariant store.Valid()
        invariant Deliver(WorkerState(currentDelay, old(store.rows), old(log)), ds)
               == Deliver(WorkerState(delay, store.rows, log), ds[k..])
        decreases |ds| - k
      {
        assert ds[k..][0] == ds[k] && ds[k..][1..] == ds[k + 1..];
        delay := OnMessage(ds[k], delay);
        k := k + 1;
      }
      assert ds[k..] == [];
    }

    /** The callback handed to the consumer for one message. */
    method OnMessage(d: Delivery, currentDelay: nat) returns (delay: nat)
      requires store.Valid()
      modifies this, store
      ensures store.Valid()
      ensures WorkerState(delay, store.rows, log) == Callback(WorkerState(currentDelay, old(store.rows), old(log)), d)
    {
      var command := ToCommand(d.message);
      var r := UpdateTransaction.Handle(store, command, d.now);
      if r.Ok? {
        log := log + [HandledOk(d.message.transactionId)];
        delay := BaseDelayMs;
      } else {
        log := log + [HandlerError(d.message.transactionId)];
        delay := currentDelay;
      }
    }
  }

  // Properties of the loop.

  /** The entry the callback logs for the message with id `id`. */
  predicate HandlerEntry(e: WorkerEvent, id: Guid) {
    e == HandledOk(id) || e == HandlerError(id)
  }

  /** Some message among `entries` was handled successfully. */
  predicate AnyHandled(entries: seq<WorkerEvent>) {
    exists e :: e in entries && e.HandledOk?
  }

  /** One callback appends the entry for its message; the delay is reset
      exactly when that entry is a success. */
  lemma CallbackEntry(s: WorkerState, d: Delivery)
    ensures |Callback(s, d).log| == |s.log| + 1 && Callback(s, d).log[..|s.log|] == s.log
    ensures HandlerEntry(Callback(s, d).log[|s.log|], d.message.transactionId)
    ensures Callback(s, d).delay == if Callback(s, d).log[|s.log|].HandledOk? then BaseDelayMs else s.delay
  {
  }

  /** The callbacks add one entry per message, in order, each naming the
      message's transaction. */
  lemma {:induction false} DeliverLog(s: WorkerState, ds: seq<Delivery>)
    ensures Deliver(s, ds).log[..|s.log|] == s.log
    ensures forall k :: 0 <= k < |ds| ==> HandlerEntry(Deliver(s, ds).log[|s.log| + k], ds[k].message.transactionId)
    decreases |ds|
  {
    if ds != [] {
      var s1 := Callback(s, ds[0]);
      var r := Deliver(s1, ds[1..]);
      CallbackEntry(s, ds[0]);
      DeliverLog(s1, ds[1..]);
      assert Deliver(s, ds) == r;
      assert r.log[..|s.log|] == s.log by {
        assert r.log[..|s.log|] == r.log[..|s1.log|][..|s.log|];
      }
      forall k | 0 <= k < |ds|
        ensures HandlerEntry(r.log[|s.log| + k], ds[k].message.transactionId)
      {
        if k == 0 {
          assert r.log[|s.log|] == r.log[..|s1.log|][|s.log|] == s1.log[|s.log|];
        } else {
          assert ds[1..][k - 1] == ds[k];
          assert |s1.log| + (k - 1) == |s.log| + k;
        }
      }
    }
  }

  /** After the callbacks the delay is 5000 if any message was handled
      successfully and is unchanged otherwise. */
  lemma {:induction false} DeliverReset(s: WorkerState, ds: seq<Delivery>)
    ensures Deliver(s, ds).delay == if AnyHandled(Deliver(s, ds).log[|s.log|..]) then BaseDelayMs else s.delay
    decreases |ds|
  {
    if ds != [] {
      var s1 := Callback(s, ds[0]);
      var r := Deliver(s1, ds[1..]);
      CallbackEntry(s, ds[0]);
      DeliverLog(s1, ds[1..]);
      DeliverReset(s1, ds[1..]);
      assert Deliver(s, ds) == r;
      SplitAfter(r.log, s1.log, |s.log|);
      AnyHandledCons(s1.log[|s.log|], r.log[|s1.log|..]);
    }
  }

  /** A log that starts with `prefix`, read from the last position of
      `prefix`, is that entry followed by what comes after `prefix`. */
  lemma SplitAfter<T>(log: seq<T>, prefix: seq<T>, i: nat)
    requires i + 1 == |prefix| <= |log| && log[..|prefix|] == prefix
    ensures log[i..] == [prefix[i]] + log[|prefix|..]
  {
    assert log[i] == log[..|prefix|][i];
  }

  lemma AnyHandledCons(first: WorkerEvent, rest: seq<WorkerEvent>)
    ensures AnyHandled([first] + rest) <==> first.HandledOk? || AnyHandled(rest)
  {
    var added := [first] + rest;
    if AnyHandled(added) {
      var e :| e in added && e.HandledOk?;
      if e != first {
        assert e in rest;
      }
    }
    if AnyHandled(rest) {
      var e :| e in rest && e.HandledOk?;
      assert e in added;
    }
  }

  /** Every turn keeps the delay within [5000, 300000]. */
  lemma CycleKeepsDelayBounds(s: WorkerState, c: Cycle)
    ensures BaseDelayMs <= s.delay <= MaxDelayMs ==> BaseDelayMs <= CycleStep(s, c).state.delay <= MaxDelayMs
  {
    if c.acquire == Acquired {
      DeliverReset(s, c.deliveries);
    }
  }

  /** The schedule in closed form: `min(5000 * 2^n, 300000)`. */
  lemma {:induction false} BackoffClosedForm(n: nat)
    ensures Backoff(n) == if BaseDelayMs * Pow2(n) < MaxDelayMs then BaseDelayMs * Pow2(n) else MaxDelayMs
  {
    if n > 0 {
      BackoffClosedForm(n - 1);
      assert BaseDelayMs * Pow2(n) == 2 * (BaseDelayMs * Pow2(n - 1));
    }
  }

  /** The schedule is 5, 10, 20, 40, 80 and 160 seconds, then the five-minute
      ceiling from the seventh wait on. */
  lemma {:induction false} BackoffValues(n: nat)
    ensures Backoff(0) == 5000 && Backoff(1) == 10000 && Backoff(2) == 20000
    ensures Backoff(3) == 40000 && Backoff(4) == 80000 && Backoff(5) == 160000
    ensures n >= 6 ==> Backoff(n) == MaxDelayMs
  {
    assert Backoff(5) == 160000 by {
      assert Backoff(1) == 10000 && Backoff(2) == 20000 && Backoff(3) == 40000 && Backoff(4) == 80000;
    }
    if n >= 6 {
      if n > 6 {
        BackoffValues(n - 1);
      }
    }
  }

  /** `n` consecutive terms of the closed form, from the `j`-th. */
  function Schedule(j: nat, n: nat): (r: seq<nat>)
    ensures |r| == n && forall k :: 0 <= k < n ==> r[k] == Backoff(j + k)
    decreases n
  {
    if n == 0 then [] else [Backoff(j)] + Schedule(j + 1, n - 1)
  }

  function WaitOf(e: WorkerEvent): Option<nat> {
    if e.BackoffWait? then Some(e.ms) else None
  }

  lemma {:induction false} NoWaits(x: seq<WorkerEvent>)
    requires forall e :: e in x ==> !e.BackoffWait?
    ensures Select(x, WaitOf) == []
  {
    if x != [] {
      assert x[0] in x;
      assert forall e :: e in x[1..] ==> e in x;
      NoWaits(x[1..]);
    }
  }

  /** The handler fails on the message of `d` against a store holding `rows`. */
  predicate Unhandled(rows: seq<Transaction>, d: Delivery) {
    Evaluate(rows, ToCommand(d.message), d.now).response.Err?
  }

  /** A turn that fails, handles no message successfully (it delivers none,
      or the handler fails on each one) and whose wait is not cancelled. */
  predicate FailsWithoutProgress(c: Cycle, rows: seq<Transaction>) {
    && !c.waitCancelled
    && CycleFails(c)
    && (c.acquire == Acquired ==> forall k :: 0 <= k < |c.deliveries| ==> Unhandled(rows, c.deliveries[k]))
  }

  /** The error entries of messages the handler fails on. */
  function HandlerErrors(ds: seq<Delivery>): (r: seq<WorkerEvent>)
    ensures forall e :: e in r ==> e.HandlerError?
    decreases |ds|
  {
    if ds == [] then [] else [HandlerError(ds[0].message.transactionId)] + HandlerErrors(ds[1..])
  }

  /** Messages the handler fails on each add an error entry and change
      neither the delay nor the store. */
  lemma {:induction false} DeliverUnhandled(s: WorkerState, ds: seq<Delivery>)
    requires forall k :: 0 <= k < |ds| ==> Unhandled(s.rows, ds[k])
    ensures Deliver(s, ds) == WorkerState(s.delay, s.rows, s.log + HandlerErrors(ds))
    decreases |ds|
  {
    if ds != [] {
      var s1 := CallbackUnhandled(s, ds[0]);
      assert forall k :: 0 <= k < |ds[1..]| ==> Unhandled(s1.rows, ds[1..][k]) by {
        forall k | 0 <= k < |ds[1..]| ensures Unhandled(s1.rows, ds[1..][k]) {
          assert ds[1..][k] == ds[k + 1];
        }
      }
      DeliverUnhandled(s1, ds[1..]);
      assert HandlerErrors(ds) == [HandlerError(ds[0].message.transactionId)] + HandlerErrors(ds[1..]);
      assert s1.log + HandlerErrors(ds[1..]) == s.log + HandlerErrors(ds);
    }
  }

  /** A message the handler handles: its decision is written to the store,
      the delay goes back to 5000 and the success is logged. */
  lemma CallbackHandled(s: WorkerState, d: Delivery)
    requires Evaluate(s.rows, ToCommand(d.message), d.now).response.Ok?
    ensures Callback(s, d) == WorkerState(BaseDelayMs, Evaluate(s.rows, ToCommand(d.message), d.now).rows,
                                          s.log + [HandledOk(d.message.transactionId)])
  {
  }

  /** A message the handler fails on adds its error entry and nothing else. */
  lemma CallbackUnhandled(s: WorkerState, d: Delivery) returns (s1: WorkerState)
    requires Unhandled(s.rows, d)
    ensures s1 == Callback(s, d)
    ensures s1 == WorkerState(s.delay, s.rows, s.log + [HandlerError(d.message.transactionId)])
  {
    s1 := Callback(s, d);
  }

  /** The error entries of such a turn's messages. */
  function TurnErrors(c: Cycle): seq<WorkerEvent> {
    if c.acquire == Acquired then HandlerErrors(c.deliveries) else []
  }

  /** What a failing turn logs after its messages when it starts from the
      delay `d`: the failure, the wait and the cleanup. */
  function FailureEntries(c: Cycle, d: nat): seq<WorkerEvent> {
    [CycleFailed(d), BackoffWait(d)] + Cleanup(c)
  }

  /** What one such turn logs when it starts from the delay `d`. */
  function FailedTurnEntries(c: Cycle, d: nat): seq<WorkerEvent> {
    TurnErrors(c) + FailureEntries(c, d)
  }

  /** What a run of such turns logs, when the first of them starts from the
      `j`-th term of the schedule. */
  function FailureTrace(cycles: seq<Cycle>, j: nat): seq<WorkerEvent>
    decreases |cycles|
  {
    if cycles == [] then []
    else FailedTurnEntries(cycles[0], Backoff(j)) + FailureTrace(cycles[1..], j + 1)
  }

  /** One failing turn's entries hold exactly one wait, of the delay it logged. */
  lemma FailureEntriesWait(d: nat, c: Cycle)
    ensures Select(FailedTurnEntries(c, d), WaitOf) == [d]
  {
    var errors, tail := TurnErrors(c), FailureEntries(c, d);
    SelectAppend(errors, tail, WaitOf);
    NoWaits(errors);
    FailureEntriesOneWait(d, c);
  }

  /** The failure, the wait and the cleanup hold one wait, of `d`. */
  lemma FailureEntriesOneWait(d: nat, c: Cycle)
    ensures Select(FailureEntries(c, d), WaitOf) == [d]
  {
    OneWaitThen(d, Cleanup(c));
  }

  /** The failure and the wait of `d`, followed by entries that are not
      waits, hold one wait, of `d`. */
  lemma OneWaitThen(d: nat, tail: seq<WorkerEvent>)
    requires forall e :: e in tail ==> !e.BackoffWait?
    ensures Select([CycleFailed(d), BackoffWait(d)] + tail, WaitOf) == [d]
  {
    var failed, rest := [CycleFailed(d)], [BackoffWait(d)] + tail;
    assert [CycleFailed(d), BackoffWait(d)] + tail == failed + rest;
    SelectAppend(failed, rest, WaitOf);
    NoWaits(failed);
    SelectAppend([BackoffWait(d)], tail, WaitOf);
    NoWaits(tail);
    assert [BackoffWait(d)][1..] == [];
  }


  /** The waits such a run logs are the next terms of the schedule. */
  lemma {:induction false} FailureTraceWaits(cycles: seq<Cycle>, j: nat)
    ensures Select(FailureTrace(cycles, j), WaitOf) == Schedule(j, |cycles|)
    decreases |cycles|
  {
    if cycles != [] {
      var head := FailedTurnEntries(cycles[0], Backoff(j));
      var tail := FailureTrace(cycles[1..], j + 1);
      assert FailureTrace(cycles, j) == head + tail;
      SelectAppend(head, tail, WaitOf);
      FailureEntriesWait(Backoff(j), cycles[0]);
      FailureTraceWaits(cycles[1..], j + 1);
      assert Schedule(j, |cycles|) == [Backoff(j)] + Schedule(j + 1, |cycles| - 1);
    }
  }

  /** A failing turn that handles no message successfully and whose wait is
      not cancelled logs its entries, doubles the delay and leaves the store
      alone. */
  lemma FailedTurn(s: WorkerState, cycles: seq<Cycle>) returns (s1: WorkerState)
    requires cycles != [] && FailsWithoutProgress(cycles[0], s.rows)
    ensures Execute(s, cycles) == Execute(s1, cycles[1..])
    ensures s1 == WorkerState(NextDelay(s.delay), s.rows, s.log + FailedTurnEntries(cycles[0], s.delay))
  {
    var c := cycles[0];
    if c.acquire == Acquired {
      DeliverUnhandled(s, c.deliveries);
    }
    FailingStep(s, c);
    s1 := CycleStep(s, c).state;
    var errors, mid, cleanup := TurnErrors(c), [CycleFailed(s.delay), BackoffWait(s.delay)], Cleanup(c);
    assert s1.log == s.log + errors + mid + cleanup;
    assert FailedTurnEntries(c, s.delay) == errors + (mid + cleanup);
    ConcatAssoc(s.log, errors, mid, cleanup);
  }

  lemma ConcatAssoc<T>(a: seq<T>, b: seq<T>, c: seq<T>, d: seq<T>)
    ensures a + b + c + d == a + (b + (c + d))
  {
  }

  /** One failing turn: after the callbacks, the failure and the wait are
      logged, the delay doubles unless the wait is cancelled, and the
      cleanup follows. */
  lemma FailingStep(s: WorkerState, c: Cycle)
    requires CycleFails(c)
    ensures
      var s0 := if c.acquire == Acquired then Deliver(s, c.deliveries) else s;
      CycleStep(s, c) == CycleResult(WorkerState(if c.waitCancelled then s0.delay else NextDelay(s0.delay), s0.rows,
                                                 s0.log + [CycleFailed(s0.delay), BackoffWait(s0.delay)] + Cleanup(c)), c.waitCancelled)
  {
  }

  lemma TraceStep(log: seq<WorkerEvent>, cycles: seq<Cycle>, j: nat)
    requires cycles != []
    ensures (log + FailedTurnEntries(cycles[0], Backoff(j))) + FailureTrace(cycles[1..], j + 1)
         == log + FailureTrace(cycles, j)
  {
    var head, tail := FailedTurnEntries(cycles[0], Backoff(j)), FailureTrace(cycles[1..], j + 1);
    assert FailureTrace(cycles, j) == head + tail;
    AppendAssoc(log, head, tail);
  }

  lemma AppendAssoc<T>(a: seq<T>, b: seq<T>, c: seq<T>)
    ensures (a + b) + c == a + (b + c)
  {
  }

  /** After consecutive failing turns that handle no message successfully,
      starting from the `j`-th term of the schedule, the log grows by the
      failure trace, the delay is the term after the last wait, and the
      store is untouched. */
  lemma {:induction false} BackoffSchedule(s: WorkerState, cycles: seq<Cycle>, j: nat)
    requires forall k :: 0 <= k < |cycles| ==> FailsWithoutProgress(cycles[k], s.rows)
    requires s.delay == Backoff(j)
    ensures Execute(s, cycles) == WorkerState(Backoff(j + |cycles|), s.rows, s.log + FailureTrace(cycles, j))
    decreases |cycles|
  {
    if cycles == [] {
      assert s.log + FailureTrace(cycles, j) == s.log;
    } else {
      var rest := cycles[1..];
      var s1 := FailedTurn(s, cycles);
      RestFails(cycles, s.rows);
      BackoffSchedule(s1, rest, j + 1);
      ScheduleStep(s, s1, cycles, j, Execute(s1, rest));
    }
  }

  /** One failing turn followed by the schedule of the rest is the schedule
      of the whole script. */
  lemma ScheduleStep(s: WorkerState, s1: WorkerState, cycles: seq<Cycle>, j: nat, e: WorkerState)
    requires cycles != []
    requires s1 == WorkerState(Backoff(j + 1), s.rows, s.log + FailedTurnEntries(cycles[0], Backoff(j)))
    requires e == WorkerState(Backoff(j + 1 + |cycles[1..]|), s1.rows, s1.log + FailureTrace(cycles[1..], j + 1))
    ensures e == WorkerState(Backoff(j + |cycles|), s.rows, s.log + FailureTrace(cycles, j))
  {
    TraceStep(s.log, cycles, j);
  }

  /** The turns after the first of a failing script fail as well. */
  lemma RestFails(cycles: seq<Cycle>, rows: seq<Transaction>)
    requires cycles != []
    requires forall k :: 0 <= k < |cycles| ==> FailsWithoutProgress(cycles[k], rows)
    ensures forall k :: 0 <= k < |cycles| - 1 ==> FailsWithoutProgress(cycles[1..][k], rows)
  {
    forall k | 0 <= k < |cycles| - 1 ensures FailsWithoutProgress(cycles[1..][k], rows) {
      assert cycles[1..][k] == cycles[k + 1];
    }
  }

  /** From the start of the worker: after `n` failing turns that handle no
      message successfully, the `k`-th wait (counting from 0) is
      `min(5000 * 2^k, 300000)`. */
  lemma BackoffFromStart(rows: seq<Transaction>, log: seq<WorkerEvent>, cycles: seq<Cycle>)
    requires forall k :: 0 <= k < |cycles| ==> FailsWithoutProgress(cycles[k], rows)
    requires forall e :: e in log ==> !e.BackoffWait?
    ensures
      var waits := Select(Execute(WorkerState(BaseDelayMs, rows, log), cycles).log, WaitOf);
      && |waits| == |cycles|
      && forall k :: 0 <= k < |cycles| ==> waits[k] == Backoff(k)
  {
    var start := WorkerState(BaseDelayMs, rows, log);
    var trace := FailureTrace(cycles, 0);
    assert Backoff(0) == BaseDelayMs;
    BackoffSchedule(start, cycles, 0);
    assert Execute(start, cycles).log == log + trace;
    NoWaits(log);
    SelectAppend(log, trace, WaitOf);
    FailureTraceWaits(cycles, 0);
    assert Select(log + trace, WaitOf) == Schedule(0, |cycles|);
  }

  /** A cancelled backoff wait ends the loop without the cancellation entry
      that a cancelled consume logs. */
  lemma InterruptedWaitUnlogged(s: WorkerState, c: Cycle)
    requires CycleFails(c) && c.waitCancelled
    ensures |CycleStep(s, c).state.log| >= |s.log|
    ensures forall k :: |s.log| <= k < |CycleStep(s, c).state.log| ==> CycleStep(s, c).state.log[k] != CancellationLogged
  {
    var s1 := if c.acquire == Acquired then Deliver(s, c.deliveries) else s;
    if c.acquire == Acquired {
      DeliverUncancelled(s, c.deliveries);
    }
    FailingStep(s, c);
    AppendedFree(s1.log, [CycleFailed(s1.delay), BackoffWait(s1.delay)] + Cleanup(c), |s.log|);
    assert CycleStep(s, c).state.log == s1.log + ([CycleFailed(s1.delay), BackoffWait(s1.delay)] + Cleanup(c));
  }

  /** Delivering messages logs no cancellation entry. */
  lemma DeliverUncancelled(s: WorkerState, ds: seq<Delivery>)
    ensures |s.log| <= |Deliver(s, ds).log|
    ensures forall k :: |s.log| <= k < |Deliver(s, ds).log| ==> Deliver(s, ds).log[k] != CancellationLogged
  {
    var log := Deliver(s, ds).log;
    DeliverLog(s, ds);
    forall k | |s.log| <= k < |log| ensures log[k] != CancellationLogged {
      var j := k - |s.log|;
      assert HandlerEntry(log[|s.log| + j], ds[j].message.transactionId);
    }
  }

  /** Appending entries that are not the cancellation entry to a log that
      has none after `from` leaves none after `from`. */
  lemma AppendedFree(log: seq<WorkerEvent>, more: seq<WorkerEvent>, from: nat)
    requires from <= |log|
    requires forall k :: from <= k < |log| ==> log[k] != CancellationLogged
    requires CancellationLogged !in more
    ensures forall k :: from <= k < |log + more| ==> (log + more)[k] != CancellationLogged
  {
    forall k | from <= k < |log + more| ensures (log + more)[k] != CancellationLogged {
      if k >= |log| {
        assert (log + more)[k] == more[k - |log|];
      }
    }
  }

  /** Every turn keeps what was logged before it and ends with its cleanup. */
  lemma CycleCleanup(s: WorkerState, c: Cycle)
    ensures
      var log := CycleStep(s, c).state.log;
      && |log| >= |s.log| + |Cleanup(c)|
      && log[..|s.log|] == s.log
      && log[|log| - |Cleanup(c)|..] == Cleanup(c)
  {
    var s1 := if c.acquire == Acquired then Deliver(s, c.deliveries) else s;
    if c.acquire == Acquired {
      DeliverLog(s, c.deliveries);
    }
    if CycleFails(c) {
      FailingStep(s, c);
      KeepsAndEnds(s.log, s1.log, [CycleFailed(s1.delay), BackoffWait(s1.delay)], Cleanup(c));
    } else if c.end == CancelledByToken {
      KeepsAndEnds(s.log, s1.log, [CancellationLogged], Cleanup(c));
    } else {
      KeepsAndEnds(s.log, s1.log, [], Cleanup(c));
    }
  }

  /** A log that starts with `before`, extended by `mid` and then `tail`,
      still starts with `before` and ends with `tail`. */
  lemma KeepsAndEnds<T>(before: seq<T>, log: seq<T>, mid: seq<T>, tail: seq<T>)
    requires |before| <= |log| && log[..|before|] == before
    ensures
      var r := log + mid + tail;
      && |r| >= |before| + |tail|
      && r[..|before|] == before
      && r[|r| - |tail|..] == tail
  {
    var r := log + mid + tail;
    assert r[..|before|] == log[..|before|];
  }

  /** The whole evaluation path for a freshly created record: once the
      create path has stored it (as Pending, with an id not yet in use) the
      message it publishes, turned into a command by the callback and
      evaluated, rewrites exactly that record to the decision for its own
      value on its account's total before it, and succeeds. */
  lemma CreateThenEvaluate(rows: seq<Transaction>, request: CreateTransaction.CreateTransactionCommand,
                           id: Guid, externalId: Guid, created: DateTime, now: DateTime)
    requires UniqueIds(rows)
    requires IndexOf(rows, id).None?
    ensures
      var t := CreateTransaction.NewTransaction(request, id, externalId, created);
      var e := Evaluate(rows + [t], ToCommand(CreateTransaction.ToMessage(t)), now);
      && e.rows == rows + [t.(status := Decide(t.value, DailyTotal(rows, t.sourceAccountId, now)))]
      && e.response.Ok?
  {
    var t := CreateTransaction.NewTransaction(request, id, externalId, created);
    var rows' := rows + [t];
    assert UniqueIds(rows') by {
      forall i, j | 0 <= i < j < |rows'| ensures rows'[i].id != rows'[j].id {
        if j == |rows| {
          assert rows[i].id != id;
        }
      }
    }
    IndexOfUnique(rows', id, |rows|);
    CreateTransaction.CreationKeepsDailyTotals(rows, request, id, externalId, created, t.sourceAccountId, now);
    assert rows'[|rows| := rows'[|rows|].(status := Decide(t.value, DailyTotal(rows, t.sourceAccountId, now)))]
        == rows + [t.(status := Decide(t.value, DailyTotal(rows, t.sourceAccountId, now)))];
  }
}
