/** The stream consumer: polls the topic, decodes each payload, hands decoded
    messages to the handler and commits offsets under a fixed discipline.
    The broker is replaced by the script of poll outcomes the loop observes,
    the JSON decoder by a function from payload text to a decoding outcome,
    and the consumer's effects by one ordered log of events. */
module Consumer {
  import opened Domain

  /** Timeout of one poll of the broker; it bounds how long a poll blocks. */
  const PollTimeoutMs: nat := 1000
  /** Pause after a poll that returned nothing. */
  const EmptyPollDelayMs: nat := 100
  /** Pause after a consume-level broker error. */
  const ConsumeErrorDelayMs: nat := 1000
  /** Pause after any other failure inside the loop. */
  const UnexpectedErrorDelayMs: nat := 5000

  /** What deserializing a payload gives: a message, the JSON literal `null`,
      or a `JsonException`. */
  datatype Decoded = Decoded(message: MessageDto) | JsonNull | Malformed

  /** What one turn of the loop observes.
      - `NoResult`: the poll timed out and returned null;
      - `Delivered`: a consume result at `offset`; `value` is its payload
        (None when the result has no message or a null value) and
        `handler` what the handler does with this message;
      - `ConsumeFailure`: the poll raised a `ConsumeException`;
      - `UnexpectedFailure`: the poll raised another exception (including a
        cancellation while the token is not cancelled);
      - `Cancelled`: an `OperationCanceledException` is thrown while the
        token is cancelled, at the point `at` of the turn;
      - `Fatal`: an exception escapes the per-turn handlers and reaches the
        outer one. */
  datatype Poll =
    | NoResult
    | Delivered(offset: nat, value: Option<string>, handler: HandlerOutcome)
    | ConsumeFailure
    | UnexpectedFailure
    | Cancelled(at: CancelPoint)
    | Fatal

  /** Where a turn is cut short by the token:
      - `InTurn`: the poll or the pause after an empty poll throws, and the
        turn's own cancellation handler logs it and leaves the loop;
      - `InConsumeErrorPause`: a consume error is logged and the pause
        after it is cancelled; the exception leaves the loop and the outer
        cancellation handler logs it;
      - `InUnexpectedErrorPause`: the same for the pause after any other
        error.
      The token being found cancelled at the loop test is the end of the
      script: the loop exits without logging. */
  datatype CancelPoint = InTurn | InConsumeErrorPause | InUnexpectedErrorPause

  /** How the message handler ends on a message: it completes, it throws a
      `JsonException` (caught by the same clause as a payload that does not
      decode), or it throws any other exception. */
  datatype HandlerOutcome = Completes | ThrowsJson | ThrowsOther

  datatype ErrorLog =
    | DeserializationError(offset: nat)
    | ProcessingError(offset: nat)
    | ConsumeError
    | UnexpectedError
    | FatalError
    | CloseError

  /** The two information-level logs, both about cancellation: the one
      inside the loop and the one outside it. */
  datatype InfoLog = OperationCancelled | StoppedOnCancellation

  /** The consumer's observable effects, in the order they happen. */
  datatype Event =
    | HandlerCalled(message: MessageDto)
    | Committed(offset: nat)
    | Delayed(ms: nat)
    | LoggedError(error: ErrorLog)
    | LoggedInfo(info: InfoLog)

  /** How `ConsumeAsync` ends: it returns, or it rethrows. */
  datatype Termination = Stopped | Rethrown

  datatype RunResult = RunResult(events: seq<Event>, termination: Termination)

  predicate Stops(p: Poll) {
    p.Cancelled? || p.Fatal?
  }

  /** The events one non-stopping turn produces. A commit or a pause is
      always the last thing a turn does. */
  function Reaction(p: Poll, deserialize: string -> Decoded): (r: seq<Event>)
    requires !Stops(p)
    ensures forall k :: 0 <= k < |r| - 1 ==> !r[k].Committed? && !r[k].Delayed?
  {
    match p
    case NoResult => [Delayed(EmptyPollDelayMs)]
    case Delivered(offset, value, handler) =>
      if value.None? || value.value == "" then []
      else (match deserialize(value.value)
        case Decoded(m) => [HandlerCalled(m)] + HandlerFailureLog(handler, offset) + [Committed(offset)]
        case JsonNull => []
        case Malformed => [LoggedError(DeserializationError(offset)), Committed(offset)])
    case ConsumeFailure => [LoggedError(ConsumeError), Delayed(ConsumeErrorDelayMs)]
    case UnexpectedFailure => [LoggedError(UnexpectedError), Delayed(UnexpectedErrorDelayMs)]
  }

  /** What a catch clause logs when the handler throws: a `JsonException`
      lands in the clause for payloads that do not decode, any other
      exception in the clause for processing errors. */
  function HandlerFailureLog(handler: HandlerOutcome, offset: nat): seq<Event> {
    match handler
    case Completes => []
    case ThrowsJson => [LoggedError(DeserializationError(offset))]
    case ThrowsOther => [LoggedError(ProcessingError(offset))]
  }

  /** What a turn cut short by the token logs: the error it was pausing
      after, if any, then the cancellation, by whichever handler catches it.
      The cancelled pause itself does not happen. */
  function CancelLog(at: CancelPoint): seq<Event> {
    match at
    case InTurn => [LoggedInfo(OperationCancelled)]
    case InConsumeErrorPause => [LoggedError(ConsumeError), LoggedInfo(StoppedOnCancellation)]
    case InUnexpectedErrorPause => [LoggedError(UnexpectedError), LoggedInfo(StoppedOnCancellation)]
  }

  /** The whole loop over a script of polls. The script ending means the
      token was found cancelled at the loop test. When the loop rethrows,
      the fatal error is the last thing it logged. */
  function Run(polls: seq<Poll>, deserialize: string -> Decoded): (r: RunResult)
    ensures r.termination == Rethrown ==> |r.events| > 0 && r.events[|r.events| - 1] == LoggedError(FatalError)
    decreases |polls|
  {
    if polls == [] then RunResult([], Stopped)
    else match polls[0]
      case Cancelled(at) => RunResult(CancelLog(at), Stopped)
      case Fatal => RunResult([LoggedError(FatalError)], Rethrown)
      case _ =>
        var rest := Run(polls[1..], deserialize);
        RunResult(Reaction(polls[0], deserialize) + rest.events, rest.termination)
  }

  // Reference definitions, stated over the polls instead of the loop.

  /** The polls the loop handles before it stops. */
  function Processed(polls: seq<Poll>): (r: seq<Poll>)
    ensures |r| <= |polls| && r == polls[..|r|]
    ensures forall i :: 0 <= i < |r| ==> !Stops(r[i])
    ensures |r| < |polls| ==> Stops(polls[|r|])
  {
    if polls == [] || Stops(polls[0]) then [] else [polls[0]] + Processed(polls[1..])
  }

  /** The offset a poll should commit: that of a delivery with a non-empty
      payload that is not the JSON literal `null`. */
  function CommitDue(p: Poll, deserialize: string -> Decoded): Option<nat> {
    if p.Delivered? && p.value.Some? && p.value.value != "" && !deserialize(p.value.value).JsonNull?
    then Some(p.offset) else None
  }

  /** The message a poll should hand to the handler: the decoded payload. */
  function MessageDue(p: Poll, deserialize: string -> Decoded): Option<MessageDto> {
    if p.Delivered? && p.value.Some? && p.value.value != "" && deserialize(p.value.value).Decoded?
    then Some(deserialize(p.value.value).message) else None
  }

  /** The pause a poll should cause. */
  function DelayDue(p: Poll): Option<nat> {
    match p
    case NoResult => Some(EmptyPollDelayMs)
    case ConsumeFailure => Some(ConsumeErrorDelayMs)
    case UnexpectedFailure => Some(UnexpectedErrorDelayMs)
    case _ => None
  }

  function CommitOf(e: Event): Option<nat> {
    if e.Committed? then Some(e.offset) else None
  }

  function CallOf(e: Event): Option<MessageDto> {
    if e.HandlerCalled? then Some(e.message) else None
  }

  function DelayOf(e: Event): Option<nat> {
    if e.Delayed? then Some(e.ms) else None
  }

  function InfoOf(e: Event): Option<InfoLog> {
    if e.LoggedInfo? then Some(e.info) else None
  }

  /** The cancellation a run should log: none when the token is found
      cancelled at the loop test or the loop rethrows; the inner handler's
      entry when a turn's poll or empty-poll pause is cancelled; the outer
      handler's entry when an error pause is cancelled. */
  function CancellationDue(polls: seq<Poll>): seq<InfoLog> {
    var n := |Processed(polls)|;
    if n < |polls| && polls[n].Cancelled? then
      [if polls[n].at == InTurn then OperationCancelled else StoppedOnCancellation]
    else []
  }

  lemma {:induction false} SelectNone<T>(r: seq<Event>, pick: Event -> Option<T>)
    requires forall k :: 0 <= k < |r| ==> pick(r[k]).None?
    ensures Select(r, pick) == []
  {
    if r != [] {
      assert forall k :: 0 <= k < |r[1..]| ==> r[1..][k] == r[k + 1];
      SelectNone(r[1..], pick);
    }
  }

  lemma SelectOne<T>(e: Event, pick: Event -> Option<T>)
    ensures Select([e], pick) == match pick(e) case Some(x) => [x] case None => []
  {
    assert [e][1..] == [];
  }

  lemma SelectPollOne<T>(p: Poll, pick: Poll -> Option<T>)
    ensures Select([p], pick) == match pick(p) case Some(x) => [x] case None => []
  {
    assert [p][1..] == [];
  }

  lemma SelectPair<T>(e: Event, e': Event, pick: Event -> Option<T>)
    ensures Select([e, e'], pick) == Select([e], pick) + Select([e'], pick)
  {
    assert [e, e'] == [e] + [e'];
    SelectAppend([e], [e'], pick);
  }

  /** What the handler-call, commit and pause logs see of a decoded delivery. */
  lemma DecodedSelects(m: MessageDto, offset: nat, handler: HandlerOutcome)
    ensures
      var r := [HandlerCalled(m)] + HandlerFailureLog(handler, offset) + [Committed(offset)];
      Select(r, CommitOf) == [offset] && Select(r, CallOf) == [m] && Select(r, DelayOf) == []
  {
    var head, mid, last := [HandlerCalled(m)], HandlerFailureLog(handler, offset), [Committed(offset)];
    SelectAppend(head + mid, last, CommitOf);
    SelectAppend(head + mid, last, CallOf);
    SelectAppend(head + mid, last, DelayOf);
    SelectAppend(head, mid, CommitOf);
    SelectAppend(head, mid, CallOf);
    SelectAppend(head, mid, DelayOf);
    SelectOne(HandlerCalled(m), CommitOf);
    SelectOne(HandlerCalled(m), CallOf);
    SelectOne(HandlerCalled(m), DelayOf);
    SelectOne(Committed(offset), CommitOf);
    SelectOne(Committed(offset), CallOf);
    SelectOne(Committed(offset), DelayOf);
    if mid != [] {
      SelectOne(mid[0], CommitOf);
      SelectOne(mid[0], CallOf);
      SelectOne(mid[0], DelayOf);
    }
  }

  /** One turn of the loop commits, calls the handler and pauses exactly as
      the reference definitions say. */
  lemma ReactionMatchesDue(p: Poll, deserialize: string -> Decoded)
    requires !Stops(p)
    ensures Select(Reaction(p, deserialize), CommitOf) == Select([p], q => CommitDue(q, deserialize))
    ensures Select(Reaction(p, deserialize), CallOf) == Select([p], q => MessageDue(q, deserialize))
    ensures Select(Reaction(p, deserialize), DelayOf) == Select([p], DelayDue)
  {
    SelectPollOne(p, q => CommitDue(q, deserialize));
    SelectPollOne(p, q => MessageDue(q, deserialize));
    SelectPollOne(p, DelayDue);
    match p
    case NoResult =>
      SelectOne(Delayed(EmptyPollDelayMs), CommitOf);
      SelectOne(Delayed(EmptyPollDelayMs), CallOf);
      SelectOne(Delayed(EmptyPollDelayMs), DelayOf);
    case Delivered(offset, value, handler) =>
      if value.Some? && value.value != "" {
        match deserialize(value.value)
        case Decoded(m) =>
          DecodedSelects(m, offset, handler);
        case JsonNull =>
        case Malformed =>
          MalformedSelects(offset);
      }
    case ConsumeFailure =>
      ErrorAndPause(ConsumeError, ConsumeErrorDelayMs);
    case UnexpectedFailure =>
      ErrorAndPause(UnexpectedError, UnexpectedErrorDelayMs);
  }

  lemma MalformedSelects(offset: nat)
    ensures Select([LoggedError(DeserializationError(offset)), Committed(offset)], CommitOf) == [offset]
    ensures Select([LoggedError(DeserializationError(offset)), Committed(offset)], CallOf) == []
    ensures Select([LoggedError(DeserializationError(offset)), Committed(offset)], DelayOf) == []
  {
    var e, e' := LoggedError(DeserializationError(offset)), Committed(offset);
    SelectPair(e, e', CommitOf);
    SelectPair(e, e', CallOf);
    SelectPair(e, e', DelayOf);
    SelectOne(e, CommitOf);
    SelectOne(e, CallOf);
    SelectOne(e, DelayOf);
    SelectOne(e', CommitOf);
    SelectOne(e', CallOf);
    SelectOne(e', DelayOf);
  }

  lemma ErrorAndPause(error: ErrorLog, ms: nat)
    ensures Select([LoggedError(error), Delayed(ms)], CommitOf) == []
    ensures Select([LoggedError(error), Delayed(ms)], CallOf) == []
    ensures Select([LoggedError(error), Delayed(ms)], DelayOf) == [ms]
  {
    var e, e' := LoggedError(error), Delayed(ms);
    SelectPair(e, e', CommitOf);
    SelectPair(e, e', CallOf);
    SelectPair(e, e', DelayOf);
    SelectOne(e, CommitOf);
    SelectOne(e, CallOf);
    SelectOne(e, DelayOf);
    SelectOne(e', CommitOf);
    SelectOne(e', CallOf);
    SelectOne(e', DelayOf);
  }

  /** Over a whole run: the commit log is the offsets of the deliveries that
      carry a non-empty, non-null payload, malformed or not, in order and
      once each; the handler receives exactly the decodable messages, in
      order; and the pauses are 100, 1000 and 5000 ms for empty polls,
      consume errors and other errors. Nothing is committed, handled or
      paused for after the loop stops. */
  lemma {:induction false} RunMatchesDue(polls: seq<Poll>, deserialize: string -> Decoded)
    ensures Select(Run(polls, deserialize).events, CommitOf) == Select(Processed(polls), q => CommitDue(q, deserialize))
    ensures Select(Run(polls, deserialize).events, CallOf) == Select(Processed(polls), q => MessageDue(q, deserialize))
    ensures Select(Run(polls, deserialize).events, DelayOf) == Select(Processed(polls), DelayDue)
  {
    if polls != [] && polls[0].Cancelled? {
      var log := CancelLog(polls[0].at);
      SelectNone(log, CommitOf);
      SelectNone(log, CallOf);
      SelectNone(log, DelayOf);
    } else if polls == [] || Stops(polls[0]) {
    } else {
      var p, rest := polls[0], Run(polls[1..], deserialize);
      RunMatchesDue(polls[1..], deserialize);
      ReactionMatchesDue(p, deserialize);
      SelectAppend(Reaction(p, deserialize), rest.events, CommitOf);
      SelectAppend(Reaction(p, deserialize), rest.events, CallOf);
      SelectAppend(Reaction(p, deserialize), rest.events, DelayOf);
      SelectAppend([p], Processed(polls[1..]), q => CommitDue(q, deserialize));
      SelectAppend([p], Processed(polls[1..]), q => MessageDue(q, deserialize));
      SelectAppend([p], Processed(polls[1..]), DelayDue);
    }
  }

  /** For a decodable delivery the handler is called first and the offset is
      committed last, once each, whether or not the handler throws; a
      throwing handler only adds one error log between the two, a
      deserialization error for a `JsonException` and a processing error
      for any other exception. */
  lemma DecodedDelivery(offset: nat, payload: string, handler: HandlerOutcome, deserialize: string -> Decoded)
    requires payload != "" && deserialize(payload).Decoded?
    ensures
      var r := Reaction(Delivered(offset, Some(payload), handler), deserialize);
      && r[0] == HandlerCalled(deserialize(payload).message)
      && r[|r| - 1] == Committed(offset)
      && Select(r, CommitOf) == [offset]
      && Select(r, CallOf) == [deserialize(payload).message]
      && (|r| == 2 <==> handler == Completes)
      && (handler == ThrowsOther <==> LoggedError(ProcessingError(offset)) in r)
      && (handler == ThrowsJson <==> LoggedError(DeserializationError(offset)) in r)
  {
    ReactionMatchesDue(Delivered(offset, Some(payload), handler), deserialize);
  }

  /** A poison payload is logged and committed and never reaches the handler. */
  lemma MalformedDelivery(offset: nat, payload: string, handler: HandlerOutcome, deserialize: string -> Decoded)
    requires payload != "" && deserialize(payload).Malformed?
    ensures Reaction(Delivered(offset, Some(payload), handler), deserialize)
         == [LoggedError(DeserializationError(offset)), Committed(offset)]
  {
  }

  /** A result without a payload, with an empty payload or with the JSON
      literal `null` leaves no trace: no handler call, no commit, no pause. */
  lemma IgnoredDelivery(offset: nat, value: Option<string>, handler: HandlerOutcome, deserialize: string -> Decoded)
    requires value.None? || value.value == "" || deserialize(value.value).JsonNull?
    ensures Reaction(Delivered(offset, value, handler), deserialize) == []
  {
  }

  /** A cancellation before any poll completes ends the loop cleanly:
      nothing is handled, committed or paused for, and nothing is thrown;
      found at the loop test, it is not even logged. */
  lemma CancelledBeforeFirstPoll(polls: seq<Poll>, deserialize: string -> Decoded)
    requires polls == [] || polls[0].Cancelled?
    ensures Run(polls, deserialize).termination == Stopped
    ensures forall e :: e in Run(polls, deserialize).events ==> !e.HandlerCalled? && !e.Committed? && !e.Delayed?
    ensures polls == [] ==> Run(polls, deserialize).events == []
  {
  }

  /** No turn that goes on logs a cancellation. */
  lemma ReactionUninformed(p: Poll, deserialize: string -> Decoded)
    requires !Stops(p)
    ensures forall k :: 0 <= k < |Reaction(p, deserialize)| ==> !Reaction(p, deserialize)[k].LoggedInfo?
  {
    if p.Delivered? && p.value.Some? && p.value.value != "" && deserialize(p.value.value).Decoded? {
      var m := deserialize(p.value.value).message;
      assert Reaction(p, deserialize) == [HandlerCalled(m)] + HandlerFailureLog(p.handler, p.offset) + [Committed(p.offset)];
    }
  }

  /** The three ways the loop ends on the token log differently: at the
      loop test it logs nothing, a cancellation inside a turn is logged by
      the turn's handler, and a cancelled error pause by the outer handler;
      a run logs at most that one cancellation, as its last entry. */
  lemma {:induction false} CancellationLogged(polls: seq<Poll>, deserialize: string -> Decoded)
    ensures Select(Run(polls, deserialize).events, InfoOf) == CancellationDue(polls)
    decreases |polls|
  {
    if polls == [] {
    } else if polls[0].Cancelled? {
      var at := polls[0].at;
      var log := CancelLog(at);
      assert |Processed(polls)| == 0;
      if at == InTurn {
        SelectOne(LoggedInfo(OperationCancelled), InfoOf);
      } else {
        SelectPair(log[0], log[1], InfoOf);
        assert log == [log[0], log[1]];
        SelectOne(log[0], InfoOf);
        SelectOne(log[1], InfoOf);
      }
    } else if polls[0].Fatal? {
      SelectOne(LoggedError(FatalError), InfoOf);
    } else {
      var p, rest := polls[0], Run(polls[1..], deserialize);
      CancellationLogged(polls[1..], deserialize);
      ReactionUninformed(p, deserialize);
      SelectNone(Reaction(p, deserialize), InfoOf);
      SelectAppend(Reaction(p, deserialize), rest.events, InfoOf);
      var n := |Processed(polls[1..])|;
      assert |Processed(polls)| == 1 + n;
      assert n < |polls[1..]| ==> polls[1 + n] == polls[1..][n];
    }
  }

  /** Only an exception escaping the per-turn handlers is rethrown. */
  lemma {:induction false} RethrownOnlyOnFatal(polls: seq<Poll>, deserialize: string -> Decoded)
    ensures Run(polls, deserialize).termination == Rethrown <==>
      |Processed(polls)| < |polls| && polls[|Processed(polls)|].Fatal?
  {
    if polls != [] && !Stops(polls[0]) {
      RethrownOnlyOnFatal(polls[1..], deserialize);
      assert |Processed(polls)| == 1 + |Processed(polls[1..])|;
    }
  }

  /** The run from position `i` of the script, one turn unfolded. */
  lemma RunFrom(polls: seq<Poll>, i: nat, deserialize: string -> Decoded)
    requires i < |polls|
    ensures polls[i].Cancelled? ==> Run(polls[i..], deserialize) == RunResult(CancelLog(polls[i].at), Stopped)
    ensures polls[i].Fatal? ==> Run(polls[i..], deserialize) == RunResult([LoggedError(FatalError)], Rethrown)
    ensures !Stops(polls[i]) ==>
      var rest := Run(polls[i + 1..], deserialize);
      Run(polls[i..], deserialize) == RunResult(Reaction(polls[i], deserialize) + rest.events, rest.termination)
  {
    assert polls[i..][0] == polls[i] && polls[i..][1..] == polls[i + 1..];
  }

  /** A turn that does not stop the loop moves the rest of the run from
      position `i` into the log. */
  lemma RunAdvance(polls: seq<Poll>, i: nat, deserialize: string -> Decoded, before: seq<Event>, after: seq<Event>)
    requires i < |polls| && !Stops(polls[i])
    requires after == before + Reaction(polls[i], deserialize)
    ensures after + Run(polls[i + 1..], deserialize).events == before + Run(polls[i..], deserialize).events
    ensures Run(polls[i + 1..], deserialize).termination == Run(polls[i..], deserialize).termination
  {
    RunFrom(polls, i, deserialize);
    var rest := Run(polls[i + 1..], deserialize).events;
    assert after + rest == before + (Reaction(polls[i], deserialize) + rest);
  }

  class TransactionConsumer {
    /** Set by `CloseAsync`; the loop does not poll once it is set. */
    var disposed: bool
    /** Everything the consumer did, in order. */
    var events: seq<Event>

    /** The constructor subscribes to the topic; the model starts open with an empty log. */
    constructor ()
      ensures !disposed && events == []
    {
      disposed := false;
      events := [];
    }

    /** `ConsumeAsync`: runs the loop over the polls it observes. A closed
        consumer does not poll at all. */
    method ConsumeAsync(polls: seq<Poll>, deserialize: string -> Decoded) returns (termination: Termination)
      modifies this
      ensures disposed == old(disposed)
      ensures old(disposed) ==> termination == Stopped && events == old(events)
      ensures !old(disposed) ==>
        termination == Run(polls, deserialize).termination && events == old(events) + Run(polls, deserialize).events
    {
      termination := Stopped;
      var i := 0;
      while i < |polls| && !disposed
        invariant 0 <= i <= |polls|
        invariant disposed == old(disposed)
        invariant old(disposed) ==> events == old(events)
        invariant !old(disposed) ==>
          old(events) + Run(polls, deserialize).events == events + Run(polls[i..], deserialize).events
        invariant !old(disposed) ==> Run(polls, deserialize).termination == Run(polls[i..], deserialize).termination
        decreases |polls| - i
      {
        if polls[i].Cancelled? {
          RunFrom(polls, i, deserialize);
          Cancel(polls[i].at);
          break;
        }
        if polls[i].Fatal? {
          RunFrom(polls, i, deserialize);
          events := events + [LoggedError(FatalError)];
          termination := Rethrown;
          break;
        }
        ghost var before := events;
        Turn(polls[i], deserialize);
        RunAdvance(polls, i, deserialize, before, events);
        i := i + 1;
      }
      if !old(disposed) && i == |polls| {
        assert polls[i..] == [];
      }
    }

    /** One turn of the loop that does not stop it: poll, then decode,
        hand over and commit, or pause, catching the per-turn exceptions. */
    method Turn(p: Poll, deserialize: string -> Decoded)
      requires !Stops(p)
      modifies this
      ensures disposed == old(disposed)
      ensures events == old(events) + Reaction(p, deserialize)
    {
      match p {
        case NoResult =>
          events := events + [Delayed(EmptyPollDelayMs)];
        case Delivered(offset, value, handler) =>
          if value.Some? && value.value != "" {
            match deserialize(value.value) {
              case Decoded(message) =>
                events := events + [HandlerCalled(message)];
                match handler {
                  case Completes =>
                  case ThrowsJson =>
                    events := events + [LoggedError(DeserializationError(offset))];
                  case ThrowsOther =>
                    events := events + [LoggedError(ProcessingError(offset))];
                }
                events := events + [Committed(offset)];
              case JsonNull =>
              case Malformed =>
                events := events + [LoggedError(DeserializationError(offset))];
                events := events + [Committed(offset)];
            }
          }
        case ConsumeFailure =>
          events := events + [LoggedError(ConsumeError)];
          events := events + [Delayed(ConsumeErrorDelayMs)];
        case UnexpectedFailure =>
          events := events + [LoggedError(UnexpectedError)];
          events := events + [Delayed(UnexpectedErrorDelayMs)];
      }
    }

    /** A turn cut short by the token: the error being paused after is
        logged first, then the handler that catches the cancellation logs it. */
    method Cancel(at: CancelPoint)
      modifies this
      ensures disposed == old(disposed)
      ensures events == old(events) + CancelLog(at)
    {
      match at {
        case InTurn =>
          events := events + [LoggedInfo(OperationCancelled)];
        case InConsumeErrorPause =>
          events := events + [LoggedError(ConsumeError)];
          events := events + [LoggedInfo(StoppedOnCancellation)];
        case InUnexpectedErrorPause =>
          events := events + [LoggedError(UnexpectedError)];
          events := events + [LoggedInfo(StoppedOnCancellation)];
      }
    }

    /** `CloseAsync`: closes the broker client and marks the consumer closed;
        if closing throws, the error is logged and the flag stays as it was. */
    method CloseAsync(closeThrows: bool)
      modifies this
      ensures disposed == (old(disposed) || !closeThrows)
      ensures events == old(events) + (if closeThrows then [LoggedError(CloseError)] else [])
    {
      if closeThrows {
        events := events + [LoggedError(CloseError)];
      } else {
        disposed := true;
      }
    }
  }
}
