/** Entities, wire messages and value types shared by every part of the
    anti-fraud transaction service: the persisted transaction record, the
    evaluation message put on the stream, the response returned to callers,
    and the primitive types (identifiers, timestamps, money) they are made of. */
module Domain {

  datatype Option<T> = None | Some(value: T)

  /** The exceptions the modelled code raises or lets escape. */
  datatype Error =
    | KeyNotFound          // the store has no record with the requested primary key
    | DuplicateKey         // the store already holds a record with the primary key being added
    | ConcurrencyConflict  // an update affected no row (the record to update is absent)
    | PublishFailed        // the broker client failed to deliver a produced message

  datatype Result<T> = Ok(value: T) | Err(error: Error)

  /** Completion of an operation that returns nothing. */
  datatype Outcome = Pass | Fail(error: Error)

  /** A GUID. Only equality matters; `EmptyGuid` is `Guid.Empty`, the default value. */
  type Guid = nat
  const EmptyGuid: Guid := 0

  /** A `decimal` amount. C# decimals are exact, so they are modelled as reals. */
  type Money = real

  /** A `DateTime` is a day number and a tick (100 ns) within that day. */
  const TicksPerDay: nat := 864_000_000_000
  type TickOfDay = t: nat | t < TicksPerDay
  datatype DateTime = DateTime(day: nat, tick: TickOfDay)

  /** Absolute position on the time line, in ticks; `DateTime` comparisons compare this. */
  function Ticks(d: DateTime): nat {
    d.day * TicksPerDay + d.tick
  }

  /** `d.Date`: midnight at the start of the same day. */
  function StartOfDay(d: DateTime): DateTime {
    DateTime(d.day, 0)
  }

  /** `d.AddDays(n)`. */
  function AddDays(d: DateTime, n: nat): DateTime {
    DateTime(d.day + n, d.tick)
  }

  datatype TransactionStatus = Pending | Approved | Rejected

  /** The persisted transaction record; `id` is the primary key. */
  datatype Transaction = Transaction(
    id: Guid,
    externalId: Guid,
    sourceAccountId: Guid,
    targetAccountId: Guid,
    transferTypeId: int,
    value: Money,
    createdAt: DateTime,
    status: TransactionStatus)

  /** The evaluation message carried on the stream. */
  datatype MessageDto = MessageDto(
    transactionId: Guid,
    sourceAccountId: Guid,
    targetAccountId: Guid,
    transferTypeId: int,
    value: Money)

  /** The response handed back by the command and query handlers. */
  datatype TransactionResponse = TransactionResponse(
    id: Guid,
    externalId: Guid,
    createdAt: DateTime,
    status: string)

  /** `status.ToString()`: the enum member's name. */
  function StatusName(s: TransactionStatus): string {
    match s
    case Pending => "Pending"
    case Approved => "Approved"
    case Rejected => "Rejected"
  }

  function LowerChar(c: char): char {
    if 'A' <= c <= 'Z' then (c as int - 'A' as int + 'a' as int) as char else c
  }

  /** `ToLower()` on the ASCII letters the status names are made of. */
  function ToLower(s: string): (r: string)
    ensures |r| == |s|
    ensures forall i :: 0 <= i < |s| ==> r[i] == LowerChar(s[i])
  {
    if s == [] then [] else [LowerChar(s[0])] + ToLower(s[1..])
  }

  /** Keeps, in order, what `pick` extracts from the elements it accepts. */
  function Select<E, T>(s: seq<E>, pick: E -> Option<T>): seq<T> {
    if s == [] then []
    else (match pick(s[0]) case Some(x) => [x] case None => []) + Select(s[1..], pick)
  }

  lemma {:induction false} SelectAppend<E, T>(a: seq<E>, b: seq<E>, pick: E -> Option<T>)
    ensures Select(a + b, pick) == Select(a, pick) + Select(b, pick)
  {
    if a == [] {
      assert a + b == b;
    } else {
      assert (a + b)[0] == a[0];
      assert (a + b)[1..] == a[1..] + b;
      SelectAppend(a[1..], b, pick);
    }
  }
}
