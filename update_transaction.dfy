/** The fraud decision and the status update that applies it: the daily
    approved total of the source account is read, the threshold rule picks
    Approved or Rejected, and the stored record's status is overwritten. */
module UpdateTransaction {
  import opened Domain
  import opened Repository

  /** Largest value a single transaction may have and still be approved. */
  const SingleLimit: Money := 2000.0
  /** Largest same-day approved total an account may reach. */
  const DailyLimit: Money := 20000.0

  datatype UpdateTransactionCommand = UpdateTransactionCommand(
    transactionId: Guid,
    sourceAccountId: Guid,
    targetAccountId: Guid,
    transferTypeId: int,
    value: Money)

  /** The threshold rule. Both limits are strict: a value of exactly 2000, or
      a new daily total of exactly 20000, is approved. */
  function Decide(value: Money, accumulated: Money): (s: TransactionStatus)
    ensures s != Pending
    ensures s == Approved <==> value <= SingleLimit && accumulated + value <= DailyLimit
  {
    if value > SingleLimit || accumulated + value > DailyLimit then Rejected else Approved
  }

  /** Approval is monotone: what is approved stays approved for a smaller
      value on a smaller accumulated total. */
  lemma DecideMonotone(value: Money, accumulated: Money, value': Money, accumulated': Money)
    requires Decide(value, accumulated) == Approved
    requires value' <= value && accumulated' <= accumulated
    ensures Decide(value', accumulated') == Approved
  {
  }

  /** The boundary cases the rule is written for. */
  lemma DecisionScenarios()
    ensures Decide(500.0, 19600.0) == Rejected
    ensures Decide(400.0, 19600.0) == Approved
    ensures Decide(2001.0, 0.0) == Rejected
    ensures Decide(2000.0, 0.0) == Approved
    ensures Decide(2000.01, 0.0) == Rejected
    ensures Decide(1500.0, 10000.0) == Approved
    ensures Decide(0.01, 20000.0) == Rejected
  {
  }

  /** What handling one command does: the response (or the exception that
      escapes) and the rows afterwards. */
  datatype Evaluation = Evaluation(response: Result<TransactionResponse>, rows: seq<Transaction>)

  /** The effect of `Handle` on a store holding `rows`, evaluated at `now`.
      The decision uses the command's account and value; the stored record
      only supplies the identity and timestamps of the response. */
  function Evaluate(rows: seq<Transaction>, cmd: UpdateTransactionCommand, now: DateTime): (e: Evaluation)
    ensures |e.rows| == |rows|
    ensures e.response.Err? <==> IndexOf(rows, cmd.transactionId).None?
    ensures e.response.Err? ==> e.response.error == KeyNotFound && e.rows == rows
  {
    var status := Decide(cmd.value, DailyTotal(rows, cmd.sourceAccountId, now));
    match IndexOf(rows, cmd.transactionId)
    case None => Evaluation(Err(KeyNotFound), rows)
    case Some(i) =>
      var t := rows[i].(status := status);
      Evaluation(Ok(TransactionResponse(EmptyGuid, t.externalId, t.createdAt, StatusName(status))), rows[i := t])
  }

  /** `Handle`: reads the daily total first, decides, then loads the record
      (an absent one raises `KeyNotFoundException` from the store and nothing
      is written), sets its status and writes it back once. */
  method Handle(repository: TransactionRepository, request: UpdateTransactionCommand, now: DateTime)
    returns (r: Result<TransactionResponse>)
    requires repository.Valid()
    modifies repository
    ensures repository.Valid()
    ensures r == Evaluate(old(repository.rows), request, now).response
    ensures repository.rows == Evaluate(old(repository.rows), request, now).rows
  {
    var status := Approved;
    var accumulated := repository.GetDailyAccumulated(request.sourceAccountId, now);
    if request.value > SingleLimit || accumulated + request.value > DailyLimit {
      status := Rejected;
    }

    var found := repository.GetById(request.transactionId);
    if found.Err? {
      return Err(found.error);
    }
    var transaction := found.value.(status := status);
    var _ := repository.Update(transaction);

    r := Ok(TransactionResponse(EmptyGuid, transaction.externalId, transaction.createdAt, StatusName(transaction.status)));
  }

  /** An absent record: the store's exception escapes and no row changes. */
  lemma EvaluateAbsent(rows: seq<Transaction>, cmd: UpdateTransactionCommand, now: DateTime)
    requires forall i :: 0 <= i < |rows| ==> rows[i].id != cmd.transactionId
    ensures Evaluate(rows, cmd, now) == Evaluation(Err(KeyNotFound), rows)
  {
  }

  /** A present record: exactly that row is rewritten, only its status
      changes, it becomes the decision for the command's value and the
      account's total read before the write, and the response carries the
      stored external id and creation time with the status name. */
  lemma EvaluatePresent(rows: seq<Transaction>, cmd: UpdateTransactionCommand, now: DateTime, i: nat)
    requires UniqueIds(rows)
    requires i < |rows| && rows[i].id == cmd.transactionId
    ensures
      var e := Evaluate(rows, cmd, now);
      var status := Decide(cmd.value, DailyTotal(rows, cmd.sourceAccountId, now));
      && |e.rows| == |rows|
      && (forall j :: 0 <= j < |rows| && j != i ==> e.rows[j] == rows[j])
      && e.rows[i].(status := rows[i].status) == rows[i]
      && e.rows[i].status == status
      && e.response == Ok(TransactionResponse(EmptyGuid, rows[i].externalId, rows[i].createdAt, StatusName(status)))
      && UniqueIds(e.rows)
  {
    IndexOfUnique(rows, cmd.transactionId, i);
  }

  /** The daily limit the rule protects: when the message agrees with the
      pending record it evaluates, and the record was created on the day of
      evaluation, approving it adds its value to the account's total for
      that day and leaves that total at most 20000; rejecting it leaves the
      total unchanged. */
  lemma ApprovalKeepsDailyLimit(rows: seq<Transaction>, cmd: UpdateTransactionCommand, now: DateTime, i: nat)
    requires UniqueIds(rows)
    requires i < |rows| && rows[i].id == cmd.transactionId
    requires rows[i].status == Pending
    requires rows[i].sourceAccountId == cmd.sourceAccountId && rows[i].value == cmd.value
    requires rows[i].createdAt.day == now.day
    ensures
      var before := DailyTotal(rows, cmd.sourceAccountId, now);
      var after := DailyTotal(Evaluate(rows, cmd, now).rows, cmd.sourceAccountId, now);
      var approved := Evaluate(rows, cmd, now).rows[i].status == Approved;
      && (approved ==> after == before + cmd.value && after <= DailyLimit)
      && (!approved ==> after == before)
  {
    IndexOfUnique(rows, cmd.transactionId, i);
    var status := Decide(cmd.value, DailyTotal(rows, cmd.sourceAccountId, now));
    DailyTotalReplace(rows, i, rows[i].(status := status), cmd.sourceAccountId, now);
    InDayIffSameDay(rows[i].createdAt, now);
  }

  /** As written, the handler decides again for a record that already has a
      final status, and its own approval now counts toward the total. With
      an approved 18000 on the account, a Pending 1500 is approved; the same
      message handled a second time rejects it. */
  lemma RedeliveryOverturnsApproval()
    ensures
      var account, now := 10, DateTime(0, 0);
      var t := Transaction(1, 2, account, 11, 1, 1500.0, now, Pending);
      var u := Transaction(3, 4, account, 11, 1, 18000.0, now, Approved);
      var cmd := UpdateTransactionCommand(1, account, 11, 0, 1500.0);
      var first := Evaluate([t, u], cmd, now);
      && first.rows == [t.(status := Approved), u]
      && Evaluate(first.rows, cmd, now).rows == [t.(status := Rejected), u]
  {
    var account, now := 10, DateTime(0, 0);
    var t := Transaction(1, 2, account, 11, 1, 1500.0, now, Pending);
    var u := Transaction(3, 4, account, 11, 1, 18000.0, now, Approved);
    InDayIffSameDay(now, now);
    assert [t, u][1..] == [u] && [u][1..] == [];
    assert DailyTotal([u], account, now) == 18000.0;
    assert DailyTotal([t, u], account, now) == 18000.0;
    var t' := t.(status := Approved);
    assert [t', u][1..] == [u];
    assert Contribution(t', account, now) == 1500.0;
    assert DailyTotal([t', u], account, now) == 19500.0;
  }

  /** The evaluation the status rule intends: a record that already has a
      final status is answered with it and left alone; a Pending or absent
      record is evaluated as the handler does. */
  function EvaluateOnce(rows: seq<Transaction>, cmd: UpdateTransactionCommand, now: DateTime): (e: Evaluation)
    ensures |e.rows| == |rows|
    ensures forall i :: 0 <= i < |rows| && rows[i].status != Pending ==> e.rows[i] == rows[i]
    ensures (forall i :: 0 <= i < |rows| && rows[i].id == cmd.transactionId ==> rows[i].status == Pending)
            ==> e == Evaluate(rows, cmd, now)
  {
    match IndexOf(rows, cmd.transactionId)
    case Some(i) =>
      if rows[i].status != Pending then
        Evaluation(Ok(TransactionResponse(EmptyGuid, rows[i].externalId, rows[i].createdAt, StatusName(rows[i].status))), rows)
      else Evaluate(rows, cmd, now)
    case None => Evaluate(rows, cmd, now)
  }

  /** Handling the same message twice has the effect of handling it once. */
  lemma EvaluateOnceIdempotent(rows: seq<Transaction>, cmd: UpdateTransactionCommand, now: DateTime)
    requires UniqueIds(rows)
    ensures EvaluateOnce(EvaluateOnce(rows, cmd, now).rows, cmd, now).rows == EvaluateOnce(rows, cmd, now).rows
  {
    match IndexOf(rows, cmd.transactionId)
    case None =>
    case Some(i) =>
      if rows[i].status == Pending {
        var once := EvaluateOnce(rows, cmd, now);
        EvaluatePresent(rows, cmd, now, i);
        IndexOfUnique(once.rows, cmd.transactionId, i);
      }
  }
}
