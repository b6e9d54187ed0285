/** The creation path: a new transaction is built in the Pending state,
    stored, and then published for asynchronous evaluation. */
module CreateTransaction {
  import opened Domain
  import opened Repository
  import opened Producer

  datatype CreateTransactionCommand = CreateTransactionCommand(
    sourceAccountId: Guid,
    targetAccountId: Guid,
    transferTypeId: int,
    value: Money)

  /** The record `Handle` builds. `id` and `externalId` are the two freshly
      generated GUIDs and `now` is the clock reading; none of them comes from
      the request. */
  function NewTransaction(request: CreateTransactionCommand, id: Guid, externalId: Guid, now: DateTime): (t: Transaction)
    ensures t.status == Pending && t.id == id && t.externalId == externalId && t.createdAt == now
    ensures CreateTransactionCommand(t.sourceAccountId, t.targetAccountId, t.transferTypeId, t.value) == request
  {
    Transaction(id, externalId, request.sourceAccountId, request.targetAccountId,
                request.transferTypeId, request.value, now, Pending)
  }

  /** The evaluation message for a stored record. */
  function ToMessage(t: Transaction): MessageDto {
    MessageDto(t.id, t.sourceAccountId, t.targetAccountId, t.transferTypeId, t.value)
  }

  /** The message published for a created record names it by primary key
      and repeats its four other fields: building a record from the request
      and reading the message back gives the request again. */
  lemma CreatedRecordAndMessage(request: CreateTransactionCommand, id: Guid, externalId: Guid, now: DateTime)
    ensures
      var t := NewTransaction(request, id, externalId, now);
      var m := ToMessage(t);
      && m.transactionId == t.id
      && CreateTransactionCommand(m.sourceAccountId, m.targetAccountId, m.transferTypeId, m.value) == request
  {
  }

  /** `Handle`: stores the new record, then publishes its message, then
      answers with the record's identity, creation time and "Pending".
      When storing fails nothing is published; when publishing fails the
      record stays stored as Pending with no message on the topic. */
  method Handle(repository: TransactionRepository, producer: TransactionProducer,
                request: CreateTransactionCommand, newId: Guid, newExternalId: Guid, now: DateTime,
                publishFails: bool)
    returns (r: Result<TransactionResponse>)
    requires repository.Valid()
    modifies repository, producer
    ensures repository.Valid()
    ensures
      var t := NewTransaction(request, newId, newExternalId, now);
      if old(IndexOf(repository.rows, newId)).Some? then
        r == Err(DuplicateKey) && repository.rows == old(repository.rows) && producer.sent == old(producer.sent)
      else
        && repository.rows == old(repository.rows) + [t]
        && (publishFails ==> r == Err(PublishFailed) && producer.sent == old(producer.sent))
        && (!publishFails ==>
              && producer.sent == old(producer.sent) + [ProducedRecord(t.id, ToMessage(t))]
              && r == Ok(TransactionResponse(t.id, t.externalId, t.createdAt, "Pending")))
  {
    var transaction := NewTransaction(request, newId, newExternalId, now);

    var added := repository.Add(transaction);
    if added.Fail? {
      return Err(added.error);
    }

    var messageDto := ToMessage(transaction);

    var produced := producer.Produce(messageDto, publishFails);
    if produced.Fail? {
      return Err(produced.error);
    }

    r := Ok(TransactionResponse(transaction.id, transaction.externalId, transaction.createdAt, StatusName(transaction.status)));
  }

  /** A new Pending record does not change any account's approved daily total. */
  lemma {:induction false} CreationKeepsDailyTotals(rows: seq<Transaction>, request: CreateTransactionCommand,
                                                   id: Guid, externalId: Guid, now: DateTime,
                                                   account: Guid, date: DateTime)
    ensures DailyTotal(rows + [NewTransaction(request, id, externalId, now)], account, date) == DailyTotal(rows, account, date)
  {
    DailyTotalAppend(rows, NewTransaction(request, id, externalId, now), account, date);
  }
}
