/** The stream producer: publishes an evaluation message keyed by its
    transaction id. The topic's content is modelled as the list of records
    delivered so far. */
module Producer {
  import opened Domain

  /** A record on the topic: the partition key and the message. */
  datatype ProducedRecord = ProducedRecord(key: Guid, value: MessageDto)

  class TransactionProducer {
    var sent: seq<ProducedRecord>

    constructor ()
      ensures sent == []
    {
      sent := [];
    }

    /** `ProduceAsync`: sends `message` keyed by its transaction id; when the
        broker client fails (`fails`), the exception escapes and nothing is
        delivered. */
    method Produce(message: MessageDto, fails: bool) returns (r: Outcome)
      modifies this
      ensures fails ==> r == Fail(PublishFailed) && sent == old(sent)
      ensures !fails ==> r == Pass && sent == old(sent) + [ProducedRecord(message.transactionId, message)]
    {
      if fails {
        return Fail(PublishFailed);
      }
      sent := sent + [ProducedRecord(message.transactionId, message)];
      r := Pass;
    }
  }
}
