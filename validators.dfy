/** The field rules checked on incoming commands. Each validator yields the
    list of rules a command breaks, in rule order; a command is valid when
    the list is empty. */
module Validators {
  import opened Domain
  import CreateTransaction
  import UpdateTransaction

  /** Largest value a command may carry. */
  const MaxValue: Money := 1000000.0

  datatype ValidationFailure =
    | TransactionIdRequired
    | SourceAccountRequired
    | TargetAccountRequired
    | TransferTypeNotPositive
    | ValueNotPositive
    | ValueAboveMaximum

  function Check(holds: bool, failure: ValidationFailure): seq<ValidationFailure> {
    if holds then [] else [failure]
  }

  /** `value` must be greater than 0 and at most 1,000,000; both checks run. */
  function ValueFailures(value: Money): seq<ValidationFailure> {
    Check(value > 0.0, ValueNotPositive) + Check(value <= MaxValue, ValueAboveMaximum)
  }

  /** The four rules of the create validator, in declaration order. */
  function CreateFailures(cmd: CreateTransaction.CreateTransactionCommand): (fs: seq<ValidationFailure>)
    ensures SourceAccountRequired in fs <==> cmd.sourceAccountId == EmptyGuid
    ensures TargetAccountRequired in fs <==> cmd.targetAccountId == EmptyGuid
    ensures TransferTypeNotPositive in fs <==> cmd.transferTypeId <= 0
    ensures ValueNotPositive in fs <==> cmd.value <= 0.0
    ensures ValueAboveMaximum in fs <==> cmd.value > MaxValue
    ensures TransactionIdRequired !in fs
  {
    Check(cmd.sourceAccountId != EmptyGuid, SourceAccountRequired)
    + Check(cmd.targetAccountId != EmptyGuid, TargetAccountRequired)
    + Check(cmd.transferTypeId > 0, TransferTypeNotPositive)
    + ValueFailures(cmd.value)
  }

  /** A create command passes validation exactly when all four rules hold;
      a value of exactly 1,000,000 passes. */
  predicate CreateIsValid(cmd: CreateTransaction.CreateTransactionCommand)
    ensures CreateIsValid(cmd) <==>
      && cmd.sourceAccountId != EmptyGuid
      && cmd.targetAccountId != EmptyGuid
      && cmd.transferTypeId > 0
      && 0.0 < cmd.value <= MaxValue
  {
    CreateFailures(cmd) == []
  }

  /** The three rules of the update validator, in declaration order. */
  function UpdateFailures(cmd: UpdateTransaction.UpdateTransactionCommand): (fs: seq<ValidationFailure>)
    ensures TransactionIdRequired in fs <==> cmd.transactionId == EmptyGuid
    ensures SourceAccountRequired in fs <==> cmd.sourceAccountId == EmptyGuid
    ensures ValueNotPositive in fs <==> cmd.value <= 0.0
    ensures ValueAboveMaximum in fs <==> cmd.value > MaxValue
    ensures TargetAccountRequired !in fs && TransferTypeNotPositive !in fs
  {
    Check(cmd.transactionId != EmptyGuid, TransactionIdRequired)
    + Check(cmd.sourceAccountId != EmptyGuid, SourceAccountRequired)
    + ValueFailures(cmd.value)
  }

  /** An update command passes validation exactly when its three rules hold. */
  predicate UpdateIsValid(cmd: UpdateTransaction.UpdateTransactionCommand)
    ensures UpdateIsValid(cmd) <==>
      && cmd.transactionId != EmptyGuid
      && cmd.sourceAccountId != EmptyGuid
      && 0.0 < cmd.value <= MaxValue
  {
    UpdateFailures(cmd) == []
  }

  /** The update validator does not look at the target account or the transfer type. */
  lemma UpdateIgnoresTargetAndTransferType(cmd: UpdateTransaction.UpdateTransactionCommand, target: Guid, transferType: int)
    ensures UpdateFailures(cmd.(targetAccountId := target, transferTypeId := transferType)) == UpdateFailures(cmd)
  {
  }

  /** The boundary values of the value rule. */
  lemma ValueBoundaries()
    ensures ValueFailures(MaxValue) == []
    ensures ValueFailures(MaxValue + 0.01) == [ValueAboveMaximum]
    ensures ValueFailures(0.0) == [ValueNotPositive]
    ensures ValueFailures(0.01) == []
  {
  }
}
