/** The read path: a transaction is looked up by primary key and mapped to a
    response whose status is the lower-cased status name. */
module GetTransactionById {
  import opened Domain
  import opened Repository

  /** The response for a stored record: no `id`, the stored external id and
      creation time, and the status name in lower case, which is the
      literal lower-case word for the status. */
  function ToResponse(t: Transaction): (r: TransactionResponse)
    ensures r.id == EmptyGuid && r.externalId == t.externalId && r.createdAt == t.createdAt
    ensures r.status == LowerName(t.status)
  {
    LowerNameMatches(t.status);
    TransactionResponse(EmptyGuid, t.externalId, t.createdAt, ToLower(StatusName(t.status)))
  }

  /** The lower-cased status name. */
  function LowerName(s: TransactionStatus): string {
    match s
    case Pending => "pending"
    case Approved => "approved"
    case Rejected => "rejected"
  }

  lemma LowerNameMatches(s: TransactionStatus)
    ensures ToLower(StatusName(s)) == LowerName(s)
  {
    match s
    case Pending => LowerWord("Pending", "pending");
    case Approved => LowerWord("Approved", "approved");
    case Rejected => LowerWord("Rejected", "rejected");
  }

  /** A word whose first letter is the only capital lowers to `lower`. */
  lemma LowerWord(word: string, lower: string)
    requires |word| == |lower| > 0
    requires LowerChar(word[0]) == lower[0] && word[1..] == lower[1..]
    requires forall i :: 1 <= i < |word| ==> !('A' <= word[i] <= 'Z')
    ensures ToLower(word) == lower
  {
    var r := ToLower(word);
    forall i | 0 <= i < |word| ensures r[i] == lower[i] {
      if i > 0 {
        assert word[i] == word[1..][i - 1] == lower[1..][i - 1] == lower[i];
      }
    }
  }

  /** The lower-cased names are "pending", "approved" and "rejected"; they
      tell the three statuses apart, and each differs from the unlowered name
      the update path answers with. */
  lemma LowerStatusNames(s: TransactionStatus, s': TransactionStatus)
    ensures ToLower(StatusName(Pending)) == "pending"
    ensures ToLower(StatusName(Approved)) == "approved"
    ensures ToLower(StatusName(Rejected)) == "rejected"
    ensures ToLower(StatusName(s)) == ToLower(StatusName(s')) <==> s == s'
    ensures ToLower(StatusName(s)) != StatusName(s')
  {
    LowerNameMatches(Pending);
    LowerNameMatches(Approved);
    LowerNameMatches(Rejected);
    var lower, lower' := LowerName(s), LowerName(s');
    assert lower[0] != StatusName(s')[0];
    assert s != s' ==> lower[0] != lower'[0];
  }

  /** `Handle` as written: the store is asked once, by primary key. The store
      raises `KeyNotFoundException` for an absent key instead of returning
      null, so the exception escapes and the null response is never given. */
  function Handle(repository: TransactionRepository, transactionId: Guid): (r: Result<Option<TransactionResponse>>)
    reads repository
    ensures r.Ok? <==> IndexOf(repository.rows, transactionId).Some?
    ensures r.Ok? ==> r.value == Some(ToResponse(repository.rows[IndexOf(repository.rows, transactionId).value]))
    ensures r.Err? ==> r.error == KeyNotFound
  {
    match repository.GetById(transactionId)
    case Err(e) => Err(e)
    case Ok(t) => Ok(Some(ToResponse(t)))
  }

  /** For a stored record the response carries its external id, creation
      time and lower-cased status; for an absent key the store's exception
      escapes, so the handler never answers null. */
  lemma HandleOutcomes(repository: TransactionRepository, transactionId: Guid)
    ensures
      var r := Handle(repository, transactionId);
      && (r.Ok? <==> exists i :: 0 <= i < |repository.rows| && repository.rows[i].id == transactionId)
      && (r.Ok? ==> r.value.Some? && r.value.value == ToResponse(repository.GetById(transactionId).value))
      && (r.Err? ==> r.error == KeyNotFound)
      && r != Ok(None)
  {
    match IndexOf(repository.rows, transactionId)
    case Some(i) =>
    case None =>
  }

  /** `Handle` as the handler and its callers intend it: an absent record
      yields the null response. */
  function HandleOrNull(repository: TransactionRepository, transactionId: Guid): (r: Option<TransactionResponse>)
    reads repository
    ensures r.None? <==> forall i :: 0 <= i < |repository.rows| ==> repository.rows[i].id != transactionId
    ensures r.Some? ==> Handle(repository, transactionId) == Ok(r)
  {
    match IndexOf(repository.rows, transactionId)
    case None => None
    case Some(i) => Some(ToResponse(repository.rows[i]))
  }
}
