/** The commit-transaction operation: how it reads the server's
    TransactionCommitCompleted response. */
module CommitTransactionOperation {
  import opened Wrappers
  import opened Inspection
  import DeleteStreamOperation

  /** The operation's parameters. */
  datatype CommitTransaction = CommitTransaction(requireMaster: bool, transactionId: int)

  /** The parts of a TransactionCommitCompleted response the operation reads; an
      absent optional field is `None`. */
  datatype TransactionCommitCompleted = TransactionCommitCompleted(
    result: OperationResult,
    lastEventNumber: int,
    preparePosition: Option<int>,
    commitPosition: Option<int>)

  /** The public result of a write: the next expected version and the log position. */
  datatype WriteResult = WriteResult(nextExpectedVersion: int, logPosition: Position)

  /** inspectResponseMessage: the decision for the response's result code and what
      it does to the future. Only the wrong-expected-version rejection names
      something: the transaction. */
  function Inspect(op: CommitTransaction, response: TransactionCommitCompleted): (r: Result<Inspected, IllegalArgumentException>)
    ensures FollowsTable(response.result, r)
    ensures r.Ok? && r.value.completion.Failed? ==>
      match r.value.completion.error
      case WrongExpectedVersionException(subject) => subject == CommittedTransaction(op.transactionId)
      case StreamDeletedException(stream) => stream == None
      case InvalidTransactionException => true
      case AccessDeniedException(stream) => stream == None
  {
    match response.result
    case Success => Ok(Inspected(InspectionResult(EndOperation, "Success"), Succeeded))
    case PrepareTimeout => Ok(Inspected(InspectionResult(Retry, "PrepareTimeout"), Pending))
    case CommitTimeout => Ok(Inspected(InspectionResult(Retry, "CommitTimeout"), Pending))
    case ForwardTimeout => Ok(Inspected(InspectionResult(Retry, "ForwardTimeout"), Pending))
    case WrongExpectedVersion =>
      Ok(Inspected(InspectionResult(EndOperation, "WrongExpectedVersion"),
                   Failed(WrongExpectedVersionException(CommittedTransaction(op.transactionId)))))
    case StreamDeleted =>
      Ok(Inspected(InspectionResult(EndOperation, "StreamDeleted"), Failed(StreamDeletedException(None))))
    case InvalidTransaction =>
      Ok(Inspected(InspectionResult(EndOperation, "InvalidTransaction"), Failed(InvalidTransactionException)))
    case AccessDenied =>
      Ok(Inspected(InspectionResult(EndOperation, "AccessDenied"), Failed(AccessDeniedException(None))))
    case Unrecognized(_) => Err(UnexpectedOperationResult(response.result))
  }

  /** transformResponseMessage: the last event number is passed through as the next
      expected version; each reported position is taken as it is, and an absent one
      becomes -1. */
  function Transform(response: TransactionCommitCompleted): (r: WriteResult)
    ensures r.nextExpectedVersion == response.lastEventNumber
    ensures response.commitPosition.Some? ==> r.logPosition.commitPosition == response.commitPosition.value
    ensures response.commitPosition.None? ==> r.logPosition.commitPosition == -1
    ensures response.preparePosition.Some? ==> r.logPosition.preparePosition == response.preparePosition.value
    ensures response.preparePosition.None? ==> r.logPosition.preparePosition == -1
  {
    var commitPosition := response.commitPosition.GetOr(-1);
    var preparePosition := response.preparePosition.GetOr(-1);
    WriteResult(response.lastEventNumber, Position(commitPosition, preparePosition))
  }

  /** The commit and the delete decide every result code alike: the same error or
      the same decision, description and kind of completion. Only the payloads of
      the errors differ. */
  lemma SameTableAsDeleteStream(
    commit: CommitTransaction, commitResponse: TransactionCommitCompleted,
    delete: DeleteStreamOperation.DeleteStream, deleteResponse: DeleteStreamOperation.DeleteStreamCompleted)
    requires commitResponse.result == deleteResponse.result
    ensures var c := Inspect(commit, commitResponse);
            var d := DeleteStreamOperation.Inspect(delete, deleteResponse);
            c.Ok? == d.Ok? &&
            (c.Err? ==> c == d) &&
            (c.Ok? ==> c.value.result == d.value.result && Shape(c.value.completion) == Shape(d.value.completion))
  {
  }

  /** Both operations default absent positions the same way. */
  lemma SamePositionsAsDeleteStream(response: TransactionCommitCompleted)
    ensures Transform(response).logPosition ==
            DeleteStreamOperation.Transform(
              DeleteStreamOperation.DeleteStreamCompleted(response.result, response.preparePosition, response.commitPosition)).logPosition
  {
  }
}
