/** The delete-stream operation: how it reads the server's DeleteStreamCompleted
    response. */
module DeleteStreamOperation {
  import opened Wrappers
  import opened Inspection

  /** The operation's parameters. */
  datatype DeleteStream = DeleteStream(requireMaster: bool, stream: string, expectedVersion: int, hardDelete: bool)

  /** The parts of a DeleteStreamCompleted response the operation reads; an absent
      optional field is `None`. */
  datatype DeleteStreamCompleted = DeleteStreamCompleted(
    result: OperationResult,
    preparePosition: Option<int>,
    commitPosition: Option<int>)

  /** The public result of a delete. */
  datatype DeleteResult = DeleteResult(logPosition: Position)

  /** inspectResponseMessage: the decision for the response's result code and what
      it does to the future. Rejections carry the stream the delete was for. */
  function Inspect(op: DeleteStream, response: DeleteStreamCompleted): (r: Result<Inspected, IllegalArgumentException>)
    ensures FollowsTable(response.result, r)
    ensures r.Ok? && r.value.completion.Failed? ==>
      match r.value.completion.error
      case WrongExpectedVersionException(subject) => subject == DeletedStream(op.stream, op.expectedVersion)
      case StreamDeletedException(stream) => stream == Some(op.stream)
      case InvalidTransactionException => true
      case AccessDeniedException(stream) => stream == Some(op.stream)
  {
    match response.result
    case Success => Ok(Inspected(InspectionResult(EndOperation, "Success"), Succeeded))
    case PrepareTimeout => Ok(Inspected(InspectionResult(Retry, "PrepareTimeout"), Pending))
    case CommitTimeout => Ok(Inspected(InspectionResult(Retry, "CommitTimeout"), Pending))
    case ForwardTimeout => Ok(Inspected(InspectionResult(Retry, "ForwardTimeout"), Pending))
    case WrongExpectedVersion =>
      Ok(Inspected(InspectionResult(EndOperation, "WrongExpectedVersion"),
                   Failed(WrongExpectedVersionException(DeletedStream(op.stream, op.expectedVersion)))))
    case StreamDeleted =>
      Ok(Inspected(InspectionResult(EndOperation, "StreamDeleted"), Failed(StreamDeletedException(Some(op.stream)))))
    case InvalidTransaction =>
      Ok(Inspected(InspectionResult(EndOperation, "InvalidTransaction"), Failed(InvalidTransactionException)))
    case AccessDenied =>
      Ok(Inspected(InspectionResult(EndOperation, "AccessDenied"), Failed(AccessDeniedException(Some(op.stream)))))
    case Unrecognized(_) => Err(UnexpectedOperationResult(response.result))
  }

  /** transformResponseMessage: each reported position is taken as it is, and an
      absent one becomes -1. */
  function Transform(response: DeleteStreamCompleted): (r: DeleteResult)
    ensures response.commitPosition.Some? ==> r.logPosition.commitPosition == response.commitPosition.value
    ensures response.commitPosition.None? ==> r.logPosition.commitPosition == -1
    ensures response.preparePosition.Some? ==> r.logPosition.preparePosition == response.preparePosition.value
    ensures response.preparePosition.None? ==> r.logPosition.preparePosition == -1
  {
    var commitPosition := response.commitPosition.GetOr(-1);
    var preparePosition := response.preparePosition.GetOr(-1);
    DeleteResult(Position(commitPosition, preparePosition))
  }
}
