/** What a write-style operation (delete stream, commit transaction) makes of the
    result code in a server response: the decision handed back to the manager, a
    short description, and the effect on the operation's future. */
module Inspection {
  import opened Wrappers

  /** The server's OperationResult code. `Unrecognized` stands for every value
      outside the eight named ones. */
  datatype OperationResult =
    | Success
    | PrepareTimeout
    | CommitTimeout
    | ForwardTimeout
    | WrongExpectedVersion
    | StreamDeleted
    | InvalidTransaction
    | AccessDenied
    | Unrecognized(value: int)

  /** The name of a known code, as the enum constant spells it. */
  function Name(code: OperationResult): string
    requires !code.Unrecognized?
  {
    match code
    case Success => "Success"
    case PrepareTimeout => "PrepareTimeout"
    case CommitTimeout => "CommitTimeout"
    case ForwardTimeout => "ForwardTimeout"
    case WrongExpectedVersion => "WrongExpectedVersion"
    case StreamDeleted => "StreamDeleted"
    case InvalidTransaction => "InvalidTransaction"
    case AccessDenied => "AccessDenied"
  }

  datatype InspectionDecision = EndOperation | Retry | Reconnect

  datatype InspectionResult = InspectionResult(decision: InspectionDecision, description: string)

  /** What a rejected wrong-expected-version names: the stream and version of a
      delete, or the transaction of a commit. */
  datatype VersionSubject =
    | DeletedStream(stream: string, expectedVersion: int)
    | CommittedTransaction(transactionId: int)

  /** The exceptions an operation fails its future with. */
  datatype OperationError =
    | WrongExpectedVersionException(subject: VersionSubject)
    | StreamDeletedException(stream: Option<string>)
    | InvalidTransactionException
    | AccessDeniedException(stream: Option<string>)

  /** Thrown for a result code the operation does not handle. */
  datatype IllegalArgumentException = UnexpectedOperationResult(result: OperationResult)

  /** The effect of inspection on the operation's future: `succeed()`,
      `fail(error)`, or nothing at all. */
  datatype Completion = Succeeded | Failed(error: OperationError) | Pending

  /** One inspection: the returned result and the completion done on the way. */
  datatype Inspected = Inspected(result: InspectionResult, completion: Completion)

  /** The result code an exception reports. */
  function ErrorCode(e: OperationError): OperationResult {
    match e
    case WrongExpectedVersionException(_) => WrongExpectedVersion
    case StreamDeletedException(_) => StreamDeleted
    case InvalidTransactionException => InvalidTransaction
    case AccessDeniedException(_) => AccessDenied
  }

  /** A completion with its payload forgotten. */
  datatype CompletionShape = Resolved | RejectedFor(code: OperationResult) | Unresolved

  function Shape(c: Completion): CompletionShape {
    match c
    case Succeeded => Resolved
    case Failed(e) => RejectedFor(ErrorCode(e))
    case Pending => Unresolved
  }

  /** The result-code table shared by the write-style operations, written once as
      data: the decision and the kind of completion for each code, and nothing for
      a code the operations do not expect. */
  function WriteTable(code: OperationResult): Option<(InspectionDecision, CompletionShape)> {
    match code
    case Success => Some((EndOperation, Resolved))
    case PrepareTimeout => Some((Retry, Unresolved))
    case CommitTimeout => Some((Retry, Unresolved))
    case ForwardTimeout => Some((Retry, Unresolved))
    case WrongExpectedVersion => Some((EndOperation, RejectedFor(WrongExpectedVersion)))
    case StreamDeleted => Some((EndOperation, RejectedFor(StreamDeleted)))
    case InvalidTransaction => Some((EndOperation, RejectedFor(InvalidTransaction)))
    case AccessDenied => Some((EndOperation, RejectedFor(AccessDenied)))
    case Unrecognized(_) => None
  }

  /** An inspection of `code` follows the table: known codes give the table's
      decision and completion kind, described by the code's name; any other code
      is refused with an IllegalArgumentException. */
  ghost predicate FollowsTable(code: OperationResult, r: Result<Inspected, IllegalArgumentException>) {
    match WriteTable(code)
    case None => r == Err(UnexpectedOperationResult(code))
    case Some(entry) =>
      !code.Unrecognized? && r.Ok? &&
      r.value.result == InspectionResult(entry.0, Name(code)) &&
      Shape(r.value.completion) == entry.1
  }

  /** In the table, ending the operation and completing its future go together, and
      a retry is exactly a transient timeout code. */
  lemma TableEndsExactlyWhenCompleted(code: OperationResult)
    requires WriteTable(code).Some?
    ensures var entry := WriteTable(code).value;
      (entry.0 == EndOperation <==> entry.1 != Unresolved) &&
      (entry.0 == Retry <==> code in {PrepareTimeout, CommitTimeout, ForwardTimeout}) &&
      (entry.1.RejectedFor? ==> entry.1.code == code)
  {
  }

  /** Whatever an operation that follows the table returns, an EndOperation has
      completed the future and a Retry has left it pending. */
  lemma FollowingTableEndsExactlyWhenCompleted(code: OperationResult, r: Result<Inspected, IllegalArgumentException>)
    requires FollowsTable(code, r) && r.Ok?
    ensures r.value.result.decision == EndOperation <==> !r.value.completion.Pending?
    ensures r.value.result.decision == Retry <==> r.value.completion.Pending?
    ensures r.value.completion.Succeeded? <==> code == Success
    ensures r.value.completion.Failed? ==> ErrorCode(r.value.completion.error) == code
  {
    TableEndsExactlyWhenCompleted(code);
  }

  /** A log position; -1 in a field stands for "not reported". */
  datatype Position = Position(commitPosition: int, preparePosition: int)
}
