/** GlobalExceptionHandler: turns an exception that reached the controller
    into an HTTP status and an error body { code, message }. */
module ExceptionHandling {
  import opened TransactionEntity
  import opened Exceptions

  /** The six @ExceptionHandler methods. */
  datatype Handler =
    | ValidationHandler
    | DuplicateTransactionHandler
    | LockAcquisitionHandler
    | WalletNotFoundHandler
    | IllegalArgumentHandler
    | FallbackHandler

  /** The handler Spring selects: the one declared for the closest exception
      type; everything without its own handler falls to Exception. */
  function HandlerFor(f: Failure): Handler {
    match f
    case MethodArgumentNotValid(_) => ValidationHandler
    case DuplicateTransaction(_) => DuplicateTransactionHandler
    case LockAcquisition(_) => LockAcquisitionHandler
    case WalletNotFound(_) => WalletNotFoundHandler
    case IllegalArgument(_) => IllegalArgumentHandler
    case NoSuchElement => FallbackHandler
    case Unexpected(_) => FallbackHandler
  }

  datatype ErrorReply = ErrorReply(status: nat, code: string, message: string)

  const InvalidRequestMessage: string := "Invalid Request"
  const UnexpectedErrorMessage: string := "An unexpected error occurred."

  /** The reply each handler builds. */
  function Handle(f: Failure): (r: ErrorReply)
    ensures r.status in {400, 404, 409, 429, 500}
    ensures HandlerFor(f) == ValidationHandler ==> r.status == 400 && r.code == "INVALID_INPUT"
    ensures HandlerFor(f) == DuplicateTransactionHandler ==> r.status == 409 && r.code == "DUPLICATE_TRANSACTION"
    ensures HandlerFor(f) == LockAcquisitionHandler ==> r.status == 429 && r.code == "LOCK_ACQUISITION_FAILED"
    ensures HandlerFor(f) == WalletNotFoundHandler ==> r.status == 404 && r.code == "WALLET_NOT_FOUND"
    ensures HandlerFor(f) == IllegalArgumentHandler ==> r.status == 400 && r.code == "BAD_REQUEST"
    ensures HandlerFor(f) == FallbackHandler ==> r.code == "INTERNAL_SERVER_ERROR"
    ensures r.status == 500 <==> HandlerFor(f) == FallbackHandler
    ensures r.status == 500 ==> r.message == UnexpectedErrorMessage
    ensures r.status != 500 && !f.MethodArgumentNotValid? ==> r.message == Message(f)
    ensures f.MethodArgumentNotValid? ==>
      r.message == if f.fieldErrors == [] then InvalidRequestMessage else f.fieldErrors[0].message
  {
    match HandlerFor(f)
    case ValidationHandler =>
      var message := if f.fieldErrors == [] then InvalidRequestMessage else f.fieldErrors[0].message;
      ErrorReply(400, "INVALID_INPUT", message)
    case DuplicateTransactionHandler => ErrorReply(409, "DUPLICATE_TRANSACTION", Message(f))
    case LockAcquisitionHandler => ErrorReply(429, "LOCK_ACQUISITION_FAILED", Message(f))
    case WalletNotFoundHandler => ErrorReply(404, "WALLET_NOT_FOUND", Message(f))
    case IllegalArgumentHandler => ErrorReply(400, "BAD_REQUEST", Message(f))
    case FallbackHandler => ErrorReply(500, "INTERNAL_SERVER_ERROR", UnexpectedErrorMessage)
  }

  /** The error code names the handler that ran, and with it the status: two
      failures share a code exactly when the same handler took them. */
  lemma CodeIdentifiesHandler(f1: Failure, f2: Failure)
    ensures Handle(f1).code == Handle(f2).code <==> HandlerFor(f1) == HandlerFor(f2)
    ensures Handle(f1).code == Handle(f2).code ==> Handle(f1).status == Handle(f2).status
  {
  }

  /** The replies for the failures the withdrawal pipeline raises, and for
      a missing wallet, whatever their messages. */
  lemma PipelineFailureReplies(m: string, id: WalletId)
    ensures Handle(DuplicateTransaction(m)) == ErrorReply(409, "DUPLICATE_TRANSACTION", m)
    ensures Handle(IllegalArgument(m)) == ErrorReply(400, "BAD_REQUEST", m)
    ensures Handle(LockAcquisition(m)) == ErrorReply(429, "LOCK_ACQUISITION_FAILED", m)
    ensures Handle(WalletNotFound(id))
      == ErrorReply(404, "WALLET_NOT_FOUND", Message(WalletNotFound(id)))
    ensures Handle(IllegalArgument(InsufficientBalanceMessage))
      == ErrorReply(400, "BAD_REQUEST", "Insufficient balance")
    ensures Handle(NoSuchElement) == ErrorReply(500, "INTERNAL_SERVER_ERROR", UnexpectedErrorMessage)
    ensures Handle(Unexpected(ServerInterruptedMessage))
      == ErrorReply(500, "INTERNAL_SERVER_ERROR", UnexpectedErrorMessage)
  {
  }
}
