/** The exceptions the withdrawal pipeline can throw, with their messages. */
module Exceptions {
  import opened TransactionEntity
  import opened RequestDto
  import Decimal

  datatype Failure =
    | MethodArgumentNotValid(fieldErrors: seq<FieldError>)
    | DuplicateTransaction(message: string)
    | LockAcquisition(message: string)
    | WalletNotFound(walletId: WalletId)
    | IllegalArgument(message: string)
      /** Optional.orElseThrow() on an empty result. */
    | NoSuchElement
      /** Any other RuntimeException. */
    | Unexpected(message: string)

  /** "Transaction already processed." */
  const DuplicateTransactionMessage: string := "이미 처리된 트랜잭션입니다."
  /** "Please try again shortly." */
  const RetryLaterMessage: string := "잠시 후 다시 시도해주세요."
  const InsufficientBalanceMessage: string := "Insufficient balance"
  const ServerInterruptedMessage: string := "Server Interrupted"
  const NoValuePresentMessage: string := "No value present"

  /** getMessage() of each exception the handler passes on; a validation
      failure is reported through its field errors instead. */
  function Message(f: Failure): string
    requires !f.MethodArgumentNotValid?
  {
    match f
    case DuplicateTransaction(m) => m
    case LockAcquisition(m) => m
    case WalletNotFound(id) => "Wallet not found with ID: " + Decimal.LongToString(id)
    case IllegalArgument(m) => m
    case NoSuchElement => NoValuePresentMessage
    case Unexpected(m) => m
  }
}
