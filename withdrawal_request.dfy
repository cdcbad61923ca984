/** The withdrawal request body and its bean-validation constraints:
    transactionId is @NotNull, amount is @NotNull and @Positive. */
module RequestDto {
  import opened Wrappers
  import opened TransactionEntity

  /** A field the client may leave out is an Option (Java null). */
  datatype WithdrawalRequest = WithdrawalRequest(transactionId: Option<Uuid>, amount: Option<int>)
  {
    /** The request passes validation. */
    predicate IsValid() {
      transactionId.Some? && amount.Some? && amount.value > 0
    }
  }

  /** One violated constraint, as the binding result reports it. */
  datatype FieldError = FieldError(field: string, message: string)

  /** Default messages of the validation provider. */
  const NotNullMessage: string := "must not be null"
  const PositiveMessage: string := "must be greater than 0"

  /** Every violated constraint, in declaration order. @Positive accepts a
      null value, which only @NotNull rejects. */
  function Violations(req: WithdrawalRequest): (errors: seq<FieldError>)
    ensures errors == [] <==> req.IsValid()
    ensures |errors| <= 2
    ensures forall e :: e in errors ==>
      e == FieldError("transactionId", NotNullMessage) || e == FieldError("amount", NotNullMessage)
      || e == FieldError("amount", PositiveMessage)
    ensures |errors| == (if req.transactionId.None? then 1 else 0)
                        + (if req.amount.Some? && req.amount.value > 0 then 0 else 1)
    ensures req.transactionId.None? ==> errors[0] == FieldError("transactionId", NotNullMessage)
    ensures FieldError("transactionId", NotNullMessage) in errors <==> req.transactionId.None?
    ensures FieldError("amount", NotNullMessage) in errors <==> req.amount.None?
    ensures FieldError("amount", PositiveMessage) in errors <==> req.amount.Some? && req.amount.value <= 0
    ensures forall i :: 0 <= i < |errors| ==> errors[i].field == "transactionId" || errors[i].field == "amount"
  {
    var idErrors := if req.transactionId.None? then [FieldError("transactionId", NotNullMessage)] else [];
    var amountErrors :=
      if req.amount.None? then [FieldError("amount", NotNullMessage)]
      else if req.amount.value <= 0 then [FieldError("amount", PositiveMessage)]
      else [];
    idErrors + amountErrors
  }
}
