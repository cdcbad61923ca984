/** The success body returned to the client. */
module ResponseDto {
  import opened TransactionEntity

  datatype WithdrawalResponse = WithdrawalResponse(
    transactionId: Uuid,
    amount: int,
    remainingBalance: int,
    status: string)

  /** WithdrawalResponse.from: projects a history row onto the response. */
  function From(h: TransactionHistory): (r: WithdrawalResponse)
    ensures r.transactionId == h.transactionId
    ensures r.amount == h.amount
    ensures r.remainingBalance == h.balanceSnapshot
    ensures r.status == "SUCCESS" <==> h.status == Success
  {
    WithdrawalResponse(h.transactionId, h.amount, h.balanceSnapshot, StatusName(h.status))
  }

  /** The projection keeps exactly the id, amount, snapshot and status of a
      row: it forgets the wallet and the transaction type. */
  lemma FromKeeps(h1: TransactionHistory, h2: TransactionHistory)
    ensures From(h1) == From(h2) <==>
      h1.transactionId == h2.transactionId && h1.amount == h2.amount &&
      h1.balanceSnapshot == h2.balanceSnapshot && h1.status == h2.status
  {
    EnumNamesInjective(h1.txType, h2.txType, h1.status, h2.status);
  }
}
