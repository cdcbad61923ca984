/** WalletService.withdraw: the transactional debit. The store is two maps,
    wallet id to balance and transaction id to history row; the
    transaction is all-or-nothing, so a call that throws leaves both maps
    as they were. */
module WalletEngine {
  import opened Wrappers
  import opened TransactionEntity
  import opened RequestDto
  import opened ResponseDto
  import opened Exceptions

  datatype Ledger = Ledger(balances: map<WalletId, int>, history: HistoryTable)
  {
    /** Balances are never negative and fit their column; history rows sit
        under their own transaction id. */
    ghost predicate Valid() {
      && (forall w :: w in balances ==> 0 <= balances[w] && FitsMoneyColumn(balances[w]))
      && KeyedById(history)
    }
  }

  /** What one call returns or throws, and the store after it. */
  datatype Outcome = Outcome(result: Result<WithdrawalResponse, Failure>, after: Ledger)

  /** Wallet.decreaseBalance: rejects a debit larger than the balance and
      allows one that empties the wallet. */
  function DecreaseBalance(balance: int, amount: int): (r: Result<int, Failure>)
    requires amount > 0
    ensures r.Ok? <==> amount <= balance
    ensures r.Ok? ==> r.value + amount == balance && r.value < balance
    ensures r.Err? ==> r.error == IllegalArgument(InsufficientBalanceMessage)
  {
    if amount > balance then Err(IllegalArgument(InsufficientBalanceMessage)) else Ok(balance - amount)
  }

  /** The history row a successful withdrawal writes. */
  function WithdrawalRecord(walletId: WalletId, req: WithdrawalRequest, newBalance: int): TransactionHistory
    requires req.IsValid()
  {
    TransactionHistory(req.transactionId.value, walletId, Withdrawal, req.amount.value, newBalance, Success)
  }

  /** One call of withdraw(walletId, req, useDbLock); the flag only picks
      findByIdForUpdate or findById, which read the same row. */
  function WithdrawStep(l: Ledger, walletId: WalletId, req: WithdrawalRequest): (o: Outcome)
    requires req.IsValid()
    // all or nothing
    ensures o.result.Err? ==> o.after == l
    // the duplicate check comes first, before the wallet is read
    ensures req.transactionId.value in l.history ==>
      o.result == Err(DuplicateTransaction(DuplicateTransactionMessage))
    ensures req.transactionId.value !in l.history && walletId !in l.balances ==>
      o.result == Err(NoSuchElement)
    ensures req.transactionId.value !in l.history && walletId in l.balances
            && req.amount.value > l.balances[walletId] ==>
      o.result == Err(IllegalArgument(InsufficientBalanceMessage))
    ensures o.result.Ok? <==>
      req.transactionId.value !in l.history && walletId in l.balances
      && req.amount.value <= l.balances[walletId]
    // on success: one debit, one new row, a response echoing the request
    ensures o.result.Ok? ==>
      var newBalance := l.balances[walletId] - req.amount.value;
      && o.after.balances == l.balances[walletId := newBalance]
      && o.after.history == l.history[req.transactionId.value := WithdrawalRecord(walletId, req, newBalance)]
      && o.result.value == WithdrawalResponse(req.transactionId.value, req.amount.value, newBalance, "SUCCESS")
    ensures o.after.balances.Keys == l.balances.Keys
    ensures AppendOnly(l.history, o.after.history)
    ensures l.Valid() ==> o.after.Valid()
  {
    var txId := req.transactionId.value;
    if txId in l.history then
      Outcome(Err(DuplicateTransaction(DuplicateTransactionMessage)), l)
    else if walletId !in l.balances then
      Outcome(Err(NoSuchElement), l)
    else
      match DecreaseBalance(l.balances[walletId], req.amount.value)
      case Err(e) => Outcome(Err(e), l)
      case Ok(newBalance) =>
        var row := WithdrawalRecord(walletId, req, newBalance);
        match Save(l.history, row)
        case None => Outcome(Err(Unexpected("duplicate key")), l)
        case Some(history) =>
          Outcome(Ok(From(row)), Ledger(l.balances[walletId := newBalance], history))
  }

  /** A successful withdrawal's row fits the scale-2 columns whenever the
      balance it was taken from did. */
  lemma RecordFitsColumns(l: Ledger, walletId: WalletId, req: WithdrawalRequest)
    requires req.IsValid() && l.Valid()
    requires WithdrawStep(l, walletId, req).result.Ok?
    ensures var row := WithdrawStep(l, walletId, req).after.history[req.transactionId.value];
      && row.transactionId == req.transactionId.value && row.walletId == walletId
      && row.txType == Withdrawal && row.status == Success
      && FitsMoneyColumn(row.amount) && FitsMoneyColumn(row.balanceSnapshot)
      && 0 <= row.balanceSnapshot < l.balances[walletId]
  {
  }

  /** The repository state behind WalletService. */
  class WalletService {
    var balances: map<WalletId, int>
    var history: HistoryTable

    function State(): Ledger
      reads this
    {
      Ledger(balances, history)
    }

    ghost predicate Valid()
      reads this
    {
      State().Valid()
    }

    constructor (initial: map<WalletId, int>)
      ensures balances == initial && history == map[]
    {
      balances := initial;
      history := map[];
    }

    method Withdraw(walletId: WalletId, req: WithdrawalRequest, useDbLock: bool)
      returns (r: Result<WithdrawalResponse, Failure>)
      requires req.IsValid()
      modifies this
      ensures Outcome(r, State()) == WithdrawStep(old(State()), walletId, req)
      ensures old(Valid()) ==> Valid()
    {
      var txId := req.transactionId.value;
      if txId in history {
        return Err(DuplicateTransaction(DuplicateTransactionMessage));
      }
      // findByIdForUpdate(walletId) when useDbLock, else findById(walletId):
      // both read the same row; only the row lock differs.
      var found := if walletId in balances then Some(balances[walletId]) else None;
      if found.None? {
        return Err(NoSuchElement);
      }
      var debit := DecreaseBalance(found.value, req.amount.value);
      if debit.Err? {
        return Err(debit.error);
      }
      var row := TransactionHistory(txId, walletId, Withdrawal, req.amount.value, debit.value, Success);
      balances := balances[walletId := debit.value];
      history := history[txId := row];
      r := Ok(From(row));
    }
  }
}
