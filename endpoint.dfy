/** POST /api/wallets/{walletId}/withdraw: validates the body, runs the
    facade and renders either the success body with status 200 or the
    error reply of the exception handler. */
module Endpoint {
  import opened Wrappers
  import opened TransactionEntity
  import opened RequestDto
  import opened ResponseDto
  import opened Exceptions
  import opened ExceptionHandling
  import opened WalletEngine
  import opened LockFacade

  datatype Body = SuccessBody(response: WithdrawalResponse) | ErrorBody(code: string, message: string)

  datatype Exchange = Exchange(status: nat, body: Body, after: Ledger, effects: seq<Effect>)

  function Render(result: Result<WithdrawalResponse, Failure>): (r: (nat, Body))
    ensures result.Ok? ==> r == (200, SuccessBody(result.value))
    ensures result.Err? ==>
      var reply := Handle(result.error);
      r == (reply.status, ErrorBody(reply.code, reply.message)) && r.0 != 200
  {
    match result
    case Ok(response) => (200, SuccessBody(response))
    case Err(f) =>
      var reply := Handle(f);
      (reply.status, ErrorBody(reply.code, reply.message))
  }

  function PostWithdraw(l: Ledger, walletId: WalletId, body: WithdrawalRequest,
                        attempt: LockAttempt, unlock: UnlockResult): (x: Exchange)
    // an invalid body is rejected before the facade: no lock, no store access
    ensures !body.IsValid() ==>
      && x.status == 400 && x.after == l && x.effects == []
      && x.body == ErrorBody("INVALID_INPUT", Violations(body)[0].message)
    ensures body.IsValid() ==>
      var o := LockedWithdraw(l, walletId, body, attempt, unlock);
      && x.after == o.after && x.effects == o.effects
      && (x.status == 200 <==> o.result.Ok?)
      && (o.result.Ok? ==> x.body == SuccessBody(o.result.value))
      && (o.result.Err? ==>
            x.status == Handle(o.result.error).status
            && x.body == ErrorBody(Handle(o.result.error).code, Handle(o.result.error).message))
    ensures x.status == 200 ==> x.body.SuccessBody? && x.body.response.status == "SUCCESS"
  {
    if !body.IsValid() then
      var reply := Handle(MethodArgumentNotValid(Violations(body)));
      Exchange(reply.status, ErrorBody(reply.code, reply.message), l, [])
    else
      var o := LockedWithdraw(l, walletId, body, attempt, unlock);
      var (status, rendered) := Render(o.result);
      Exchange(status, rendered, o.after, o.effects)
  }

  /** Scenario: a wallet holding 5000 asked for 10000 answers 400
      "Insufficient balance" and keeps its 5000. */
  lemma InsufficientBalanceScenario()
    ensures var l := Ledger(map[1 := 5000], map[]);
      var x := PostWithdraw(l, 1, WithdrawalRequest(Some(7), Some(10000)), Acquired, Released);
      && x.status == 400 && x.body == ErrorBody("BAD_REQUEST", "Insufficient balance")
      && x.after.balances[1] == 5000
  {
  }

  /** Scenario: 1000 taken from 10000, then the same transaction id sent
      again: the repeat answers 409 and the balance stays at 9000 (the
      code rejects a repeat instead of replaying the first answer). */
  lemma ResubmissionScenario()
    ensures var l := Ledger(map[1 := 10000], map[]);
      var req := WithdrawalRequest(Some(7), Some(1000));
      var first := PostWithdraw(l, 1, req, Acquired, Released);
      var second := PostWithdraw(first.after, 1, req, Acquired, Released);
      && first.status == 200 && first.body.response.remainingBalance == 9000
      && second.status == 409 && second.body == ErrorBody("DUPLICATE_TRANSACTION", DuplicateTransactionMessage)
      && second.after.balances[1] == 9000
  {
  }
}
