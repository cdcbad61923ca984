/** Sequences of withdrawals against one store: what holds after any
    number of calls, one after another. */
module WithdrawalRuns {
  import opened Wrappers
  import opened TransactionEntity
  import opened RequestDto
  import opened ResponseDto
  import opened Exceptions
  import opened WalletEngine

  datatype Call = Call(walletId: WalletId, request: WithdrawalRequest)

  predicate AllValid(calls: seq<Call>) {
    forall i :: 0 <= i < |calls| ==> calls[i].request.IsValid()
  }

  datatype Run = Run(results: seq<Result<WithdrawalResponse, Failure>>, final: Ledger)

  /** The calls applied in order, each to the store the previous one left. */
  function RunAll(l: Ledger, calls: seq<Call>): (r: Run)
    requires AllValid(calls)
    ensures |r.results| == |calls|
    decreases |calls|
  {
    if calls == [] then Run([], l)
    else
      var o := WithdrawStep(l, calls[0].walletId, calls[0].request);
      var rest := RunAll(o.after, calls[1..]);
      Run([o.result] + rest.results, rest.final)
  }

  /** What the calls that reported success took from wallet w. */
  function Debited(w: WalletId, calls: seq<Call>, results: seq<Result<WithdrawalResponse, Failure>>): int
    requires |results| == |calls| && AllValid(calls)
  {
    if calls == [] then 0
    else
      (if calls[0].walletId == w && results[0].Ok? then calls[0].request.amount.value else 0)
      + Debited(w, calls[1..], results[1..])
  }

  function Successes(results: seq<Result<WithdrawalResponse, Failure>>): nat {
    if results == [] then 0 else (if results[0].Ok? then 1 else 0) + Successes(results[1..])
  }

  /** Conservation: the final balance plus what the successful calls report
      having taken equals the initial balance. */
  lemma {:induction false} Conservation(l: Ledger, calls: seq<Call>, w: WalletId)
    requires AllValid(calls) && w in l.balances
    ensures var r := RunAll(l, calls);
      w in r.final.balances && r.final.balances[w] + Debited(w, calls, r.results) == l.balances[w]
    decreases |calls|
  {
    if calls != [] {
      var o := WithdrawStep(l, calls[0].walletId, calls[0].request);
      Conservation(o.after, calls[1..], w);
      var r := RunAll(l, calls);
      assert r.results[1..] == RunAll(o.after, calls[1..]).results;
    }
  }

  /** No sequence of calls drives a balance negative. */
  lemma {:induction false} RunKeepsValid(l: Ledger, calls: seq<Call>)
    requires AllValid(calls) && l.Valid()
    ensures RunAll(l, calls).final.Valid()
    ensures RunAll(l, calls).final.balances.Keys == l.balances.Keys
    decreases |calls|
  {
    if calls != [] {
      RunKeepsValid(WithdrawStep(l, calls[0].walletId, calls[0].request).after, calls[1..]);
    }
  }

  /** The history only grows, by exactly one row per successful call. */
  lemma {:induction false} HistoryGrowsBySuccesses(l: Ledger, calls: seq<Call>)
    requires AllValid(calls)
    ensures var r := RunAll(l, calls);
      AppendOnly(l.history, r.final.history) && |r.final.history| == |l.history| + Successes(r.results)
    decreases |calls|
  {
    if calls != [] {
      var o := WithdrawStep(l, calls[0].walletId, calls[0].request);
      HistoryGrowsBySuccesses(o.after, calls[1..]);
      var r := RunAll(l, calls);
      assert r.results[1..] == RunAll(o.after, calls[1..]).results;
      AppendOnlyTransitive(l.history, o.after.history, r.final.history);
      if o.result.Ok? {
        assert o.after.history.Keys == l.history.Keys + {calls[0].request.transactionId.value};
      }
    }
  }

  /** Once a transaction id has a row, every later call with it is rejected
      as a duplicate. */
  lemma {:induction false} CommittedIdRejected(l: Ledger, calls: seq<Call>, t: Uuid)
    requires AllValid(calls) && t in l.history
    ensures forall j :: 0 <= j < |calls| && calls[j].request.transactionId == Some(t) ==>
      RunAll(l, calls).results[j] == Err(DuplicateTransaction(DuplicateTransactionMessage))
    decreases |calls|
  {
    if calls != [] {
      var o := WithdrawStep(l, calls[0].walletId, calls[0].request);
      CommittedIdRejected(o.after, calls[1..], t);
      var r := RunAll(l, calls);
      assert r.results[1..] == RunAll(o.after, calls[1..]).results;
      forall j | 0 <= j < |calls| && calls[j].request.transactionId == Some(t)
        ensures r.results[j] == Err(DuplicateTransaction(DuplicateTransactionMessage))
      {
        if j > 0 {
          assert calls[1..][j - 1] == calls[j];
        }
      }
    }
  }

  /** A transaction id is debited at most once: after it succeeds, any
      repetition of it is rejected. */
  lemma {:induction false} AtMostOnce(l: Ledger, calls: seq<Call>)
    requires AllValid(calls)
    ensures var r := RunAll(l, calls);
      forall i, j ::
        (0 <= i < j < |calls| && calls[i].request.transactionId == calls[j].request.transactionId
         && r.results[i].Ok?) ==> r.results[j] == Err(DuplicateTransaction(DuplicateTransactionMessage))
    decreases |calls|
  {
    if calls != [] {
      var o := WithdrawStep(l, calls[0].walletId, calls[0].request);
      var rest := calls[1..];
      AtMostOnce(o.after, rest);
      var r := RunAll(l, calls);
      assert r.results[1..] == RunAll(o.after, rest).results;
      if o.result.Ok? {
        CommittedIdRejected(o.after, rest, calls[0].request.transactionId.value);
      }
      forall i, j | 0 <= i < j < |calls| && calls[i].request.transactionId == calls[j].request.transactionId
        && r.results[i].Ok?
        ensures r.results[j] == Err(DuplicateTransaction(DuplicateTransactionMessage))
      {
        assert rest[j - 1] == calls[j];
        if i > 0 {
          assert rest[i - 1] == calls[i];
        }
      }
    }
  }

  function SumAmounts(calls: seq<Call>): int
    requires AllValid(calls)
  {
    if calls == [] then 0 else calls[0].request.amount.value + SumAmounts(calls[1..])
  }

  /** Fresh, distinct transaction ids against one wallet whose balance
      covers their total: every call succeeds and the balance drops by the
      total (a balance equal to the total ends at 0). */
  lemma {:induction false} FundedCallsAllSucceed(l: Ledger, calls: seq<Call>, w: WalletId)
    requires AllValid(calls) && w in l.balances
    requires forall i :: 0 <= i < |calls| ==> calls[i].walletId == w
    requires forall i :: 0 <= i < |calls| ==> calls[i].request.transactionId.value !in l.history
    requires forall i, j :: 0 <= i < j < |calls| ==>
      calls[i].request.transactionId != calls[j].request.transactionId
    requires SumAmounts(calls) <= l.balances[w]
    ensures var r := RunAll(l, calls);
      && (forall i :: 0 <= i < |calls| ==> r.results[i].Ok?)
      && w in r.final.balances && r.final.balances[w] == l.balances[w] - SumAmounts(calls)
    decreases |calls|
  {
    if calls != [] {
      var o := WithdrawStep(l, calls[0].walletId, calls[0].request);
      var rest := calls[1..];
      assert SumAmounts(rest) > 0 || rest == [] by {
        PositiveSum(rest);
      }
      forall i | 0 <= i < |rest|
        ensures rest[i].request.transactionId.value !in o.after.history
      {
        assert rest[i] == calls[i + 1];
      }
      forall i, j | 0 <= i < j < |rest|
        ensures rest[i].request.transactionId != rest[j].request.transactionId
      {
        assert rest[i] == calls[i + 1] && rest[j] == calls[j + 1];
      }
      FundedCallsAllSucceed(o.after, rest, w);
      var r := RunAll(l, calls);
      assert r.results[1..] == RunAll(o.after, rest).results;
      forall i | 0 <= i < |calls| ensures r.results[i].Ok? {
        if i > 0 {
          assert r.results[i] == r.results[1..][i - 1];
        }
      }
    }
  }

  lemma {:induction false} PositiveSum(calls: seq<Call>)
    requires AllValid(calls)
    ensures calls != [] ==> SumAmounts(calls) > 0
    ensures SumAmounts(calls) >= 0
    decreases |calls|
  {
    if calls != [] {
      PositiveSum(calls[1..]);
    }
  }
}
