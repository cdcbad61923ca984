# Wallet withdrawal pipeline, modelled in Dafny

This project models the withdrawal path of the wallet server:

- `POST /api/wallets/{walletId}/withdraw` validates the body (`RequestDto`).
- It passes the request to the lock facade (`LockFacade`). The facade takes the wallet's
  distributed lock `wallet:lock:<id>`. If the lock service is unreachable, it falls back to the
  database row lock.
- The facade calls the transactional debit (`WalletEngine`). The debit rejects a transaction id
  already recorded, reads the wallet, decreases its balance, and appends one immutable
  `transaction_history` row (`TransactionEntity`).
- It answers with a projection of that row (`ResponseDto`). Any exception that escapes becomes an
  HTTP error reply (`ExceptionHandling`).

The store is two maps: wallet id to balance, and transaction id to history row (`Ledger`).
Money is in integer minor units, because the columns are DECIMAL(19, 2). A transaction either
commits or leaves both maps as they were.

The lock service is not modelled itself. Each facade call instead takes two inputs: how the
attempt to take the lock ends (`LockAttempt`: acquired, wait expired, Redis fault, interrupted)
and how giving it back ends (`UnlockResult`). The facade records what it does as a trace of
`Effect`s. It also keeps a ghost `held` flag.

`WalletService` and `WalletLockFacade` are classes whose methods update their state in place.
Each method is proved equal to a pure function (`WithdrawStep`, `LockedWithdraw`). The lemmas
about several calls in a row are stated over those functions.

Where the repository's own code points two ways, this model follows the code that runs:

- A repeated transaction id is rejected with 409 DUPLICATE_TRANSACTION, not answered with the
  first call's result. The test at `WalletIdempotencyTest.java:47-53` expects a replayed success
  answer for the repeat; `WalletService.withdraw` throws instead.
- A missing wallet throws `NoSuchElementException` from `orElseThrow()`, which maps to 500. The
  handler at `GlobalExceptionHandler.java:47-54` maps `WalletNotFoundException` to 404
  WALLET_NOT_FOUND, but no code shown throws that exception; only its mapping is modelled.
- The service's lock mode is the boolean `useDbLock`: `true` reads the wallet with the row lock,
  `false` without it.

## Model

| member | source | states |
|---|---|---|
| `Decimal.LongRoundTrip` | src/main/java/com/walletserver/wallet/facade/WalletLockFacade.java:30 | the decimal text of a wallet id (sign, digits, no leading zero) reads back as that id |
| `Decimal.LongToStringInjective` | src/main/java/com/walletserver/wallet/facade/WalletLockFacade.java:30 | two wallet ids have the same decimal text exactly when they are equal |
| `LockFacade.LockKey` | src/main/java/com/walletserver/wallet/facade/WalletLockFacade.java:30-31 | the lock name is the prefix `wallet:lock:` followed by a non-empty rendering of the id |
| `LockFacade.LockKeyRoundTrip` | src/main/java/com/walletserver/wallet/facade/WalletLockFacade.java:30-31 | the wallet id can be recovered from its lock name |
| `LockFacade.LockKeysDistinct` | src/main/java/com/walletserver/wallet/facade/WalletLockFacade.java:30-31 | two wallets share a lock name exactly when they are the same wallet |
| `TransactionEntity.TypeName` | src/main/java/com/walletserver/transaction/entity/TransactionHistory.java:75-77 | the stored name of a transaction type is non-empty and fits the length-20 column |
| `TransactionEntity.StatusName` | src/main/java/com/walletserver/transaction/entity/TransactionHistory.java:79-81 | the stored name of a status is non-empty and fits the length-20 column |
| `TransactionEntity.EnumNamesInjective` | src/main/java/com/walletserver/transaction/entity/TransactionHistory.java:40-52 | a stored enum name identifies its constant, for both type and status |
| `TransactionEntity.AppendOnlyTransitive` | src/main/java/com/walletserver/transaction/entity/TransactionHistory.java:34-56 | "no row ever changes once written" (all columns updatable = false) composes over successive writes |
| `TransactionEntity.Save` | src/main/java/com/walletserver/transaction/entity/TransactionHistory.java:34-35 | an insert succeeds exactly when its transactionId is new; it then keeps every old row, adds one row under its id, and keeps ids unique |
| `RequestDto.Violations` | src/main/java/com/walletserver/transaction/dto/WithdrawalRequest.java:9-12 | no violation exactly when both fields are present and amount > 0; a missing id, a missing amount and an amount <= 0 each produce their own field error, nothing else is reported, and a missing id is reported first |
| `ResponseDto.From` | src/main/java/com/walletserver/transaction/dto/WithdrawalResponse.java:14-21 | the response carries the row's transactionId, amount, and balance snapshot as remainingBalance; status is "SUCCESS" exactly when the row's status is SUCCESS |
| `ResponseDto.FromKeeps` | src/main/java/com/walletserver/transaction/dto/WithdrawalResponse.java:14-21 | two rows give the same response exactly when they agree on id, amount, snapshot and status |
| `ExceptionHandling.Handle` | src/main/java/com/walletserver/common/exception/GlobalExceptionHandler.java:18-70 | each handler's status and code: validation 400 INVALID_INPUT, duplicate 409 DUPLICATE_TRANSACTION, busy lock 429 LOCK_ACQUISITION_FAILED, wallet not found 404 WALLET_NOT_FOUND, illegal argument 400 BAD_REQUEST, anything else 500 INTERNAL_SERVER_ERROR; a 500 always carries the fixed message; other replies carry the exception's message; a validation error carries the first field error's message or "Invalid Request" |
| `ExceptionHandling.CodeIdentifiesHandler` | src/main/java/com/walletserver/common/exception/GlobalExceptionHandler.java:18-70 | two failures get the same error code exactly when the same handler takes them, and the same code always comes with the same status |
| `ExceptionHandling.PipelineFailureReplies` | src/main/java/com/walletserver/common/exception/GlobalExceptionHandler.java:31-70 | for any message: duplicate gives 409, illegal argument gives 400 BAD_REQUEST (so "Insufficient balance" is passed through), busy lock gives 429, WalletNotFound gives 404 WALLET_NOT_FOUND; a missing wallet (NoSuchElement) or "Server Interrupted" gives 500 |
| `WalletEngine.DecreaseBalance` | src/test/java/com/walletserver/wallet/service/WalletServiceTest.java:82-104 | a debit succeeds exactly when amount <= balance; the new balance plus the amount is the old balance; otherwise IllegalArgument("Insufficient balance") |
| `WalletEngine.WithdrawStep` | src/main/java/com/walletserver/wallet/service/WalletService.java:23-47 | a known transaction id gives DuplicateTransaction, even for a missing wallet; then a missing wallet gives NoSuchElement; then amount > balance gives IllegalArgument. Any failure leaves the store unchanged. Success happens exactly when none of these apply: it debits that wallet only, adds exactly one WITHDRAWAL/SUCCESS row whose snapshot is the new balance, and echoes id, amount and new balance. Wallets, row immutability and validity are preserved |
| `WalletEngine.RecordFitsColumns` | src/main/java/com/walletserver/transaction/entity/TransactionHistory.java:44-48 | a successful row carries the request's id and wallet, and its amount and snapshot fit DECIMAL(19, 2) whenever the balance did |
| `WalletEngine.WalletService.Withdraw` | src/main/java/com/walletserver/wallet/service/WalletService.java:24-47 | the imperative service returns and leaves exactly what `WithdrawStep` describes, whatever `useDbLock` is, and keeps balances non-negative |
| `WithdrawalRuns.Conservation` | src/test/java/com/walletserver/wallet/facade/WalletConcurrencyTest.java:89-91 | after any sequence of calls, a wallet's final balance plus the amounts its successful calls report equals its initial balance |
| `WithdrawalRuns.RunKeepsValid` | src/test/java/com/walletserver/wallet/facade/WalletFallbackConcurrencyTest.java:101-102 | no sequence of calls makes a balance negative or adds or removes a wallet |
| `WithdrawalRuns.HistoryGrowsBySuccesses` | src/main/java/com/walletserver/wallet/service/WalletService.java:35-44 | over a sequence of calls, the history keeps every old row and grows by exactly one row per successful call |
| `WithdrawalRuns.CommittedIdRejected` | src/main/java/com/walletserver/wallet/service/WalletService.java:25-27 | once a transaction id has a row, every later call with that id is rejected as a duplicate |
| `WithdrawalRuns.AtMostOnce` | src/main/java/com/walletserver/wallet/service/WalletService.java:25-27 | in any sequence, a call that repeats the id of an earlier successful call is rejected as a duplicate |
| `WithdrawalRuns.FundedCallsAllSucceed` | src/test/java/com/walletserver/wallet/e2e/WalletE2ETest.java:128-133 | fresh, distinct ids against one wallet whose balance covers their total all succeed, and the balance falls by exactly that total (to 0 when they are equal) |
| `LockFacade.LockedWithdraw` | src/main/java/com/walletserver/wallet/facade/WalletLockFacade.java:29-54 | wait expired gives LockAcquisition with no service call; interrupted gives "Server Interrupted" with no service call; a Redis fault gives one row-locked call whose outcome is returned; acquired gives one unlocked call whose outcome is returned, then exactly one unlock; an unlock fault gives a second row-locked call. The unlocked service call happens only while the wallet's own lock is held, and the lock is not held at the end |
| `LockFacade.UnlockFaultAfterRejection` | src/main/java/com/walletserver/wallet/facade/WalletLockFacade.java:40-48 | when the locked call failed, an unlock fault repeats the same failure and leaves the store unchanged, so the error reaches the caller as it was |
| `LockFacade.UnlockFaultHidesDebit` | src/main/java/com/walletserver/wallet/facade/WalletLockFacade.java:40-48 | when the locked call committed, an unlock fault re-runs the service, which rejects the repeat as a duplicate, although the debit stays |
| `LockFacade.UnlockFaultExample` | src/main/java/com/walletserver/wallet/facade/WalletLockFacade.java:40-48 | concretely: 1000 from 5000 with an unlock fault answers DuplicateTransaction and leaves 4000 |
| `LockFacade.AsWrittenBreaksConservation` | src/main/java/com/walletserver/wallet/facade/WalletLockFacade.java:40-48 | with the facade as written, final balance plus reported successes can differ from the initial balance |
| `LockFacade.LockedWithdrawReleasing` | src/main/java/com/walletserver/wallet/facade/WalletLockFacade.java:40-44 | corrected facade: once the lock is taken, the answer and the store are exactly one service step without the row lock, whether or not giving the lock back faults, and the trace is take, call, drop; a failure leaves the store unchanged; the lock discipline holds; it behaves as written whenever unlock does not fault |
| `LockFacade.RunReleasingKeepsValid` | src/main/java/com/walletserver/wallet/facade/WalletLockFacade.java:33-53 | with the corrected facade, no sequence of calls makes a balance negative or changes the set of wallets, whatever the lock service does |
| `LockFacade.ReleasingConservation` | src/main/java/com/walletserver/wallet/facade/WalletLockFacade.java:33-53 | with the corrected facade, final balance plus reported successes equals initial balance, whatever the lock service does |
| `LockFacade.WalletLockFacade.Withdraw` | src/main/java/com/walletserver/wallet/facade/WalletLockFacade.java:29-54 | the imperative facade returns and leaves exactly what `LockedWithdraw` describes, appends its effects to the log, keeps the ghost `held` equal to what the log says, holds the lock during the call without the row lock, and does not hold it afterwards |
| `LockFacade.WalletLockFacade.WithdrawUnderLock` | src/main/java/com/walletserver/wallet/facade/WalletLockFacade.java:40-48 | once the lock is taken: the call without the row lock, then unlock, then the row-lock fallback when unlock faults, returning and leaving exactly what `LockedWithdraw` describes for an acquired lock and appending take, call, drop (and the fallback call) to the log |
| `Endpoint.Render` | src/main/java/com/walletserver/wallet/controller/WalletController.java:27-28 | a result answers 200 with the response body; a failure answers the handler's status, code and message, never 200 |
| `Endpoint.PostWithdraw` | src/main/java/com/walletserver/wallet/controller/WalletController.java:22-29 | an invalid body answers 400 INVALID_INPUT with the first violation's message, before any lock or store access; otherwise the store and effects are the facade's, a facade success answers 200 with exactly its response (status "SUCCESS"), and a facade failure answers the handler's status, code and message |
| `Endpoint.InsufficientBalanceScenario` | src/test/java/com/walletserver/wallet/service/WalletServiceTest.java:82-104 | 10000 asked of a wallet holding 5000 answers 400 "Insufficient balance" and leaves 5000 |
| `Endpoint.ResubmissionScenario` | src/main/java/com/walletserver/wallet/service/WalletService.java:25-27 | a repeat of a committed 1000-from-10000 withdrawal answers 409 and leaves 9000 |

## Findings

| source | as written | input that shows it | evidently intended | confidence | as-written member | corrected member |
|---|---|---|---|---|---|---|
| src/main/java/com/walletserver/wallet/facade/WalletLockFacade.java:40-48 | `unlock()` runs in a `finally` inside the `try` whose `catch` handles Redis faults. A Redis fault from `unlock()` after a committed debit discards the result and re-runs the service with the row lock. That second call is rejected as a duplicate. | Lock acquired, wallet 1 holding 5000, withdraw 1000 with id 7, then `unlock()` throws `RedisConnectionException`. The client gets 409 DUPLICATE_TRANSACTION, but the wallet holds 4000 and row 7 exists. | The fallback should cover only a failure to take the lock. A failure to give it back should not change the answer (the lock lapses with its lease). With that, the answer always matches the store and reported successes conserve the balance. | medium, not executed | `LockFacade.LockedWithdraw` (shown by `LockFacade.UnlockFaultHidesDebit`, `LockFacade.UnlockFaultExample`, `LockFacade.AsWrittenBreaksConservation`) | `LockFacade.LockedWithdrawReleasing` (proved by its contract, `LockFacade.ReleasingConservation` and `LockFacade.RunReleasingKeepsValid`) |

The class `WalletLockFacade` and `Endpoint` keep the behaviour as written, because they model the
deployed code. The corrected definition stands beside them.

## Left out

- Concurrency: the model is sequential, so it does not show the mutual exclusion between threads.
  What it does show is the discipline behind it: the call without the row lock happens only while
  the wallet's distributed lock is held. Conservation and non-negativity are proved for any
  sequence of service calls (`WithdrawalRuns`) and for any sequence of calls to the corrected
  facade (`LockFacade.ReleasingConservation`, `LockFacade.RunReleasingKeepsValid`). For the facade as written, conservation of reported
  successes does not hold (`LockFacade.AsWrittenBreaksConservation`; see Findings).
- The database row lock (`PESSIMISTIC_WRITE` on `findByIdForUpdate`): sequentially it reads the same
  row as `findById`, so `useDbLock` does not change the outcome.
- The lock service internals are not modelled: fair locking, the 3-second wait, lease and watchdog
  timing. Each call's lock outcome is an input instead.
- If `unlock()` faults, the model has the request give up the lock (`LockDropped` with
  `clean == false`). The model does not represent the lock entry lapsing on the lock service when
  its lease expires.
- When taking the lock is interrupted, the facade restores the thread's interrupt flag before
  throwing. The model has no threads, so it keeps only the resulting 500 reply; the flag changes
  neither the store nor the reply.
- `unlock()` failures other than Redis connection or timeout faults (for example an
  `IllegalMonitorStateException`) are not modelled.
- Store faults (a lost database connection, a constraint error under a race) are not modelled.
  The store is two always-available maps. Sequentially the unique-key branch after the duplicate
  check cannot be taken.
- Timestamps and identity: `createdAt` depends on the clock and the surrogate `id` is assigned by
  the store, so neither is in the model.
- Money: amounts are whole minor units. A request amount with more than two decimal places (still
  `@Positive`) is outside the model, and so is the store's rounding of it to scale 2.
- `Wallet.decreaseBalance` is not part of this model's sources. `DecreaseBalance` follows the
  tests instead: it rejects amount > balance with "Insufficient balance" and allows
  amount == balance.
- Field-error order: the validator does not guarantee the order in which it reports field
  errors. `Violations` lists them in declaration order, and the error reply uses the first.
  The messages are the validation provider's defaults.
- `WalletEngine.WithdrawStep` requires a valid request, because the controller's `@Valid`
  guarantees one before the service is reached. The service's behaviour on a zero or negative
  amount is therefore not modelled.
- Logging, Spring wiring, the HTTP transport, and the test-only configuration are not modelled.
