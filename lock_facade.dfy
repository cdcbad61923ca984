/** WalletLockFacade.withdraw: runs the debit under a per-wallet distributed
    lock, falls back to the database row lock when the lock service is
    unreachable, and always gives the lock back once it was taken. The lock
    service is abstracted as the outcome of the attempt to take the lock
    and the outcome of the attempt to give it back. */
module LockFacade {
  import opened Wrappers
  import opened TransactionEntity
  import opened RequestDto
  import opened ResponseDto
  import opened Exceptions
  import opened WalletEngine
  import opened WithdrawalRuns
  import Decimal

  const LockKeyPrefix: string := "wallet:lock:"

  /** The name of the lock that guards one wallet. */
  function LockKey(walletId: WalletId): (key: string)
    ensures |key| > |LockKeyPrefix| && key[..|LockKeyPrefix|] == LockKeyPrefix
  {
    LockKeyPrefix + Decimal.LongToString(walletId)
  }

  /** The wallet a lock name belongs to, if it is one. */
  function WalletOfKey(key: string): Option<int> {
    if |key| >= |LockKeyPrefix| && key[..|LockKeyPrefix|] == LockKeyPrefix
    then Decimal.ParseLong(key[|LockKeyPrefix|..])
    else None
  }

  lemma LockKeyRoundTrip(walletId: WalletId)
    ensures WalletOfKey(LockKey(walletId)) == Some(walletId as int)
  {
    assert LockKey(walletId)[|LockKeyPrefix|..] == Decimal.LongToString(walletId);
    Decimal.LongRoundTrip(walletId);
  }

  /** Distinct wallets never share a lock. */
  lemma LockKeysDistinct(a: WalletId, b: WalletId)
    ensures LockKey(a) == LockKey(b) <==> a == b
  {
    LockKeyRoundTrip(a);
    LockKeyRoundTrip(b);
  }

  /** How tryLock(waitTime, SECONDS) ends. */
  datatype LockAttempt =
    | Acquired
    | WaitExpired       // returned false
    | RedisFault        // RedisConnectionException or RedisTimeoutException
    | Interrupted       // InterruptedException

  /** How unlock() ends. */
  datatype UnlockResult = Released | UnlockRedisFault

  /** What the facade does to the lock and to the service, in order. */
  datatype Effect =
    | LockTaken(key: string)
    | ServiceCall(useDbLock: bool)
      /** The request lets go of the lock; when `clean` is false the lock
          service did not confirm and the entry lapses with its lease. */
    | LockDropped(key: string, clean: bool)

  /** Whether the request holds the distributed lock after these effects. */
  function HeldAfter(effects: seq<Effect>): bool {
    if effects == [] then false
    else match effects[|effects| - 1]
      case LockTaken(_) => true
      case LockDropped(_, _) => false
      case ServiceCall(_) => HeldAfter(effects[..|effects| - 1])
  }

  lemma HeldAfterCall(effects: seq<Effect>, useDbLock: bool)
    ensures HeldAfter(effects + [ServiceCall(useDbLock)]) == HeldAfter(effects)
  {
    assert (effects + [ServiceCall(useDbLock)])[..|effects|] == effects;
  }

  lemma HeldAfterLockEvent(effects: seq<Effect>, e: Effect)
    requires !e.ServiceCall?
    ensures HeldAfter(effects + [e]) == e.LockTaken?
  {
  }

  lemma AppendThree(log: seq<Effect>, a: Effect, b: Effect, c: Effect)
    ensures log + [a] + [b] + [c] == log + [a, b, c]
  {
  }

  lemma AppendFour(log: seq<Effect>, a: Effect, b: Effect, c: Effect, d: Effect)
    ensures log + [a] + [b] + [c] + [d] == log + [a, b, c, d]
  {
  }

  /** The locking discipline: the service reads the wallet without a row
      lock only while the distributed lock is held, every lock touched is
      the wallet's own, and the lock is not held at the end. */
  ghost predicate Disciplined(effects: seq<Effect>, walletId: WalletId) {
    && !HeldAfter(effects)
    && (forall i :: 0 <= i < |effects| && effects[i] == ServiceCall(false) ==> HeldAfter(effects[..i]))
    && (forall i :: 0 <= i < |effects| && !effects[i].ServiceCall? ==> effects[i].key == LockKey(walletId))
  }

  datatype FacadeOutcome = FacadeOutcome(
    result: Result<WithdrawalResponse, Failure>,
    after: Ledger,
    effects: seq<Effect>)

  /** The facade as written. unlock() sits in a finally block inside the
      try whose catch handles Redis faults, so a Redis fault from unlock()
      discards the service's outcome and runs the fallback call. */
  function LockedWithdraw(l: Ledger, walletId: WalletId, req: WithdrawalRequest,
                          attempt: LockAttempt, unlock: UnlockResult): (o: FacadeOutcome)
    requires req.IsValid()
    ensures Disciplined(o.effects, walletId)
    // a busy lock fails fast: no service call, no fallback
    ensures attempt == WaitExpired ==>
      o == FacadeOutcome(Err(LockAcquisition(RetryLaterMessage)), l, [])
    ensures attempt == Interrupted ==>
      o == FacadeOutcome(Err(Unexpected(ServerInterruptedMessage)), l, [])
    // an unreachable lock service: one call under the row lock, its outcome returned
    ensures attempt == RedisFault ==>
      o.effects == [ServiceCall(true)] && Outcome(o.result, o.after) == WithdrawStep(l, walletId, req)
    // lock taken: one call without the row lock, its outcome returned, one unlock
    ensures attempt == Acquired && unlock == Released ==>
      && o.effects == [LockTaken(LockKey(walletId)), ServiceCall(false), LockDropped(LockKey(walletId), true)]
      && Outcome(o.result, o.after) == WithdrawStep(l, walletId, req)
    // unlock fault: a second call, under the row lock, on the store the first left
    ensures attempt == Acquired && unlock == UnlockRedisFault ==>
      && o.effects == [LockTaken(LockKey(walletId)), ServiceCall(false),
                       LockDropped(LockKey(walletId), false), ServiceCall(true)]
      && Outcome(o.result, o.after) == WithdrawStep(WithdrawStep(l, walletId, req).after, walletId, req)
    ensures l.Valid() ==> o.after.Valid()
  {
    var key := LockKey(walletId);
    match attempt
    case WaitExpired => FacadeOutcome(Err(LockAcquisition(RetryLaterMessage)), l, [])
    case Interrupted => FacadeOutcome(Err(Unexpected(ServerInterruptedMessage)), l, [])
    case RedisFault =>
      var fallback := WithdrawStep(l, walletId, req);
      FacadeOutcome(fallback.result, fallback.after, [ServiceCall(true)])
    case Acquired =>
      var first := WithdrawStep(l, walletId, req);
      match unlock
      case Released =>
        FacadeOutcome(first.result, first.after, [LockTaken(key), ServiceCall(false), LockDropped(key, true)])
      case UnlockRedisFault =>
        var fallback := WithdrawStep(first.after, walletId, req);
        FacadeOutcome(fallback.result, fallback.after,
                      [LockTaken(key), ServiceCall(false), LockDropped(key, false), ServiceCall(true)])
  }

  /** A failed first call leaves the store as it was, so the extra call an
      unlock fault causes repeats the same failure and changes nothing. */
  lemma UnlockFaultAfterRejection(l: Ledger, walletId: WalletId, req: WithdrawalRequest)
    requires req.IsValid()
    requires WithdrawStep(l, walletId, req).result.Err?
    ensures var o := LockedWithdraw(l, walletId, req, Acquired, UnlockRedisFault);
      o.result == WithdrawStep(l, walletId, req).result && o.after == l
  {
  }

  /** An unlock fault after a committed debit: the client is told the
      transaction is a duplicate although the debit and its row stay. */
  lemma UnlockFaultHidesDebit(l: Ledger, walletId: WalletId, req: WithdrawalRequest)
    requires req.IsValid()
    requires WithdrawStep(l, walletId, req).result.Ok?
    ensures var o := LockedWithdraw(l, walletId, req, Acquired, UnlockRedisFault);
      && o.result == Err(DuplicateTransaction(DuplicateTransactionMessage))
      && o.after == WithdrawStep(l, walletId, req).after
      && walletId in o.after.balances
      && o.after.balances[walletId] == l.balances[walletId] - req.amount.value < l.balances[walletId]
  {
  }

  /** The same, on one wallet holding 5000: the client sees 409 while the
      wallet is left with 4000. */
  lemma UnlockFaultExample()
    ensures var l := Ledger(map[1 := 5000], map[]);
      var req := WithdrawalRequest(Some(7), Some(1000));
      var o := LockedWithdraw(l, 1, req, Acquired, UnlockRedisFault);
      && o.result == Err(DuplicateTransaction(DuplicateTransactionMessage))
      && o.after.balances[1] == 4000
      && 7 in o.after.history
  {
    var l := Ledger(map[1 := 5000], map[]);
    var req := WithdrawalRequest(Some(7), Some(1000));
    UnlockFaultHidesDebit(l, 1, req);
  }

  /** The facade as evidently intended: a fault while giving the lock back
      does not discard the service's outcome (the lock lapses with its
      lease). The client's answer then always matches the store. */
  function LockedWithdrawReleasing(l: Ledger, walletId: WalletId, req: WithdrawalRequest,
                                   attempt: LockAttempt, unlock: UnlockResult): (o: FacadeOutcome)
    requires req.IsValid()
    ensures Disciplined(o.effects, walletId)
    ensures o.result.Err? ==> o.after == l
    ensures o.result.Ok? ==> Outcome(o.result, o.after) == WithdrawStep(l, walletId, req)
    ensures attempt != Acquired || unlock == Released ==>
      o == LockedWithdraw(l, walletId, req, attempt, unlock)
    ensures attempt == Acquired ==> Outcome(o.result, o.after) == WithdrawStep(l, walletId, req)
    ensures attempt == Acquired ==>
      o.effects == [LockTaken(LockKey(walletId)), ServiceCall(false), LockDropped(LockKey(walletId), unlock == Released)]
  {
    match (attempt, unlock)
    case (Acquired, UnlockRedisFault) =>
      var key := LockKey(walletId);
      var first := WithdrawStep(l, walletId, req);
      FacadeOutcome(first.result, first.after, [LockTaken(key), ServiceCall(false), LockDropped(key, false)])
    case _ => LockedWithdraw(l, walletId, req, attempt, unlock)
  }

  /** How one facade call's lock service behaves. */
  datatype LockService = LockService(attempt: LockAttempt, unlock: UnlockResult)

  /** Facade calls in sequence, with the corrected facade. */
  function RunReleasing(l: Ledger, calls: seq<Call>, env: seq<LockService>): (r: Run)
    requires AllValid(calls) && |env| == |calls|
    ensures |r.results| == |calls|
    decreases |calls|
  {
    if calls == [] then Run([], l)
    else
      var o := LockedWithdrawReleasing(l, calls[0].walletId, calls[0].request, env[0].attempt, env[0].unlock);
      var rest := RunReleasing(o.after, calls[1..], env[1..]);
      Run([o.result] + rest.results, rest.final)
  }

  /** With the corrected facade, whatever the lock service does, the final
      balance plus what the successful calls report equals the initial
      balance. */
  lemma {:induction false} ReleasingConservation(l: Ledger, calls: seq<Call>, env: seq<LockService>, w: WalletId)
    requires AllValid(calls) && |env| == |calls| && w in l.balances
    ensures var r := RunReleasing(l, calls, env);
      w in r.final.balances && r.final.balances[w] + Debited(w, calls, r.results) == l.balances[w]
    decreases |calls|
  {
    if calls != [] {
      var o := LockedWithdrawReleasing(l, calls[0].walletId, calls[0].request, env[0].attempt, env[0].unlock);
      ReleasingConservation(o.after, calls[1..], env[1..], w);
      var r := RunReleasing(l, calls, env);
      assert r.results[1..] == RunReleasing(o.after, calls[1..], env[1..]).results;
    }
  }

  /** With the corrected facade no sequence of calls makes a balance
      negative or changes the set of wallets. */
  lemma {:induction false} RunReleasingKeepsValid(l: Ledger, calls: seq<Call>, env: seq<LockService>)
    requires AllValid(calls) && |env| == |calls| && l.Valid()
    ensures RunReleasing(l, calls, env).final.Valid()
    ensures RunReleasing(l, calls, env).final.balances.Keys == l.balances.Keys
    decreases |calls|
  {
    if calls != [] {
      var o := LockedWithdrawReleasing(l, calls[0].walletId, calls[0].request, env[0].attempt, env[0].unlock);
      RunReleasingKeepsValid(o.after, calls[1..], env[1..]);
    }
  }

  /** With the facade as written the same balance check fails: one call
      whose unlock faults takes 1000 that no success reports. */
  lemma AsWrittenBreaksConservation()
    ensures var l := Ledger(map[1 := 5000], map[]);
      var c := Call(1, WithdrawalRequest(Some(7), Some(1000)));
      var o := LockedWithdraw(l, 1, c.request, Acquired, UnlockRedisFault);
      o.after.balances[1] + Debited(1, [c], [o.result]) != l.balances[1]
  {
    UnlockFaultExample();
  }

  /** The facade object. The lock service is passed in per call as the
      outcomes of tryLock and unlock; `held` says whether this request
      holds the wallet's distributed lock, and `effects` logs every lock
      and service interaction so far. */
  class WalletLockFacade {
    const service: WalletService
    ghost var held: bool
    ghost var effects: seq<Effect>

    /** Between calls the lock is not held, and the log agrees. */
    ghost predicate Valid()
      reads this
    {
      !held && held == HeldAfter(effects)
    }

    constructor (service: WalletService)
      ensures this.service == service && Valid() && effects == []
    {
      this.service := service;
      held := false;
      effects := [];
    }

    method Withdraw(walletId: WalletId, req: WithdrawalRequest, attempt: LockAttempt, unlock: UnlockResult)
      returns (r: Result<WithdrawalResponse, Failure>)
      requires Valid() && req.IsValid()
      modifies this, service
      ensures Valid()
      ensures var o := LockedWithdraw(old(service.State()), walletId, req, attempt, unlock);
        && r == o.result && service.State() == o.after
        && effects == old(effects) + o.effects
      ensures old(service.Valid()) ==> service.Valid()
    {
      if attempt == WaitExpired {
        return Err(LockAcquisition(RetryLaterMessage));
      }
      if attempt == Interrupted {
        return Err(Unexpected(ServerInterruptedMessage));
      }
      if attempt == RedisFault {
        HeldAfterCall(effects, true);
        effects := effects + [ServiceCall(true)];
        r := service.Withdraw(walletId, req, true);
        return;
      }
      r := WithdrawUnderLock(walletId, req, unlock);
    }

    /** The path once tryLock succeeded: the call without the row lock,
        then unlock in the finally block, then the fallback call when
        unlock raises a Redis fault. */
    method WithdrawUnderLock(walletId: WalletId, req: WithdrawalRequest, unlock: UnlockResult)
      returns (r: Result<WithdrawalResponse, Failure>)
      requires Valid() && req.IsValid()
      modifies this, service
      ensures Valid()
      ensures var o := LockedWithdraw(old(service.State()), walletId, req, Acquired, unlock);
        && r == o.result && service.State() == o.after
        && effects == old(effects) + o.effects
    {
      var key := LockKey(walletId);
      held := true;
      HeldAfterLockEvent(effects, LockTaken(key));
      effects := effects + [LockTaken(key)];
      HeldAfterCall(effects, false);
      effects := effects + [ServiceCall(false)];
      // the read without the row lock happens only under the distributed lock
      assert held == HeldAfter(effects);
      r := service.Withdraw(walletId, req, false);
      // finally: unlock
      held := false;
      HeldAfterLockEvent(effects, LockDropped(key, unlock == Released));
      effects := effects + [LockDropped(key, unlock == Released)];
      AppendThree(old(effects), LockTaken(key), ServiceCall(false), LockDropped(key, unlock == Released));
      if unlock == UnlockRedisFault {
        // caught as a Redis fault: fall back to the row lock
        HeldAfterCall(effects, true);
        effects := effects + [ServiceCall(true)];
        AppendFour(old(effects), LockTaken(key), ServiceCall(false), LockDropped(key, false), ServiceCall(true));
        r := service.Withdraw(walletId, req, true);
      }
    }
  }
}
