/** The payment vault's lock: unlocking, locking, timing out and counting failures
    (models/payment_vault.py:128-174). Times are in microseconds. */
module VaultLock {
  import opened Wrappers

  const MINUTE := 60_000_000

  // The settings the lock reads.
  datatype Settings = Settings(autoLockMinutes: int, maxFailedAttempts: int)

  datatype Vault = Vault(isLocked: bool, lastAccess: Option<int>, failedAttempts: Option<int>)

  datatype Event = Unlock(correct: bool, at: int) | LockNow(at: int) | Access(at: int) | ResetFailures(at: int)

  predicate Expired(cfg: Settings, v: Vault, now: int) {
    cfg.autoLockMinutes > 0 && v.lastAccess.Some? && now - v.lastAccess.value > cfg.autoLockMinutes * MINUTE
  }

  predicate Accessible(cfg: Settings, v: Vault, now: int) {
    !v.isLocked && !Expired(cfg, v, now)
  }

  predicate IsLockedOut(cfg: Settings, v: Vault) {
    OrZero(v.failedAttempts) >= cfg.maxFailedAttempts
  }

  function Step(cfg: Settings, v: Vault, e: Event): Vault {
    match e
    case Unlock(correct, at) =>
      if correct then Vault(false, Some(at), Some(0))
      else v.(failedAttempts := Some(OrZero(v.failedAttempts) + 1))
    case LockNow(_) => v.(isLocked := true)
    case Access(at) => if !v.isLocked && Expired(cfg, v, at) then v.(isLocked := true) else v
    case ResetFailures(_) => v.(failedAttempts := Some(0))
  }

  class PaymentVault {
    const settings: Settings
    var isLocked: bool
    var lastAccess: Option<int>
    var failedAttempts: Option<int>

    function View(): Vault
      reads this
    {
      Vault(isLocked, lastAccess, failedAttempts)
    }

    constructor (cfg: Settings, created: int)
      ensures settings == cfg && View() == Vault(true, Some(created), Some(0))
    {
      settings, isLocked, lastAccess, failedAttempts := cfg, true, Some(created), Some(0);
    }

    // correct: whether the password given matches the stored hash.
    method UnlockVault(correct: bool, now: int) returns (ok: bool)
      modifies this
      ensures ok == correct && View() == Step(settings, old(View()), Unlock(correct, now))
    {
      if correct {
        isLocked, lastAccess, failedAttempts := false, Some(now), Some(0);
        ok := true;
      } else {
        failedAttempts := Some(OrZero(failedAttempts) + 1);
        ok := false;
      }
    }

    method LockVault()
      modifies this`isLocked
      ensures isLocked
    {
      isLocked := true;
    }

    // The question locks the vault if it finds the session expired.
    method IsVaultAccessible(now: int) returns (ok: bool)
      modifies this`isLocked
      ensures ok == Accessible(settings, old(View()), now) && View() == Step(settings, old(View()), Access(now))
    {
      if isLocked {
        return false;
      }
      if settings.autoLockMinutes > 0 {
        if lastAccess.Some? {
          if now - lastAccess.value > settings.autoLockMinutes * MINUTE {
            LockVault();
            return false;
          }
        }
      }
      ok := true;
    }

    method ResetFailedAttempts()
      modifies this`failedAttempts
      ensures View() == old(View()).(failedAttempts := Some(0))
    {
      failedAttempts := Some(0);
    }
  }

  // ---------- the lock against the history of events ----------

  function Run(cfg: Settings, v: Vault, es: seq<Event>): Vault {
    if es == [] then v else Step(cfg, Run(cfg, v, es[..|es| - 1]), es[|es| - 1])
  }

  // When the latest correct unlock was, if no explicit lock came after it.
  function OpenSince(es: seq<Event>): Option<int> {
    if es == [] then None
    else
      var e := es[|es| - 1];
      if e.Unlock? && e.correct then Some(e.at)
      else if e.LockNow? then None
      else OpenSince(es[..|es| - 1])
  }

  // Wrong passwords since the latest correct unlock or reset.
  function FailuresSince(start: int, es: seq<Event>): int {
    if es == [] then start
    else
      var e := es[|es| - 1];
      if e.ResetFailures? || (e.Unlock? && e.correct) then 0
      else FailuresSince(start, es[..|es| - 1]) + if e.Unlock? then 1 else 0
  }

  ghost predicate Monotone(es: seq<Event>, now: int) {
    && (forall i, k | 0 <= i < k < |es| :: es[i].at <= es[k].at)
    && (forall e | e in es :: e.at <= now)
  }

  // Starting locked: the vault is open only since its latest correct unlock, and if it has been closed again
  // it was by an explicit lock or by being found expired.
  ghost predicate Tracks(cfg: Settings, v: Vault, es: seq<Event>, now: int) {
    match OpenSince(es)
    case None => v.isLocked
    case Some(t) =>
      && v.lastAccess == Some(t)
      && (v.isLocked ==> cfg.autoLockMinutes > 0 && now - t > cfg.autoLockMinutes * MINUTE)
  }

  lemma {:induction false} RunTracks(cfg: Settings, v: Vault, es: seq<Event>, now: int)
    requires v.isLocked && Monotone(es, now)
    ensures Tracks(cfg, Run(cfg, v, es), es, now)
  {
    if es != [] {
      var n := |es| - 1;
      assert es[n] in es;
      assert forall e | e in es[..n] :: e in es;
      RunTracks(cfg, v, es[..n], es[n].at);
    }
  }

  // From any locked vault, under a clock that never goes back: access is granted exactly when the latest
  // correct unlock has no explicit lock after it and, if there is an auto-lock time, lies within it.
  lemma AccessExactly(cfg: Settings, v: Vault, es: seq<Event>, now: int)
    requires v.isLocked && Monotone(es, now)
    ensures Accessible(cfg, Run(cfg, v, es), now) <==>
            && OpenSince(es).Some?
            && (cfg.autoLockMinutes > 0 ==> now - OpenSince(es).value <= cfg.autoLockMinutes * 60 * 1_000_000)
  {
    RunTracks(cfg, v, es, now);
  }

  // Once access has been refused, it stays refused until the next correct unlock, whatever else happens.
  lemma {:induction false} RefusedUntilUnlock(cfg: Settings, v: Vault, now: int, es: seq<Event>, later: int)
    requires !Accessible(cfg, v, now)
    requires forall e | e in es :: !(e.Unlock? && e.correct)
    ensures !Accessible(cfg, Run(cfg, Step(cfg, v, Access(now)), es), later)
    ensures Run(cfg, Step(cfg, v, Access(now)), es).isLocked
  {
    if es != [] {
      var n := |es| - 1;
      assert es[n] in es;
      assert forall e | e in es[..n] :: e in es;
      RefusedUntilUnlock(cfg, v, now, es[..n], later);
    }
  }

  // The failure count is the number of wrong passwords since the latest correct unlock or reset, so the
  // vault is locked out exactly when those reach the limit.
  lemma {:induction false} FailuresCounted(cfg: Settings, v: Vault, es: seq<Event>)
    ensures var failures := FailuresSince(if v.failedAttempts.Some? then v.failedAttempts.value else 0, es);
            && (match Run(cfg, v, es).failedAttempts
                case None => failures == 0
                case Some(n) => n == failures)
            && (IsLockedOut(cfg, Run(cfg, v, es)) <==> failures >= cfg.maxFailedAttempts)
  {
    if es != [] {
      FailuresCounted(cfg, v, es[..|es| - 1]);
    }
  }
}
