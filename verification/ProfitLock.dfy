/** The time-decaying profit lock: what it promises and how it differs from its documentation. */
module ProfitLock {
  import opened Machine
  import opened VaultModel
  import opened SharePrice
  import Books

  // ---- A profit report at the instant it lands ----

  predicate IsProfit(w: World, step: Step) {
    step.ReportStep? && Execute(w, step).Ok? && step.newValue > w.strategies[step.index].positionValue
  }

  /** A profit report leaves effective assets at the old total minus everything ever locked. It does not raise them
      exactly when profits unlock over time at all. */
  lemma ProfitDoesNotRaiseEffective(w: World, caller: nat, index: nat, newValue: U64)
    requires Timely(w) && IsProfit(w, ReportStep(caller, index, newValue))
    ensures var w' := ReportYield(w, caller, index, newValue).value;
            && (w.vault.config.lockedProfitDegradation > 0 ==>
                  EffectiveAssets(w'.vault, w.now) == SaturatingSub(w.vault.totalAssets, w.vault.lockedProfit))
            && (EffectiveAssets(w'.vault, w.now) <= EffectiveAssets(w.vault, w.now)
                <==> w.vault.config.lockedProfitDegradation > 0)
  {
    var w' := ReportYield(w, caller, index, newValue).value;
    var degradation := w.vault.config.lockedProfitDegradation;
    EffectiveIsUnlocked(w.vault, w.now);
    EffectiveIsUnlocked(w'.vault, w.now);
    if degradation > 0 {
      NothingUnlockedYet(w'.vault.lockedProfit, degradation);
    }
  }

  lemma NothingUnlockedYet(locked: nat, degradation: nat)
    requires degradation > 0
    ensures StillLocked(locked, degradation, 0) == locked
  {
    MulDivAtLeast(locked, degradation, degradation, locked);
  }

  /** From a profit report on, and until the vault changes again, effective assets only grow, and the whole profit is
      effective once the unlocking period has passed. */
  lemma ProfitUnlocksOverTime(w: World, caller: nat, index: nat, newValue: U64, earlier: Timestamp, later: Timestamp)
    requires Timely(w) && IsProfit(w, ReportStep(caller, index, newValue))
    requires w.now <= earlier <= later
    ensures var v' := ReportYield(w, caller, index, newValue).value.vault;
            var profit := newValue - w.strategies[index].positionValue;
            && EffectiveAssets(v', earlier) <= EffectiveAssets(v', later) <= w.vault.totalAssets + profit
            && (w.now + w.vault.config.lockedProfitDegradation <= later ==>
                  EffectiveAssets(v', later) == w.vault.totalAssets + profit)
  {
    var v' := ReportYield(w, caller, index, newValue).value.vault;
    EffectiveGrowsWithTime(v', earlier, later);
    EffectiveIsUnlocked(v', later);
  }

  /** A loss takes effect at once and in full, and leaves the unlocking of earlier profits as it was: at every later
      time the effective assets are what they would have been less the loss, but never below zero. */
  lemma LossTakesEffectAtOnce(w: World, caller: nat, index: nat, newValue: U64, later: Timestamp)
    requires Timely(w) && ReportYield(w, caller, index, newValue).Ok?
    requires newValue <= w.strategies[index].positionValue && w.now <= later
    ensures var v' := ReportYield(w, caller, index, newValue).value.vault;
            EffectiveAssets(v', later)
            == SaturatingSub(EffectiveAssets(w.vault, later), w.strategies[index].positionValue - newValue)
  {
    EffectiveIsUnlocked(w.vault, later);
    EffectiveIsUnlocked(ReportYield(w, caller, index, newValue).value.vault, later);
  }

  lemma ReportDoesNotRaiseEffective(w: World, caller: nat, index: nat, newValue: U64)
    requires Timely(w) && w.vault.config.lockedProfitDegradation > 0
    requires ReportYield(w, caller, index, newValue).Ok?
    ensures var w' := ReportYield(w, caller, index, newValue).value;
            EffectiveAssets(w'.vault, w.now) <= EffectiveAssets(w.vault, w.now)
  {
    if IsProfit(w, ReportStep(caller, index, newValue)) {
      ProfitDoesNotRaiseEffective(w, caller, index, newValue);
    } else {
      EffectiveIsUnlocked(w.vault, w.now);
      EffectiveIsUnlocked(ReportYield(w, caller, index, newValue).value.vault, w.now);
    }
  }

  // ---- The documented lock ----

  /** The lock as documented: a new profit joins whatever is left of the previous lock. */
  function DocumentedLock(lock: nat, w: World, step: Step): nat
    requires Timely(w)
  {
    if IsProfit(w, step) then
      StillLocked(lock, w.vault.config.lockedProfitDegradation, w.now - w.vault.lockedProfitTs)
      + (step.newValue - w.strategies[step.index].positionValue)
    else lock
  }

  function DocumentedLockAfter(lock: nat, w: World, steps: seq<Step>): nat
    requires Timely(w)
    decreases |steps|
  {
    if steps == [] then lock
    else
      StepKeepsTime(w, steps[0]);
      DocumentedLockAfter(DocumentedLock(lock, w, steps[0]), Apply(w, steps[0]), steps[1..])
  }

  /** Effective assets if `lock` had been the profit locked at the last report. */
  function EffectiveUnder(lock: nat, w: World, now: Timestamp): nat
    requires w.vault.lockedProfitTs <= now
  {
    SaturatingSub(w.vault.totalAssets,
                  StillLocked(lock, w.vault.config.lockedProfitDegradation, now - w.vault.lockedProfitTs))
  }

  /** A profit may join the lock without re-locking what has been released. */
  predicate NothingReleased(w: World) {
    w.vault.lockedProfit == 0
    || (w.vault.config.lockedProfitDegradation > 0 && w.now == w.vault.lockedProfitTs)
  }

  predicate NothingReleasedAtProfits(w: World, steps: seq<Step>)
    decreases |steps|
  {
    steps == []
    || ((IsProfit(w, steps[0]) ==> NothingReleased(w)) && NothingReleasedAtProfits(Apply(w, steps[0]), steps[1..]))
  }

  lemma LockIsWhole(locked: nat, degradation: nat, elapsed: nat)
    ensures StillLocked(locked, degradation, elapsed) == locked
            <==> locked == 0 || (degradation > 0 && elapsed == 0)
  {
    if elapsed < degradation {
      MulDivBounds(locked, degradation - elapsed, degradation);
      if locked > 0 && elapsed > 0 {
        assert locked * (degradation - elapsed) == locked * degradation - locked * elapsed;
        MulLe(1, locked, elapsed);
      } else if elapsed == 0 {
        NothingUnlockedYet(locked, degradation);
      }
    }
  }

  lemma DocumentedLockStep(lock: nat, w: World, step: Step)
    requires Timely(w) && lock <= w.vault.lockedProfit
    ensures var lock' := DocumentedLock(lock, w, step);
            var locked' := Apply(w, step).vault.lockedProfit;
            && lock' <= locked'
            && (lock' == locked' <==> lock == w.vault.lockedProfit && (IsProfit(w, step) ==> NothingReleased(w)))
  {
    LockIsWhole(lock, w.vault.config.lockedProfitDegradation, w.now - w.vault.lockedProfitTs);
  }

  lemma {:induction false} DocumentedLockRun(lock: nat, w: World, steps: seq<Step>)
    requires Timely(w) && lock <= w.vault.lockedProfit
    ensures var lock' := DocumentedLockAfter(lock, w, steps);
            var locked' := Run(w, steps).vault.lockedProfit;
            && lock' <= locked'
            && (lock' == locked' <==> lock == w.vault.lockedProfit && NothingReleasedAtProfits(w, steps))
    decreases |steps|
  {
    if steps == [] {
    } else {
      StepKeepsTime(w, steps[0]);
      DocumentedLockStep(lock, w, steps[0]);
      DocumentedLockRun(DocumentedLock(lock, w, steps[0]), Apply(w, steps[0]), steps[1..]);
    }
  }

  /** In every reachable state and at every later time, the program's effective assets are at most what the
      documented carry-over lock would leave. */
  lemma StricterThanDocumented(w: World, steps: seq<Step>, now: Timestamp)
    requires Timely(w) && w.vault.lockedProfit == 0
    requires Run(w, steps).now <= now
    ensures Run(w, steps).vault.lockedProfitTs <= now
    ensures EffectiveAssets(Run(w, steps).vault, now)
            <= EffectiveUnder(DocumentedLockAfter(0, w, steps), Run(w, steps), now)
  {
    var w' := Run(w, steps);
    Books.RunKeepsTime(w, steps);
    DocumentedLockRun(0, w, steps);
    EffectiveIsUnlocked(w'.vault, now);
    LockMonotone(DocumentedLockAfter(0, w, steps), w'.vault.lockedProfit, w'.vault.config.lockedProfitDegradation,
                 now - w'.vault.lockedProfitTs);
  }

  /** The program's lock equals the documented one exactly when every profit report found nothing locked, or found
      the lock set at the same clock reading with a positive unlocking period. */
  lemma MatchesDocumentation(w: World, steps: seq<Step>)
    requires Timely(w) && w.vault.lockedProfit == 0
    ensures Run(w, steps).vault.lockedProfit == DocumentedLockAfter(0, w, steps)
            <==> NothingReleasedAtProfits(w, steps)
  {
    DocumentedLockRun(0, w, steps);
  }

  /** How many profits the run reports. */
  function ProfitReports(w: World, steps: seq<Step>): nat
    decreases |steps|
  {
    if steps == [] then 0
    else (if IsProfit(w, steps[0]) then 1 else 0) + ProfitReports(Apply(w, steps[0]), steps[1..])
  }

  lemma {:induction false} NothingLockedBeforeProfit(w: World, steps: seq<Step>)
    requires ProfitReports(w, steps) == 0 || (w.vault.lockedProfit == 0 && ProfitReports(w, steps) == 1)
    ensures NothingReleasedAtProfits(w, steps)
    decreases |steps|
  {
    if steps == [] {
    } else {
      NothingLockedBeforeProfit(Apply(w, steps[0]), steps[1..]);
    }
  }

  /** Until the second profit report the two locks agree. */
  lemma AgreeUntilSecondProfit(w: World, steps: seq<Step>)
    requires Timely(w) && w.vault.lockedProfit == 0 && ProfitReports(w, steps) <= 1
    ensures Run(w, steps).vault.lockedProfit == DocumentedLockAfter(0, w, steps)
  {
    NothingLockedBeforeProfit(w, steps);
    MatchesDocumentation(w, steps);
  }
}
