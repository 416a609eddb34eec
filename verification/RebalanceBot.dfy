/** The rebalancing pass of the bot, issued against the vault's own guards. */
module RebalanceBot {
  import opened Machine
  import opened Token
  import opened VaultModel
  import opened VaultProgram

  const REBALANCE_THRESHOLD_BPS: nat := 50
  /** `toNumber` throws from here on. */
  const UNSAFE_INTEGER: nat := 0x20_0000_0000_0000

  datatype StrategyInfo = StrategyInfo(index: nat, positionValue: U64)

  datatype AllocationTarget = AllocationTarget(index: nat, currentValue: U64, targetValue: nat, delta: int)

  /** The active strategies from index `i` on, by ascending index. */
  function FetchFrom(strategies: seq<Strategy>, i: nat): seq<StrategyInfo>
    requires i <= |strategies|
    decreases |strategies| - i
  {
    if i == |strategies| then []
    else if strategies[i].active then
      [StrategyInfo(i, strategies[i].positionValue)] + FetchFrom(strategies, i + 1)
    else FetchFrom(strategies, i + 1)
  }

  function FetchStrategies(strategies: seq<Strategy>): seq<StrategyInfo> {
    FetchFrom(strategies, 0)
  }

  function CurrentValues(infos: seq<StrategyInfo>): seq<nat> {
    seq(|infos|, k requires 0 <= k < |infos| => infos[k].positionValue as nat)
  }

  function CalculateEqualWeightTargets(infos: seq<StrategyInfo>, totalDeployed: nat, idleBalance: nat)
    : seq<AllocationTarget>
  {
    var targetPerStrategy := if infos == [] then 0 else (totalDeployed + idleBalance) / |infos|;
    seq(|infos|, k requires 0 <= k < |infos| =>
      AllocationTarget(infos[k].index, infos[k].positionValue, targetPerStrategy,
                       targetPerStrategy - infos[k].positionValue))
  }

  function Abs(x: int): nat {
    if x < 0 then -x else x
  }

  /** The share `|delta|` of `totalValue` exceeds the threshold. */
  predicate Exceeds(delta: int, totalValue: nat) {
    Abs(delta) * BPS_DENOMINATOR > totalValue * REBALANCE_THRESHOLD_BPS
  }

  predicate ShouldRebalance(targets: seq<AllocationTarget>, totalValue: nat) {
    exists k :: 0 <= k < |targets| && Exceeds(targets[k].delta, totalValue)
  }

  /** One iteration of the bot's loop. A call that the program refuses, or whose transaction is lost on the way,
      is logged and forgotten. `idleBalance` is the idle figure of the snapshot, however stale. */
  function ExecuteTarget(w: World, caller: nat, lost: set<nat>, target: AllocationTarget, idleBalance: U64): World {
    if target.index in lost then w
    else if target.delta > 0 && idleBalance > 0 then
      Commit(w, Allocate(w, caller, target.index, Min(target.delta, idleBalance)))
    else if target.delta < 0 then
      Commit(w, Deallocate(w, caller, target.index, Min(Abs(target.delta), target.currentValue)))
    else w
  }

  function ExecuteTargets(w: World, caller: nat, lost: set<nat>, targets: seq<AllocationTarget>, idleBalance: U64)
    : World
    decreases |targets|
  {
    if targets == [] then w
    else
      var next := ExecuteTarget(w, caller, lost, targets[0], idleBalance);
      ExecuteTargets(next, caller, lost, targets[1..], idleBalance)
  }

  /** Idle assets plus the positions of all active strategies. */
  function ActiveTotal(w: World): nat {
    Sum(CurrentValues(FetchStrategies(w.strategies))) + w.vault.idleAssets
  }

  function TargetsOf(w: World): seq<AllocationTarget> {
    var infos := FetchStrategies(w.strategies);
    CalculateEqualWeightTargets(infos, Sum(CurrentValues(infos)), w.vault.idleAssets)
  }

  /** A pass without its threshold. */
  function UngatedPass(w: World, caller: nat, lost: set<nat>): World {
    ExecuteTargets(w, caller, lost, TargetsOf(w), w.vault.idleAssets)
  }

  /** Every number the bot reads converts to a JavaScript number. */
  predicate Readable(w: World) {
    var infos := FetchStrategies(w.strategies);
    && w.vault.idleAssets < UNSAFE_INTEGER
    && forall k :: 0 <= k < |infos| ==> infos[k].positionValue < UNSAFE_INTEGER
  }

  function RebalancePass(w: World, caller: nat, lost: set<nat>): World {
    if FetchStrategies(w.strategies) == [] || !Readable(w) || !ShouldRebalance(TargetsOf(w), ActiveTotal(w)) then w
    else UngatedPass(w, caller, lost)
  }

  /** The bot's loop body against the vault's accounts. */
  method RebalanceLoop(vault: VaultAccount, now: Timestamp, manager: nat, lost: set<nat>)
    requires vault.Valid()
    modifies vault, vault.strategies
    ensures vault.Valid() && vault.strategies == old(vault.strategies)
    ensures vault.Snapshot(now) == RebalancePass(old(vault.Snapshot(now)), manager, lost)
  {
    ghost var before := vault.Snapshot(now);
    var strategies := FetchStrategies(Values(vault.strategies));
    if strategies == [] {
      return;
    }
    var idleBalance := vault.idleAssets;
    if idleBalance >= UNSAFE_INTEGER
       || exists k :: 0 <= k < |strategies| && strategies[k].positionValue >= UNSAFE_INTEGER {
      return;
    }
    var totalDeployed := Sum(CurrentValues(strategies));
    var targets := CalculateEqualWeightTargets(strategies, totalDeployed, idleBalance);
    if !ShouldRebalance(targets, totalDeployed + idleBalance) {
      return;
    }
    for k := 0 to |targets|
      invariant vault.Valid() && vault.strategies == old(vault.strategies)
      invariant ExecuteTargets(vault.Snapshot(now), manager, lost, targets[k..], idleBalance)
                == ExecuteTargets(before, manager, lost, targets, idleBalance)
    {
      var target := targets[k];
      assert targets[k..][0] == target && targets[k..][1..] == targets[k + 1..];
      if target.index !in lost {
        if target.delta > 0 && idleBalance > 0 {
          var _ := vault.Allocate(now, manager, target.index, Min(target.delta, idleBalance));
        } else if target.delta < 0 {
          var _ := vault.Deallocate(now, manager, target.index, Min(Abs(target.delta), target.currentValue));
        }
      }
    }
  }
}
