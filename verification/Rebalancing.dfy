/** Where rebalancing passes lead. */
module Rebalancing {
  import opened Machine
  import opened Token
  import opened VaultModel
  import opened RebalanceBot

  // ---- What the bot fetches ----

  /** `infos` lists active strategies with their positions, by ascending index from `i` on. */
  predicate Fetched(strategies: seq<Strategy>, i: nat, infos: seq<StrategyInfo>) {
    && (forall k :: 0 <= k < |infos| ==>
          && i <= infos[k].index < |strategies|
          && strategies[infos[k].index].active
          && infos[k].positionValue == strategies[infos[k].index].positionValue)
    && (forall k, l :: 0 <= k < l < |infos| ==> infos[k].index < infos[l].index)
  }

  lemma {:induction false} FetchedFrom(strategies: seq<Strategy>, i: nat)
    requires i <= |strategies|
    ensures Fetched(strategies, i, FetchFrom(strategies, i))
    decreases |strategies| - i
  {
    if i == |strategies| {
    } else {
      FetchedFrom(strategies, i + 1);
      var infos, rest := FetchFrom(strategies, i), FetchFrom(strategies, i + 1);
      if strategies[i].active {
        assert infos == [StrategyInfo(i, strategies[i].positionValue)] + rest;
      }
    }
  }

  lemma {:induction false} ActiveIsFetched(strategies: seq<Strategy>, i: nat, j: nat)
    requires i <= j < |strategies| && strategies[j].active
    ensures exists k :: 0 <= k < |FetchFrom(strategies, i)| && FetchFrom(strategies, i)[k].index == j
    decreases j - i
  {
    var infos := FetchFrom(strategies, i);
    if i == j {
      assert infos[0].index == j;
    } else {
      ActiveIsFetched(strategies, i + 1, j);
      var rest := FetchFrom(strategies, i + 1);
      var k :| 0 <= k < |rest| && rest[k].index == j;
      assert infos[if strategies[i].active then k + 1 else k].index == j;
    }
  }

  /** Two strategy lists with the same strategies active. */
  predicate SameActive(a: seq<Strategy>, b: seq<Strategy>) {
    |a| == |b| && forall j :: 0 <= j < |a| ==> a[j].active == b[j].active
  }

  lemma {:induction false} FetchSameIndices(a: seq<Strategy>, b: seq<Strategy>, i: nat)
    requires SameActive(a, b) && i <= |a|
    ensures |FetchFrom(a, i)| == |FetchFrom(b, i)|
    ensures forall k :: 0 <= k < |FetchFrom(a, i)| ==> FetchFrom(a, i)[k].index == FetchFrom(b, i)[k].index
    decreases |a| - i
  {
    if i == |a| {
    } else {
      FetchSameIndices(a, b, i + 1);
    }
  }

  // ---- One target ----

  /** `target` was computed from the state of its strategy in `w`. */
  predicate Current(w: World, target: AllocationTarget) {
    && target.index < |w.strategies|
    && w.strategies[target.index].active
    && w.strategies[target.index].positionValue == target.currentValue
    && target.delta == target.targetValue - target.currentValue
  }

  /** What can have happened to a strategy: it moved towards its target or not at all, and only an allocation
      counts as allocated. */
  predicate Moved(s: Strategy, s': Strategy, targetValue: nat) {
    && s'.active == s.active
    && (s.positionValue <= targetValue ==>
          && s.positionValue <= s'.positionValue <= targetValue
          && s'.totalAllocated - s.totalAllocated == s'.positionValue - s.positionValue)
    && (s.positionValue > targetValue ==>
          s'.positionValue == s.positionValue || s'.positionValue == targetValue)
  }

  lemma TargetMoves(w: World, caller: nat, lost: set<nat>, target: AllocationTarget, idleBalance: U64)
    requires Current(w, target)
    ensures var w' := ExecuteTarget(w, caller, lost, target, idleBalance);
            && |w'.strategies| == |w.strategies|
            && (forall j :: 0 <= j < |w.strategies| && j != target.index ==> w'.strategies[j] == w.strategies[j])
            && Moved(w.strategies[target.index], w'.strategies[target.index], target.targetValue)
            && w'.vault.idleAssets + w'.strategies[target.index].positionValue
               == w.vault.idleAssets + w.strategies[target.index].positionValue
            && w'.vault == w.vault.(idleAssets := w'.vault.idleAssets)
  {
  }

  // ---- A whole list of targets ----

  predicate AllCurrent(w: World, targets: seq<AllocationTarget>) {
    && (forall k :: 0 <= k < |targets| ==> Current(w, targets[k]))
    && (forall k, l :: 0 <= k < l < |targets| ==> targets[k].index < targets[l].index)
  }

  function PositionAt(w: World, i: nat): nat {
    if i < |w.strategies| then w.strategies[i].positionValue else 0
  }

  function PositionsAt(w: World, targets: seq<AllocationTarget>): seq<nat> {
    seq(|targets|, k requires 0 <= k < |targets| => PositionAt(w, targets[k].index))
  }

  predicate AllMoved(w: World, w': World, targets: seq<AllocationTarget>) {
    && |w'.strategies| == |w.strategies|
    && (forall k :: 0 <= k < |targets| && targets[k].index < |w.strategies| ==>
          Moved(w.strategies[targets[k].index], w'.strategies[targets[k].index], targets[k].targetValue))
    && (forall j :: 0 <= j < |w.strategies| && (forall k :: 0 <= k < |targets| ==> targets[k].index != j) ==>
          w'.strategies[j] == w.strategies[j])
    && w'.vault == w.vault.(idleAssets := w'.vault.idleAssets)
  }

  lemma {:induction false} TargetsMove(w: World, caller: nat, lost: set<nat>, targets: seq<AllocationTarget>,
                                         idleBalance: U64)
    requires AllCurrent(w, targets)
    ensures AllMoved(w, ExecuteTargets(w, caller, lost, targets, idleBalance), targets)
    decreases |targets|
  {
    if targets == [] {
    } else {
      var target, rest := targets[0], targets[1..];
      var w1 := ExecuteTarget(w, caller, lost, target, idleBalance);
      TargetMoves(w, caller, lost, target, idleBalance);
      TargetsMove(w1, caller, lost, rest, idleBalance);
      var w' := ExecuteTargets(w1, caller, lost, rest, idleBalance);
      assert w'.strategies[target.index] == w1.strategies[target.index];
      assert forall k :: 0 <= k < |rest| ==> rest[k] == targets[k + 1];
    }
  }

  lemma HeadPosition(w: World, targets: seq<AllocationTarget>)
    requires targets != []
    ensures Sum(PositionsAt(w, targets)) == PositionAt(w, targets[0].index) + Sum(PositionsAt(w, targets[1..]))
  {
    assert PositionsAt(w, targets)[1..] == PositionsAt(w, targets[1..]);
  }

  /** Changing one strategy leaves the positions of the others. */
  lemma OtherPositions(w: World, w': World, targets: seq<AllocationTarget>, i: nat)
    requires |w'.strategies| == |w.strategies|
    requires forall j :: 0 <= j < |w.strategies| && j != i ==> w'.strategies[j] == w.strategies[j]
    requires forall k :: 0 <= k < |targets| ==> targets[k].index != i
    ensures PositionsAt(w', targets) == PositionsAt(w, targets)
  {
  }

  lemma {:induction false} TargetsConserve(w: World, caller: nat, lost: set<nat>, targets: seq<AllocationTarget>,
                                             idleBalance: U64)
    requires AllCurrent(w, targets)
    ensures var w' := ExecuteTargets(w, caller, lost, targets, idleBalance);
            w'.vault.idleAssets + Sum(PositionsAt(w', targets)) == w.vault.idleAssets + Sum(PositionsAt(w, targets))
    decreases |targets|
  {
    if targets == [] {
    } else {
      var target, rest := targets[0], targets[1..];
      var w1 := ExecuteTarget(w, caller, lost, target, idleBalance);
      var w' := ExecuteTargets(w1, caller, lost, rest, idleBalance);
      TargetMoves(w, caller, lost, target, idleBalance);
      OtherPositions(w, w1, rest, target.index);
      TargetsConserve(w1, caller, lost, rest, idleBalance);
      HeadPosition(w, targets);
      HeadPosition(w', targets);
      assert PositionAt(w', target.index) == PositionAt(w1, target.index) by {
        TargetsMove(w1, caller, lost, rest, idleBalance);
      }
    }
  }

  /** Executing other targets does not touch strategy `i`. */
  lemma Untouched(w: World, targets: seq<AllocationTarget>, idleBalance: U64, i: nat)
    requires AllCurrent(w, targets) && i < |w.strategies|
    requires forall k :: 0 <= k < |targets| ==> targets[k].index != i
    ensures var w' := ExecuteTargets(w, w.vault.manager, {}, targets, idleBalance);
            |w'.strategies| == |w.strategies| && w'.strategies[i] == w.strategies[i]
  {
    TargetsMove(w, w.vault.manager, {}, targets, idleBalance);
  }

  lemma TargetLands(w: World, target: AllocationTarget, idleBalance: U64)
    requires Current(w, target) && target.currentValue > target.targetValue
    requires w.vault.idleAssets + target.currentValue < U64_LIMIT
    ensures PositionAt(ExecuteTarget(w, w.vault.manager, {}, target, idleBalance), target.index) == target.targetValue
  {
  }

  /** Every overweight strategy is brought to its target: deallocations do not fail. */
  lemma {:induction false} OverweightLands(w: World, targets: seq<AllocationTarget>, idleBalance: U64)
    requires AllCurrent(w, targets)
    requires w.vault.idleAssets + Sum(PositionsAt(w, targets)) < U64_LIMIT
    ensures var w' := ExecuteTargets(w, w.vault.manager, {}, targets, idleBalance);
            forall k :: 0 <= k < |targets| && targets[k].currentValue > targets[k].targetValue ==>
                          PositionAt(w', targets[k].index) == targets[k].targetValue
    decreases |targets|
  {
    if targets == [] {
    } else {
      var target, rest := targets[0], targets[1..];
      var w1 := ExecuteTarget(w, w.vault.manager, {}, target, idleBalance);
      TargetMoves(w, w.vault.manager, {}, target, idleBalance);
      HeadPosition(w, targets);
      OtherPositions(w, w1, rest, target.index);
      OverweightLands(w1, rest, idleBalance);
      Untouched(w1, rest, idleBalance, target.index);
      if target.currentValue > target.targetValue {
        TargetLands(w, target, idleBalance);
      }
      assert forall k :: 1 <= k < |targets| ==> targets[k] == rest[k - 1];
    }
  }

  // ---- Filling underweight strategies ----

  /** How much each target is short of. */
  function Shortfalls(targets: seq<AllocationTarget>): seq<nat> {
    seq(|targets|, k requires 0 <= k < |targets| => SaturatingSub(targets[k].targetValue, targets[k].currentValue))
  }

  /** Strategy `i` can take the allocations that lead to `targetValue` without overflowing a counter. */
  predicate HasRoom(w: World, i: nat, targetValue: nat) {
    i < |w.strategies| ==>
      (w.strategies[i].positionValue < targetValue ==>
         && targetValue < U64_LIMIT
         && w.strategies[i].totalAllocated + (targetValue - w.strategies[i].positionValue) < U64_LIMIT)
  }

  /** Strategy `i` reached `targetValue` if it had room, and was left alone if not. */
  predicate FilledOrStuck(w: World, w': World, i: nat, targetValue: nat) {
    && |w'.strategies| == |w.strategies|
    && (HasRoom(w, i, targetValue) ==> PositionAt(w', i) == targetValue)
    && (!HasRoom(w, i, targetValue) ==> w'.strategies[i] == w.strategies[i])
  }

  lemma TargetFills(w: World, target: AllocationTarget, idleBalance: U64)
    requires Current(w, target)
    requires 0 <= target.delta <= idleBalance && target.delta <= w.vault.idleAssets
    ensures var w' := ExecuteTarget(w, w.vault.manager, {}, target, idleBalance);
            && FilledOrStuck(w, w', target.index, target.targetValue)
            && w'.vault.idleAssets >= w.vault.idleAssets - target.delta
            && (target.delta == 0 || !HasRoom(w, target.index, target.targetValue) ==> w' == w)
  {
  }

  predicate AllFilledOrStuck(w: World, w': World, targets: seq<AllocationTarget>) {
    forall k :: 0 <= k < |targets| ==> FilledOrStuck(w, w', targets[k].index, targets[k].targetValue)
  }

  lemma RestFilledOrStuck(w: World, w1: World, w': World, targets: seq<AllocationTarget>)
    requires targets != [] && |w1.strategies| == |w.strategies| && AllCurrent(w, targets)
    requires forall j :: 0 <= j < |w.strategies| && j != targets[0].index ==> w1.strategies[j] == w.strategies[j]
    requires AllFilledOrStuck(w1, w', targets[1..])
    requires FilledOrStuck(w, w', targets[0].index, targets[0].targetValue)
    ensures AllFilledOrStuck(w, w', targets)
  {
    forall k | 1 <= k < |targets|
      ensures FilledOrStuck(w, w', targets[k].index, targets[k].targetValue)
    {
      assert targets[1..][k - 1] == targets[k];
    }
  }

  /** When nothing is overweight and the idle assets cover all shortfalls, every strategy with room is filled and
      every other one is left alone. */
  lemma {:induction false} ShortfallsFill(w: World, targets: seq<AllocationTarget>, idleBalance: U64)
    requires AllCurrent(w, targets)
    requires forall k :: 0 <= k < |targets| ==> 0 <= targets[k].delta <= idleBalance
    requires Sum(Shortfalls(targets)) <= w.vault.idleAssets
    ensures AllFilledOrStuck(w, ExecuteTargets(w, w.vault.manager, {}, targets, idleBalance), targets)
    decreases |targets|
  {
    if targets == [] {
    } else {
      var target, rest := targets[0], targets[1..];
      var w1 := ExecuteTarget(w, w.vault.manager, {}, target, idleBalance);
      assert Shortfalls(targets)[1..] == Shortfalls(rest);
      TargetFills(w, target, idleBalance);
      TargetMoves(w, w.vault.manager, {}, target, idleBalance);
      ShortfallsFill(w1, rest, idleBalance);
      Untouched(w1, rest, idleBalance, target.index);
      RestFilledOrStuck(w, w1, ExecuteTargets(w1, w.vault.manager, {}, rest, idleBalance), targets);
    }
  }

  /** Targets that are met or have no room cause no change at all. */
  lemma {:induction false} NothingLeftToFill(w: World, targets: seq<AllocationTarget>, idleBalance: U64)
    requires AllCurrent(w, targets)
    requires forall k :: 0 <= k < |targets| ==>
               && 0 <= targets[k].delta <= idleBalance && targets[k].delta <= w.vault.idleAssets
               && (targets[k].delta == 0 || !HasRoom(w, targets[k].index, targets[k].targetValue))
    ensures ExecuteTargets(w, w.vault.manager, {}, targets, idleBalance) == w
    decreases |targets|
  {
    if targets == [] {
    } else {
      TargetFills(w, targets[0], idleBalance);
      NothingLeftToFill(w, targets[1..], idleBalance);
    }
  }

  lemma {:induction false} ShortfallsSum(targets: seq<AllocationTarget>, values: seq<nat>, targetValue: nat)
    requires |values| == |targets|
    requires forall k :: 0 <= k < |targets| ==>
               targets[k].targetValue == targetValue && values[k] == targets[k].currentValue <= targetValue
    ensures Sum(Shortfalls(targets)) + Sum(values) == |targets| * targetValue
  {
    if targets == [] {
    } else {
      assert Shortfalls(targets)[1..] == Shortfalls(targets[1..]);
      ShortfallsSum(targets[1..], values[1..], targetValue);
      assert |targets| * targetValue == |targets[1..]| * targetValue + targetValue;
    }
  }

  lemma {:induction false} SumOfEqual(values: seq<nat>, x: nat)
    requires forall k :: 0 <= k < |values| ==> values[k] == x
    ensures Sum(values) == |values| * x
  {
    if values == [] {
    } else {
      SumOfEqual(values[1..], x);
      assert |values| * x == |values[1..]| * x + x;
    }
  }

  // ---- One pass ----

  function ActiveCount(w: World): nat {
    |FetchStrategies(w.strategies)|
  }

  /** What each active strategy should hold. */
  function FairShare(w: World): nat
    requires ActiveCount(w) > 0
  {
    ActiveTotal(w) / ActiveCount(w)
  }

  lemma TargetsAreCurrent(w: World)
    requires ActiveCount(w) > 0
    ensures var targets := TargetsOf(w);
            && AllCurrent(w, targets)
            && |targets| == ActiveCount(w)
            && (forall k :: 0 <= k < |targets| ==> targets[k].targetValue == FairShare(w))
            && PositionsAt(w, targets) == CurrentValues(FetchStrategies(w.strategies))
  {
    FetchedFrom(w.strategies, 0);
  }

  /** Every active strategy has a target. */
  lemma TargetFor(w: World, j: nat) returns (k: nat)
    requires j < |w.strategies| && w.strategies[j].active
    ensures k < |TargetsOf(w)| && TargetsOf(w)[k].index == j
  {
    ActiveIsFetched(w.strategies, 0, j);
    k :| 0 <= k < |FetchStrategies(w.strategies)| && FetchStrategies(w.strategies)[k].index == j;
  }

  /** What a pass can do to one strategy of `w`: inactive ones stay, active ones move towards `share`. */
  predicate MovedTowards(w: World, w': World, share: nat) {
    && |w'.strategies| == |w.strategies|
    && (forall j :: 0 <= j < |w.strategies| && !w.strategies[j].active ==> w'.strategies[j] == w.strategies[j])
    && (forall j :: 0 <= j < |w.strategies| && w.strategies[j].active ==>
          Moved(w.strategies[j], w'.strategies[j], share))
    && w'.vault == w.vault.(idleAssets := w'.vault.idleAssets)
  }

  lemma PassMoves(w: World, caller: nat, lost: set<nat>)
    requires ActiveCount(w) > 0
    ensures MovedTowards(w, UngatedPass(w, caller, lost), FairShare(w))
  {
    var targets := TargetsOf(w);
    TargetsAreCurrent(w);
    TargetsMove(w, caller, lost, targets, w.vault.idleAssets);
    forall j | 0 <= j < |w.strategies| && w.strategies[j].active
      ensures exists k :: 0 <= k < |targets| && targets[k].index == j
    {
      var k := TargetFor(w, j);
      assert targets[k].index == j;
    }
  }

  lemma SameTargets(w: World, w': World)
    requires ActiveCount(w) > 0 && SameActive(w.strategies, w'.strategies)
    ensures ActiveCount(w') == ActiveCount(w)
    ensures PositionsAt(w', TargetsOf(w)) == CurrentValues(FetchStrategies(w'.strategies))
  {
    FetchSameIndices(w.strategies, w'.strategies, 0);
    FetchedFrom(w'.strategies, 0);
  }

  /** Whichever calls fail or get lost, a pass keeps idle assets plus active positions, leaves inactive strategies
      alone and moves no active position past its target. */
  lemma OnePass(w: World, caller: nat, lost: set<nat>)
    requires ActiveCount(w) > 0
    ensures var w' := RebalancePass(w, caller, lost);
            && ActiveCount(w') == ActiveCount(w)
            && ActiveTotal(w') == ActiveTotal(w)
            && MovedTowards(w, w', FairShare(w))
  {
    UngatedConserves(w, caller, lost);
  }

  lemma UngatedConserves(w: World, caller: nat, lost: set<nat>)
    requires ActiveCount(w) > 0
    ensures var w' := UngatedPass(w, caller, lost);
            && ActiveCount(w') == ActiveCount(w)
            && ActiveTotal(w') == ActiveTotal(w)
            && MovedTowards(w, w', FairShare(w))
  {
    PassMoves(w, caller, lost);
    TargetsAreCurrent(w);
    TargetsConserve(w, caller, lost, TargetsOf(w), w.vault.idleAssets);
    SameTargets(w, UngatedPass(w, caller, lost));
  }

  /** When no transaction is lost, a pass by the manager leaves every overweight strategy exactly at its target. */
  lemma OverweightReachTarget(w: World, j: nat)
    requires ActiveCount(w) > 0 && ActiveTotal(w) < U64_LIMIT
    requires j < |w.strategies| && w.strategies[j].active && w.strategies[j].positionValue > FairShare(w)
    ensures PositionAt(UngatedPass(w, w.vault.manager, {}), j) == FairShare(w)
  {
    TargetsAreCurrent(w);
    OverweightLands(w, TargetsOf(w), w.vault.idleAssets);
    var k := TargetFor(w, j);
    assert TargetsOf(w)[k].index == j;
  }

  // ---- Two passes ----

  predicate Room(w: World, share: nat) {
    forall j :: 0 <= j < |w.strategies| && w.strategies[j].active ==> HasRoom(w, j, share)
  }

  /** Every active strategy holds exactly `share` and the rest of `total` is idle. */
  predicate EqualWeight(w: World, share: nat, rest: nat) {
    && (forall j :: 0 <= j < |w.strategies| && w.strategies[j].active ==> w.strategies[j].positionValue == share)
    && w.vault.idleAssets == rest
  }

  predicate NoneOverweight(w: World, share: nat) {
    forall j :: 0 <= j < |w.strategies| && w.strategies[j].active ==> w.strategies[j].positionValue <= share
  }

  /** The remainder stays idle once all active strategies hold their fair share. */
  lemma RemainderIdle(w: World)
    requires ActiveCount(w) > 0
    requires forall j :: 0 <= j < |w.strategies| && w.strategies[j].active ==>
                           w.strategies[j].positionValue == FairShare(w)
    ensures w.vault.idleAssets == ActiveTotal(w) % ActiveCount(w)
  {
    FetchedFrom(w.strategies, 0);
    SumOfEqual(CurrentValues(FetchStrategies(w.strategies)), FairShare(w));
  }

  /** The idle assets cover all shortfalls when nothing is overweight. */
  lemma ShortfallsCovered(w: World)
    requires ActiveCount(w) > 0 && NoneOverweight(w, FairShare(w))
    ensures var targets := TargetsOf(w);
            && Sum(Shortfalls(targets)) <= w.vault.idleAssets
            && forall k :: 0 <= k < |targets| ==> 0 <= targets[k].delta <= w.vault.idleAssets
  {
    var targets := TargetsOf(w);
    TargetsAreCurrent(w);
    ShortfallsSum(targets, PositionsAt(w, targets), FairShare(w));
    ShareIsFloor(ActiveTotal(w), ActiveCount(w));
    forall k | 0 <= k < |targets|
      ensures 0 <= targets[k].delta <= w.vault.idleAssets
    {
      ElementAtMostSum(Shortfalls(targets), k);
    }
  }

  lemma ShareIsFloor(total: nat, count: nat)
    requires count > 0
    ensures count * (total / count) <= total
  {
    assert total == count * (total / count) + total % count;
  }

  /** A pass over strategies of which none is overweight fills those with room and leaves the others alone. */
  lemma FillingPass(w: World, j: nat)
    requires ActiveCount(w) > 0 && NoneOverweight(w, FairShare(w))
    requires j < |w.strategies| && w.strategies[j].active
    ensures FilledOrStuck(w, UngatedPass(w, w.vault.manager, {}), j, FairShare(w))
  {
    TargetsAreCurrent(w);
    ShortfallsCovered(w);
    ShortfallsFill(w, TargetsOf(w), w.vault.idleAssets);
    var k := TargetFor(w, j);
    assert FilledOrStuck(w, UngatedPass(w, w.vault.manager, {}), TargetsOf(w)[k].index, FairShare(w));
  }

  /** A pass finds nothing to do once every strategy is at its share or has no room to get there. */
  lemma IdlePass(w: World)
    requires ActiveCount(w) > 0 && NoneOverweight(w, FairShare(w))
    requires forall j :: 0 <= j < |w.strategies| && w.strategies[j].active ==>
                           w.strategies[j].positionValue == FairShare(w) || !HasRoom(w, j, FairShare(w))
    ensures UngatedPass(w, w.vault.manager, {}) == w
  {
    TargetsAreCurrent(w);
    ShortfallsCovered(w);
    NothingLeftToFill(w, TargetsOf(w), w.vault.idleAssets);
  }

  lemma FirstPass(w: World)
    requires ActiveCount(w) > 0 && ActiveTotal(w) < U64_LIMIT
    ensures NoneOverweight(UngatedPass(w, w.vault.manager, {}), FairShare(w))
  {
    var w1 := UngatedPass(w, w.vault.manager, {});
    PassMoves(w, w.vault.manager, {});
    forall j | 0 <= j < |w1.strategies| && w1.strategies[j].active
      ensures w1.strategies[j].positionValue <= FairShare(w)
    {
      if w.strategies[j].positionValue > FairShare(w) {
        OverweightReachTarget(w, j);
      }
    }
  }

  /** The same active strategies have room for `share`. */
  predicate SameRoom(w: World, w': World, share: nat) {
    && |w'.strategies| == |w.strategies|
    && forall j :: 0 <= j < |w.strategies| ==>
                     && w'.strategies[j].active == w.strategies[j].active
                     && (w.strategies[j].active ==> (HasRoom(w', j, share) <==> HasRoom(w, j, share)))
  }

  /** A pass uses up exactly the room it fills. */
  lemma PassKeepsRoom(w: World, lost: set<nat>)
    requires ActiveCount(w) > 0
    ensures SameRoom(w, UngatedPass(w, w.vault.manager, lost), FairShare(w))
  {
    PassMoves(w, w.vault.manager, lost);
  }

  /** In `w2` exactly those active strategies hold `share` that had room for it in `w`. */
  predicate SharedByRoom(w: World, w2: World, share: nat) {
    && |w2.strategies| == |w.strategies|
    && forall j :: 0 <= j < |w.strategies| && w.strategies[j].active ==>
                     (w2.strategies[j].positionValue == share <==> HasRoom(w, j, share))
  }

  /** After two passes in a row, whatever the first one could not do with its stale idle figure, an active strategy
      holds exactly the fair share if and only if its allocation counter had room, and a third pass does nothing. */
  lemma TwoPassesShareByRoom(w: World)
    requires ActiveCount(w) > 0 && ActiveTotal(w) < U64_LIMIT
    ensures var w1 := UngatedPass(w, w.vault.manager, {});
            var w2 := UngatedPass(w1, w1.vault.manager, {});
            && SharedByRoom(w, w2, FairShare(w))
            && UngatedPass(w2, w2.vault.manager, {}) == w2
  {
    var w1 := UngatedPass(w, w.vault.manager, {});
    var w2 := UngatedPass(w1, w1.vault.manager, {});
    UngatedConserves(w, w.vault.manager, {});
    UngatedConserves(w1, w1.vault.manager, {});
    FirstPass(w);
    PassKeepsRoom(w, {});
    forall j | 0 <= j < |w.strategies| && w.strategies[j].active
      ensures w2.strategies[j].positionValue <= FairShare(w)
      ensures w2.strategies[j].positionValue == FairShare(w) <==> HasRoom(w, j, FairShare(w))
      ensures w2.strategies[j].positionValue == FairShare(w) || !HasRoom(w2, j, FairShare(w))
    {
      FillingPass(w1, j);
    }
    IdlePass(w2);
  }

  /** Hence two passes reach equal weights exactly when every active strategy has room. */
  lemma TwoPassesConverge(w: World)
    requires ActiveCount(w) > 0 && ActiveTotal(w) < U64_LIMIT
    ensures var w1 := UngatedPass(w, w.vault.manager, {});
            var w2 := UngatedPass(w1, w1.vault.manager, {});
            EqualWeight(w2, FairShare(w), ActiveTotal(w) % ActiveCount(w)) <==> Room(w, FairShare(w))
  {
    var w1 := UngatedPass(w, w.vault.manager, {});
    var w2 := UngatedPass(w1, w1.vault.manager, {});
    TwoPassesShareByRoom(w);
    UngatedConserves(w, w.vault.manager, {});
    UngatedConserves(w1, w1.vault.manager, {});
    if Room(w, FairShare(w)) {
      RemainderIdle(w2);
    }
  }

  // ---- With the threshold ----

  /** No active strategy is further from its target than the threshold. */
  predicate WithinThreshold(w: World, share: nat, total: nat) {
    forall j :: 0 <= j < |w.strategies| && w.strategies[j].active ==>
                  !Exceeds(share - w.strategies[j].positionValue, total)
  }

  lemma GateIsThreshold(w: World)
    requires ActiveCount(w) > 0
    ensures ShouldRebalance(TargetsOf(w), ActiveTotal(w)) <==> !WithinThreshold(w, FairShare(w), ActiveTotal(w))
  {
    var targets := TargetsOf(w);
    TargetsAreCurrent(w);
    forall j | 0 <= j < |w.strategies| && w.strategies[j].active
      ensures exists k :: 0 <= k < |targets| && targets[k].index == j
    {
      var k := TargetFor(w, j);
      assert targets[k].index == j;
    }
  }

  function Iterate<T>(f: T -> T, x: T, count: nat): T {
    if count == 0 then x else f(Iterate(f, x, count - 1))
  }

  lemma {:induction false} FixedPointStays<T>(f: T -> T, x: T, count: nat, more: nat)
    requires f(Iterate(f, x, count)) == Iterate(f, x, count)
    ensures Iterate(f, x, count + more) == Iterate(f, x, count)
    decreases more
  {
    if more == 0 {
    } else {
      FixedPointStays(f, x, count, more - 1);
    }
  }

  /** A complete pass of the manager's bot. */
  function CompletePass(manager: nat): World -> World {
    (w: World) => RebalancePass(w, manager, {})
  }

  function Passes(w: World, count: nat): World {
    Iterate(CompletePass(w.vault.manager), w, count)
  }

  lemma ReadableWhenSmall(w: World)
    requires ActiveTotal(w) < UNSAFE_INTEGER
    ensures Readable(w)
  {
    var infos := FetchStrategies(w.strategies);
    forall k | 0 <= k < |infos|
      ensures infos[k].positionValue < UNSAFE_INTEGER
    {
      ElementAtMostSum(CurrentValues(infos), k);
    }
  }

  /** The bot acts on `w`: it can read every number and finds a weight beyond the threshold. */
  predicate Acts(w: World)
    requires ActiveCount(w) > 0
  {
    Readable(w) && !WithinThreshold(w, FairShare(w), ActiveTotal(w))
  }

  /** Strategy `j` is further from its share than a two-hundredth of the total. */
  predicate BeyondHalfPercent(w: World, j: nat)
    requires ActiveCount(w) > 0
  {
    && j < |w.strategies| && w.strategies[j].active
    && var delta := FairShare(w) - w.strategies[j].positionValue;
       200 * delta > ActiveTotal(w) || -200 * delta > ActiveTotal(w)
  }

  /** Idle assets and all active positions are below 2^53. */
  predicate BelowUnsafe(w: World) {
    && w.vault.idleAssets < 9_007_199_254_740_992
    && forall j :: 0 <= j < |w.strategies| && w.strategies[j].active ==>
         w.strategies[j].positionValue < 9_007_199_254_740_992
  }

  lemma ReadableExactly(w: World)
    ensures Readable(w) <==> BelowUnsafe(w)
  {
    var infos := FetchStrategies(w.strategies);
    FetchedFrom(w.strategies, 0);
    forall j | 0 <= j < |w.strategies| && w.strategies[j].active
      ensures exists k :: 0 <= k < |infos| && infos[k].index == j
    {
      ActiveIsFetched(w.strategies, 0, j);
    }
    if Readable(w) {
      forall j | 0 <= j < |w.strategies| && w.strategies[j].active
        ensures w.strategies[j].positionValue < 9_007_199_254_740_992
      {
        var k :| 0 <= k < |infos| && infos[k].index == j;
        assert infos[k].positionValue == w.strategies[j].positionValue;
      }
    }
  }

  /** A pass issues calls exactly when the bot can read the vault and a weight is beyond the threshold. */
  lemma GatedPass(w: World, caller: nat, lost: set<nat>)
    requires ActiveCount(w) > 0
    ensures RebalancePass(w, caller, lost) == if Acts(w) then UngatedPass(w, caller, lost) else w
    ensures Acts(w) <==> BelowUnsafe(w) && exists j :: BeyondHalfPercent(w, j)
    ensures ActiveTotal(w) < UNSAFE_INTEGER ==> Readable(w)
  {
    GateIsThreshold(w);
    ReadableExactly(w);
    if !WithinThreshold(w, FairShare(w), ActiveTotal(w)) {
      var j :| 0 <= j < |w.strategies| && w.strategies[j].active
               && Exceeds(FairShare(w) - w.strategies[j].positionValue, ActiveTotal(w));
      assert BeyondHalfPercent(w, j);
    }
    if ActiveTotal(w) < UNSAFE_INTEGER {
      ReadableWhenSmall(w);
    }
  }

  /** In `w2` every active strategy that had room for `share` in `w` is within the threshold of it. */
  predicate RoomyWithinThreshold(w: World, w2: World, share: nat, total: nat) {
    && |w2.strategies| == |w.strategies|
    && forall j :: 0 <= j < |w.strategies| && w.strategies[j].active && HasRoom(w, j, share) ==>
                     !Exceeds(share - w2.strategies[j].positionValue, total)
  }

  lemma SecondPass(w: World)
    requires ActiveCount(w) > 0 && ActiveTotal(w) < U64_LIMIT
    ensures var w1 := RebalancePass(w, w.vault.manager, {});
            var w2 := RebalancePass(w1, w.vault.manager, {});
            && ActiveCount(w1) > 0
            && (if Acts(w1) then SharedByRoom(w, w2, FairShare(w)) else w2 == w1)
            && (ActiveTotal(w) < UNSAFE_INTEGER ==> RoomyWithinThreshold(w, w2, FairShare(w), ActiveTotal(w)))
            && RebalancePass(w2, w.vault.manager, {}) == w2
  {
    var w1 := RebalancePass(w, w.vault.manager, {});
    var w2 := RebalancePass(w1, w.vault.manager, {});
    OnePass(w, w.vault.manager, {});
    OnePass(w1, w.vault.manager, {});
    GatedPass(w, w.vault.manager, {});
    GatedPass(w1, w.vault.manager, {});
    GatedPass(w2, w.vault.manager, {});
    if Acts(w1) {
      TwoPassesShareByRoom(w);
    }
  }

  /** Two passes of the bot settle the vault: no later pass changes anything. If the second pass acted, exactly the
      strategies with room hold exactly the fair share. While all numbers are readable, every strategy with room is
      within the threshold of the fair share in any case. */
  lemma TwoPassesSettle(w: World, more: nat)
    requires ActiveCount(w) > 0 && ActiveTotal(w) < U64_LIMIT
    ensures var w1, w2 := Passes(w, 1), Passes(w, 2);
            && Passes(w, 2 + more) == w2
            && ActiveCount(w1) > 0
            && (if Acts(w1) then SharedByRoom(w, w2, FairShare(w)) else w2 == w1)
            && (ActiveTotal(w) < UNSAFE_INTEGER ==> RoomyWithinThreshold(w, w2, FairShare(w), ActiveTotal(w)))
  {
    FirstTwoPasses(w);
    SecondPass(w);
    FixedPointStays(CompletePass(w.vault.manager), w, 2, more);
  }

  lemma FirstTwoPasses(w: World)
    ensures Passes(w, 1) == RebalancePass(w, w.vault.manager, {})
    ensures Passes(w, 2) == RebalancePass(Passes(w, 1), w.vault.manager, {})
  {
    var pass := CompletePass(w.vault.manager);
    assert Iterate(pass, w, 0) == w;
    assert Iterate(pass, w, 1) == pass(w);
  }

  // ---- After lost transactions ----

  /** Passes of the bot of which any transactions may be lost. */
  function LossyPasses(w: World, losses: seq<set<nat>>): World
    decreases |losses|
  {
    if losses == [] then w else LossyPasses(RebalancePass(w, w.vault.manager, losses[0]), losses[1..])
  }

  lemma {:induction false} LossyPassesKeepTotals(w: World, losses: seq<set<nat>>)
    requires ActiveCount(w) > 0
    ensures var w' := LossyPasses(w, losses);
            && ActiveCount(w') == ActiveCount(w)
            && ActiveTotal(w') == ActiveTotal(w)
            && SameRoom(w, w', FairShare(w))
    decreases |losses|
  {
    if losses == [] {
    } else {
      OnePass(w, w.vault.manager, losses[0]);
      PassKeepsRoom(w, losses[0]);
      LossyPassesKeepTotals(RebalancePass(w, w.vault.manager, losses[0]), losses[1..]);
    }
  }

  /** However many passes lost whatever transactions, two complete passes afterwards settle the vault. If the second of
      them acted, exactly those strategies hold the fair share of the original vault that had room for it there. While
      all numbers are readable, every strategy that had room is within the threshold of that share in any case. */
  lemma ConvergesAfterLosses(w: World, losses: seq<set<nat>>, more: nat)
    requires ActiveCount(w) > 0 && ActiveTotal(w) < U64_LIMIT
    ensures var w0 := LossyPasses(w, losses);
            var w1, w2 := Passes(w0, 1), Passes(w0, 2);
            && Passes(w0, 2 + more) == w2
            && ActiveCount(w1) > 0
            && (if Acts(w1) then SharedByRoom(w, w2, FairShare(w)) else w2 == w1)
            && (ActiveTotal(w) < UNSAFE_INTEGER ==> RoomyWithinThreshold(w, w2, FairShare(w), ActiveTotal(w)))
  {
    LossyPassesKeepTotals(w, losses);
    TwoPassesSettle(LossyPasses(w, losses), more);
  }
}
