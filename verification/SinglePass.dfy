/** Exactly what one pass of the bot does to each strategy, from the idle figure it read at the start. */
module SinglePass {
  import opened Machine
  import opened Token
  import opened VaultModel
  import opened Books
  import opened RebalanceBot
  import opened Rebalancing

  /** What is idle when strategy `i` has its turn, if `w` became `w'`: what was idle before the pass and what the
      strategies before `i` gave back, less what they took. */
  function IdleAtTurn(w: World, w': World, i: nat): int
    requires i < |w.strategies| == |w'.strategies|
  {
    w.vault.idleAssets + Deployed(w.strategies[..i]) - Deployed(w'.strategies[..i])
  }

  /** Strategy `i` was served by a pass from `w` to `w'` that read `snapshot` idle assets at the start: a lost call
      changes nothing; an overweight strategy comes down to `share`; an underweight one asks for what it is short of,
      but no more than the snapshot, and gets all of that or, when it is not idle any more or its counter has no room,
      nothing. */
  predicate Served(w: World, w': World, lost: set<nat>, i: nat, share: nat, snapshot: U64)
    requires i < |w.strategies| == |w'.strategies|
  {
    var s, s' := w.strategies[i], w'.strategies[i];
    var amount := Min(share - s.positionValue, snapshot);
    if i in lost then s' == s
    else if s.positionValue > share then s' == s.(positionValue := share, lastUpdateTs := w.now)
    else if 0 < amount <= IdleAtTurn(w, w', i) && s.totalAllocated + amount < U64_LIMIT then
      && s'.positionValue == s.positionValue + amount
      && s'.totalAllocated == s.totalAllocated + amount
      && s'.active && s'.lastUpdateTs == w.now
    else s' == s
  }

  lemma HeadServed(w: World, lost: set<nat>, target: AllocationTarget, snapshot: U64)
    requires Current(w, target) && w.vault.idleAssets + target.currentValue < U64_LIMIT
    ensures var w1 := ExecuteTarget(w, w.vault.manager, lost, target, snapshot);
            && |w1.strategies| == |w.strategies|
            && w1.strategies[..target.index] == w.strategies[..target.index]
            && w1.now == w.now
            && Served(w, w1, lost, target.index, target.targetValue, snapshot)
  {
  }

  /** What follows a turn without touching the strategies up to `i` does not matter to it. */
  lemma StaysServed(w: World, w1: World, w': World, lost: set<nat>, i: nat, share: nat, snapshot: U64)
    requires i < |w.strategies| == |w1.strategies| == |w'.strategies|
    requires w'.strategies[..i + 1] == w1.strategies[..i + 1]
    requires Served(w, w1, lost, i, share, snapshot)
    ensures Served(w, w', lost, i, share, snapshot)
  {
    assert w'.strategies[..i] == w'.strategies[..i + 1][..i] == w1.strategies[..i];
    assert w'.strategies[i] == w'.strategies[..i + 1][i] == w1.strategies[i];
  }

  /** A later turn finds the same idle assets whether it is counted from before or after the first one. */
  lemma LaterTurn(w: World, w1: World, w': World, i: nat, j: nat)
    requires i < j < |w.strategies| == |w1.strategies| == |w'.strategies|
    requires forall k :: 0 <= k < |w.strategies| && k != i ==> w1.strategies[k] == w.strategies[k]
    requires w1.vault.idleAssets + w1.strategies[i].positionValue == w.vault.idleAssets + w.strategies[i].positionValue
    ensures IdleAtTurn(w1, w', j) == IdleAtTurn(w, w', j)
  {
    assert w1.strategies[..j] == w.strategies[..j][i := w1.strategies[i]];
    DeployedUpdate(w.strategies[..j], i, w1.strategies[i]);
  }

  predicate AllServed(w: World, w': World, lost: set<nat>, targets: seq<AllocationTarget>, snapshot: U64) {
    && |w'.strategies| == |w.strategies|
    && forall k :: 0 <= k < |targets| ==>
         targets[k].index < |w.strategies| && Served(w, w', lost, targets[k].index, targets[k].targetValue, snapshot)
  }

  lemma RestServed(w: World, w1: World, w': World, lost: set<nat>, targets: seq<AllocationTarget>, snapshot: U64)
    requires targets != [] && AllCurrent(w, targets)
    requires |w1.strategies| == |w.strategies| && w1.now == w.now
    requires var i := targets[0].index;
             && (forall j :: 0 <= j < |w.strategies| && j != i ==> w1.strategies[j] == w.strategies[j])
             && w1.vault.idleAssets + w1.strategies[i].positionValue
                == w.vault.idleAssets + w.strategies[i].positionValue
    requires AllServed(w1, w', lost, targets[1..], snapshot)
    requires Served(w, w', lost, targets[0].index, targets[0].targetValue, snapshot)
    ensures AllServed(w, w', lost, targets, snapshot)
  {
    forall k | 1 <= k < |targets|
      ensures Served(w, w', lost, targets[k].index, targets[k].targetValue, snapshot)
    {
      assert targets[1..][k - 1] == targets[k];
      LaterTurn(w, w1, w', targets[0].index, targets[k].index);
    }
  }

  lemma {:induction false} TargetsServed(w: World, lost: set<nat>, targets: seq<AllocationTarget>, snapshot: U64)
    requires AllCurrent(w, targets)
    requires w.vault.idleAssets + Sum(PositionsAt(w, targets)) < U64_LIMIT
    ensures AllServed(w, ExecuteTargets(w, w.vault.manager, lost, targets, snapshot), lost, targets, snapshot)
    decreases |targets|
  {
    if targets == [] {
    } else {
      var target, rest := targets[0], targets[1..];
      var w1 := ExecuteTarget(w, w.vault.manager, lost, target, snapshot);
      var w' := ExecuteTargets(w1, w.vault.manager, lost, rest, snapshot);
      HeadPosition(w, targets);
      HeadServed(w, lost, target, snapshot);
      TargetMoves(w, w.vault.manager, lost, target, snapshot);
      OtherPositions(w, w1, rest, target.index);
      TargetsServed(w1, lost, rest, snapshot);
      EarlierUntouched(w1, lost, rest, snapshot, target.index);
      StaysServed(w, w1, w', lost, target.index, target.targetValue, snapshot);
      RestServed(w, w1, w', lost, targets, snapshot);
    }
  }

  /** Executing targets leaves every strategy up to `i`, when they all come after it. */
  lemma EarlierUntouched(w: World, lost: set<nat>, targets: seq<AllocationTarget>, snapshot: U64, i: nat)
    requires AllCurrent(w, targets) && i < |w.strategies|
    requires forall k :: 0 <= k < |targets| ==> i < targets[k].index
    ensures var w' := ExecuteTargets(w, w.vault.manager, lost, targets, snapshot);
            |w'.strategies| == |w.strategies| && w'.strategies[..i + 1] == w.strategies[..i + 1]
  {
    TargetsMove(w, w.vault.manager, lost, targets, snapshot);
  }

  /** A pass by the manager, whichever of its calls are lost, serves every active strategy in turn, asking for no more
      than the idle assets it read at the start, and leaves the inactive ones alone. */
  lemma PassExactly(w: World, lost: set<nat>, j: nat)
    requires ActiveCount(w) > 0 && ActiveTotal(w) < U64_LIMIT && j < |w.strategies|
    ensures var w' := UngatedPass(w, w.vault.manager, lost);
            && |w'.strategies| == |w.strategies|
            && if w.strategies[j].active then Served(w, w', lost, j, FairShare(w), w.vault.idleAssets)
               else w'.strategies[j] == w.strategies[j]
  {
    PassMoves(w, w.vault.manager, lost);
    if w.strategies[j].active {
      TargetsAreCurrent(w);
      TargetsServed(w, lost, TargetsOf(w), w.vault.idleAssets);
      var k := TargetFor(w, j);
      assert TargetsOf(w)[k].index == j;
    }
  }

  /** A pass by anyone else does nothing. */
  lemma StrangersPass(w: World, caller: nat, lost: set<nat>)
    requires caller != w.vault.manager
    ensures UngatedPass(w, caller, lost) == w && RebalancePass(w, caller, lost) == w
  {
    StrangersTargets(w, caller, lost, TargetsOf(w), w.vault.idleAssets);
  }

  lemma {:induction false} StrangersTargets(w: World, caller: nat, lost: set<nat>, targets: seq<AllocationTarget>,
                                            snapshot: U64)
    requires caller != w.vault.manager
    ensures ExecuteTargets(w, caller, lost, targets, snapshot) == w
    decreases |targets|
  {
    if targets == [] {
    } else {
      StrangersTargets(w, caller, lost, targets[1..], snapshot);
    }
  }
}
