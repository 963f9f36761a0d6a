/** The circuit balancer's split: src/modules/balancer-mqtt-circuit/allocator.ts. */
module Allocator {
  import opened Prelude

  const OCPP_MIN_A := 6.0
  const HYSTERESIS_A := 1.0

  datatype ChargeMode = Disabled | Smart | Fast

  datatype Snapshot = Snapshot(id: string, mode: ChargeMode, shouldChargeNow: Option<bool>, targetReached: bool,
                               pauseOnTarget: bool, maxCurrentA: real, commandedA: Option<real>)

  predicate Wanting(lp: Snapshot) {
    match lp.mode
    case Disabled => false
    case Smart => lp.shouldChargeNow != Some(false)
    case Fast => !(lp.targetReached && lp.pauseOnTarget)
  }

  predicate WantsFast(lp: Snapshot) {
    Wanting(lp) && lp.mode == Fast
  }

  predicate WantsSmart(lp: Snapshot) {
    Wanting(lp) && lp.mode != Fast
  }

  /** Hysteresis around the last command, then the 6 A floor of IEC 61851 section A.4.1.1. */
  function Settled(give: real, previous: Option<real>): real {
    var stable := if previous.Some? && Abs(give - previous.value) <= HYSTERESIS_A then previous.value else give;
    if stable < OCPP_MIN_A then 0.0 else stable
  }

  function SmartCount(lps: seq<Snapshot>): nat {
    if lps == [] then 0 else (if WantsSmart(lps[0]) then 1 else 0) + SmartCount(lps[1..])
  }

  /** What the fast loadpoints among the first `i` have left of the budget. */
  function Remaining(lps: seq<Snapshot>, budget: real, i: nat): real
    requires i <= |lps|
  {
    if i == 0 then budget
    else
      var before := Remaining(lps, budget, i - 1);
      if WantsFast(lps[i - 1])
      then before - Settled(Min(lps[i - 1].maxCurrentA, before), lps[i - 1].commandedA)
      else before
  }

  /** A smart loadpoint's equal share of what the fast ones left. */
  function Share(lps: seq<Snapshot>, budget: real): real {
    if SmartCount(lps) == 0 then 0.0
    else (Remaining(lps, budget, |lps|) / SmartCount(lps) as real).Floor as real
  }

  /** What loadpoint `i` is offered before hysteresis. */
  function Give(lps: seq<Snapshot>, budget: real, i: nat): real
    requires i < |lps|
  {
    Min(lps[i].maxCurrentA, if lps[i].mode == Fast then Remaining(lps, budget, i) else Share(lps, budget))
  }

  function Allocation(lps: seq<Snapshot>, budget: real, i: nat): real
    requires i < |lps|
  {
    if Wanting(lps[i]) then Settled(Give(lps, budget, i), lps[i].commandedA) else 0.0
  }

  ghost predicate DistinctIds(lps: seq<Snapshot>) {
    forall i, j :: 0 <= i < j < |lps| ==> lps[i].id != lps[j].id
  }

  function Ids(lps: seq<Snapshot>): set<string> {
    set lp | lp in lps :: lp.id
  }

  ghost predicate Given(allocations: map<string, real>, lps: seq<Snapshot>, budget: real, i: nat)
    requires i < |lps|
  {
    lps[i].id in allocations && allocations[lps[i].id] == Allocation(lps, budget, i)
  }

  lemma GiveOne(allocations: map<string, real>, lps: seq<Snapshot>, budget: real, i: nat)
    requires DistinctIds(lps) && i < |lps| && allocations.Keys <= Ids(lps)
    ensures var more := allocations[lps[i].id := Allocation(lps, budget, i)];
      && more.Keys <= Ids(lps) && Given(more, lps, budget, i)
      && forall j :: 0 <= j < |lps| && Given(allocations, lps, budget, j) ==> Given(more, lps, budget, j)
  {
    forall j | 0 <= j < |lps| && j != i ensures lps[j].id != lps[i].id {
    }
  }

  /** Loadpoints that want nothing get 0. */
  method ZeroOut(lps: seq<Snapshot>, ghost budget: real) returns (allocations: map<string, real>, smart: nat)
    requires DistinctIds(lps)
    ensures allocations.Keys <= Ids(lps) && smart == SmartCount(lps)
    ensures forall j :: 0 <= j < |lps| && !Wanting(lps[j]) ==> Given(allocations, lps, budget, j)
  {
    allocations, smart := map[], 0;
    for i := 0 to |lps|
      invariant allocations.Keys <= Ids(lps)
      invariant forall j :: 0 <= j < i && !Wanting(lps[j]) ==> Given(allocations, lps, budget, j)
      invariant smart + SmartCount(lps[i..]) == SmartCount(lps)
    {
      if !Wanting(lps[i]) {
        GiveOne(allocations, lps, budget, i);
        allocations := allocations[lps[i].id := 0.0];
      } else if lps[i].mode != Fast {
        smart := smart + 1;
      }
    }
  }

  /** Fast loadpoints are served in declaration order. */
  method ServeFast(lps: seq<Snapshot>, budget: real, zeroed: map<string, real>)
    returns (allocations: map<string, real>, remaining: real)
    requires DistinctIds(lps) && zeroed.Keys <= Ids(lps)
    requires forall j :: 0 <= j < |lps| && !Wanting(lps[j]) ==> Given(zeroed, lps, budget, j)
    ensures allocations.Keys <= Ids(lps) && remaining == Remaining(lps, budget, |lps|)
    ensures forall j :: 0 <= j < |lps| && !WantsSmart(lps[j]) ==> Given(allocations, lps, budget, j)
  {
    allocations, remaining := zeroed, budget;
    for i := 0 to |lps|
      invariant remaining == Remaining(lps, budget, i) && allocations.Keys <= Ids(lps)
      invariant forall j :: 0 <= j < |lps| && (!Wanting(lps[j]) || (j < i && WantsFast(lps[j]))) ==>
        Given(allocations, lps, budget, j)
    {
      if WantsFast(lps[i]) {
        GiveOne(allocations, lps, budget, i);
        var final := Settled(Min(lps[i].maxCurrentA, remaining), lps[i].commandedA);
        allocations := allocations[lps[i].id := final];
        remaining := remaining - final;
      }
    }
  }

  method Allocate(lps: seq<Snapshot>, circuitBudgetA: real) returns (allocations: map<string, real>)
    requires DistinctIds(lps)
    ensures allocations.Keys == Ids(lps)
    ensures forall i :: 0 <= i < |lps| ==> Given(allocations, lps, circuitBudgetA, i)
  {
    var zeroed, smart := ZeroOut(lps, circuitBudgetA);
    var remaining;
    allocations, remaining := ServeFast(lps, circuitBudgetA, zeroed);
    if smart > 0 {
      var share := (remaining / smart as real).Floor as real;
      for i := 0 to |lps|
        invariant allocations.Keys <= Ids(lps)
        invariant forall j :: 0 <= j < |lps| && (!WantsSmart(lps[j]) || j < i) ==>
          Given(allocations, lps, circuitBudgetA, j)
      {
        if WantsSmart(lps[i]) {
          GiveOne(allocations, lps, circuitBudgetA, i);
          allocations := allocations[lps[i].id := Settled(Min(share, lps[i].maxCurrentA), lps[i].commandedA)];
        }
      }
    } else {
      NoneSmart(lps);
    }
    AllGiven(allocations, lps, circuitBudgetA);
  }

  lemma AllGiven(allocations: map<string, real>, lps: seq<Snapshot>, budget: real)
    requires forall i :: 0 <= i < |lps| ==> Given(allocations, lps, budget, i)
    ensures Ids(lps) <= allocations.Keys
  {
    forall id | id in Ids(lps) ensures id in allocations {
      var i :| 0 <= i < |lps| && lps[i].id == id;
      assert Given(allocations, lps, budget, i);
    }
  }

  lemma {:induction false} NoneSmart(lps: seq<Snapshot>)
    requires SmartCount(lps) == 0
    ensures forall i :: 0 <= i < |lps| ==> !WantsSmart(lps[i])
  {
    if lps != [] {
      NoneSmart(lps[1..]);
    }
  }

  // ---------- how far a split can exceed the budget ----------

  /** Off, or at least the minimum charge current. */
  ghost predicate Sane(command: Option<real>) {
    command.Some? ==> command.value == 0.0 || OCPP_MIN_A <= command.value
  }

  ghost predicate AllSane(lps: seq<Snapshot>) {
    forall lp :: lp in lps ==> Sane(lp.commandedA)
  }

  function FastTotal(lps: seq<Snapshot>, budget: real, i: nat): real
    requires i <= |lps|
  {
    if i == 0 then 0.0
    else FastTotal(lps, budget, i - 1) + if WantsFast(lps[i - 1]) then Allocation(lps, budget, i - 1) else 0.0
  }

  function SmartTotal(lps: seq<Snapshot>, budget: real, i: nat): real
    requires i <= |lps|
  {
    if i == 0 then 0.0
    else SmartTotal(lps, budget, i - 1) + if WantsSmart(lps[i - 1]) then Allocation(lps, budget, i - 1) else 0.0
  }

  function TotalAllocated(lps: seq<Snapshot>, budget: real): real {
    FastTotal(lps, budget, |lps|) + SmartTotal(lps, budget, |lps|)
  }

  /** However many fast loadpoints there are, together they exceed the budget by at most the hysteresis
      of one of them. */
  lemma {:induction false} FastOvershootsByOneAtMost(lps: seq<Snapshot>, budget: real, i: nat)
    requires AllSane(lps) && budget >= 0.0 && i <= |lps|
    ensures FastTotal(lps, budget, i) == budget - Remaining(lps, budget, i)
    ensures FastTotal(lps, budget, i) <= budget + HYSTERESIS_A
  {
    if i > 0 {
      FastOvershootsByOneAtMost(lps, budget, i - 1);
      assert lps[i - 1] in lps;
    }
  }

  /** Smart loadpoint counts add up from the right as well. */
  lemma {:induction false} SmartCountPrefix(lps: seq<Snapshot>, i: nat)
    requires i < |lps|
    ensures SmartCount(lps[..i + 1]) == SmartCount(lps[..i]) + if WantsSmart(lps[i]) then 1 else 0
  {
    if i == 0 {
      assert lps[..1] == [lps[0]] && lps[..0] == [];
    } else {
      assert lps[..i + 1][1..] == lps[1..][..i] && lps[..i][1..] == lps[1..][..i - 1];
      SmartCountPrefix(lps[1..], i - 1);
    }
  }

  /** `per` for each smart loadpoint among the first `i`. */
  function Budgeted(lps: seq<Snapshot>, per: real, i: nat): real
    requires i <= |lps|
  {
    if i == 0 then 0.0 else Budgeted(lps, per, i - 1) + if WantsSmart(lps[i - 1]) then per else 0.0
  }

  function Times(n: nat, per: real): real {
    n as real * per
  }

  lemma TimesStep(n: nat, per: real)
    ensures Times(0, per) == 0.0 && Times(n + 1, per) == Times(n, per) + per
  {
  }

  lemma {:induction false} BudgetedIsMultiple(lps: seq<Snapshot>, per: real, i: nat)
    requires i <= |lps|
    ensures Budgeted(lps, per, i) == Times(SmartCount(lps[..i]), per)
  {
    hide Times, WantsSmart;
    if i > 0 {
      BudgetedIsMultiple(lps, per, i - 1);
      SmartCountPrefix(lps, i - 1);
      TimesStep(SmartCount(lps[..i - 1]), per);
    } else {
      assert lps[..0] == [];
      TimesStep(0, per);
    }
  }

  /** No smart loadpoint gets more than `cap`, so together they get at most `cap` each. */
  lemma {:induction false} SmartTotalWithin(lps: seq<Snapshot>, budget: real, cap: real, i: nat)
    requires i <= |lps|
    requires forall j :: 0 <= j < |lps| && WantsSmart(lps[j]) ==> Allocation(lps, budget, j) <= cap
    ensures SmartTotal(lps, budget, i) <= Budgeted(lps, cap, i)
  {
    if i > 0 {
      SmartTotalWithin(lps, budget, cap, i - 1);
    }
  }

  lemma ShareFits(lps: seq<Snapshot>, budget: real)
    requires SmartCount(lps) > 0
    ensures SmartCount(lps) as real * Share(lps, budget) <= Remaining(lps, budget, |lps|)
  {
    hide SmartCount, Remaining;
    FloorFits(SmartCount(lps) as real, Remaining(lps, budget, |lps|));
  }

  lemma FloorFits(m: real, total: real)
    requires m > 0.0
    ensures m * (total / m).Floor as real <= total
  {
    var quotient := total / m;
    assert m * quotient == total;
    assert m * (quotient - quotient.Floor as real) >= 0.0;
  }

  /** What all smart loadpoints get together when none gets more than `cap`. */
  lemma SmartTotalByCap(lps: seq<Snapshot>, budget: real, cap: real)
    requires forall j :: 0 <= j < |lps| && WantsSmart(lps[j]) ==> Allocation(lps, budget, j) <= cap
    ensures SmartTotal(lps, budget, |lps|) <= SmartCount(lps) as real * cap
  {
    SmartTotalWithin(lps, budget, cap, |lps|);
    BudgetedIsMultiple(lps, cap, |lps|);
    assert lps[..|lps|] == lps;
  }

  function Slack(lps: seq<Snapshot>): real {
    Max(1.0, SmartCount(lps) as real)
  }

  /** A split exceeds the budget by at most 1 A, or 1 A per wanting smart loadpoint. */
  lemma SplitWithinSlack(lps: seq<Snapshot>, budget: real)
    requires AllSane(lps) && budget >= 0.0
    ensures TotalAllocated(lps, budget) <= budget + Slack(lps)
  {
    hide *;
    hide Slack, TotalAllocated;
    FastOvershootsByOneAtMost(lps, budget, |lps|);
    if SmartCount(lps) == 0 || Remaining(lps, budget, |lps|) < 0.0 {
      NothingForSmart(lps, budget);
    } else {
      SmartWithinSlack(lps, budget);
    }
    SlackIs(lps, budget);
  }

  lemma SlackIs(lps: seq<Snapshot>, budget: real)
    ensures TotalAllocated(lps, budget) == FastTotal(lps, budget, |lps|) + SmartTotal(lps, budget, |lps|)
    ensures Slack(lps) >= 1.0 == HYSTERESIS_A && Slack(lps) >= SmartCount(lps) as real
  {
  }

  /** With nothing left by the fast loadpoints, the smart ones get nothing. */
  lemma NothingForSmart(lps: seq<Snapshot>, budget: real)
    requires AllSane(lps) && (SmartCount(lps) == 0 || Remaining(lps, budget, |lps|) < 0.0)
    ensures SmartTotal(lps, budget, |lps|) <= 0.0
  {
    hide SmartTotal, FastTotal, Remaining, SmartCount;
    if SmartCount(lps) == 0 {
      NoneSmart(lps);
    } else {
      assert Share(lps, budget) <= -1.0 by {
        ShareFits(lps, budget);
        NegativeShare(SmartCount(lps) as real, Share(lps, budget), Remaining(lps, budget, |lps|));
      }
      forall j | 0 <= j < |lps| && WantsSmart(lps[j]) ensures Allocation(lps, budget, j) <= 0.0 {
        assert lps[j] in lps;
      }
    }
    SmartTotalByCap(lps, budget, 0.0);
  }

  /** Otherwise each gets its share and at most the hysteresis on top. */
  lemma SmartWithinSlack(lps: seq<Snapshot>, budget: real)
    requires SmartCount(lps) > 0 && Remaining(lps, budget, |lps|) >= 0.0
    ensures SmartTotal(lps, budget, |lps|) <= Remaining(lps, budget, |lps|) + SmartCount(lps) as real
  {
    hide SmartTotal, FastTotal, Remaining, SmartCount;
    var share := Share(lps, budget);
    ShareFits(lps, budget);
    ShareNonNegative(lps, budget);
    hide Share;
    SmartTotalByCap(lps, budget, share + 1.0);
    PlusOneEach(SmartCount(lps) as real, share);
  }

  lemma ShareNonNegative(lps: seq<Snapshot>, budget: real)
    requires SmartCount(lps) > 0 && Remaining(lps, budget, |lps|) >= 0.0
    ensures Share(lps, budget) >= 0.0
  {
    assert Remaining(lps, budget, |lps|) / SmartCount(lps) as real >= 0.0;
  }

  lemma PlusOneEach(m: real, share: real)
    ensures m * (share + 1.0) == m * share + m
  {
  }

  lemma NegativeShare(m: real, share: real, left: real)
    requires m > 0.0 && m * share <= left < 0.0 && share == share.Floor as real
    ensures share <= -1.0
  {
    assert share >= 0.0 ==> m * share >= 0.0;
  }

  /** With no earlier commands to hold on to there is no overshoot at all. */
  lemma FreshSplitWithinBudget(lps: seq<Snapshot>, budget: real)
    requires budget >= 0.0 && forall lp :: lp in lps ==> lp.commandedA.None?
    ensures TotalAllocated(lps, budget) <= budget
  {
    hide SmartTotal, FastTotal, Remaining, SmartCount;
    FreshFastWithin(lps, budget, |lps|);
    if SmartCount(lps) == 0 {
      SmartTotalByCap(lps, budget, 0.0) by { NoneSmart(lps); }
    } else {
      ShareFits(lps, budget);
      var share := Share(lps, budget);
      ShareNonNegative(lps, budget);
      forall j | 0 <= j < |lps| && WantsSmart(lps[j]) ensures Allocation(lps, budget, j) <= share {
        assert lps[j] in lps;
      }
      SmartTotalByCap(lps, budget, share);
    }
  }

  lemma {:induction false} FreshFastWithin(lps: seq<Snapshot>, budget: real, i: nat)
    requires budget >= 0.0 && i <= |lps| && forall lp :: lp in lps ==> lp.commandedA.None?
    ensures Remaining(lps, budget, i) >= 0.0
    ensures FastTotal(lps, budget, i) == budget - Remaining(lps, budget, i)
  {
    if i > 0 {
      FreshFastWithin(lps, budget, i - 1);
      assert lps[i - 1] in lps;
    }
  }

  /** With nothing to give, everything is switched off. */
  lemma NoBudgetSwitchesOff(lps: seq<Snapshot>, i: nat)
    requires AllSane(lps) && i < |lps|
    ensures Allocation(lps, 0.0, i) == 0.0
  {
    FullBudgetRemains(lps, i);
    FullBudgetRemains(lps, |lps|);
    assert lps[i] in lps;
  }

  lemma {:induction false} FullBudgetRemains(lps: seq<Snapshot>, i: nat)
    requires AllSane(lps) && i <= |lps|
    ensures Remaining(lps, 0.0, i) == 0.0
  {
    if i > 0 {
      FullBudgetRemains(lps, i - 1);
      assert lps[i - 1] in lps;
    }
  }
}
