/**
  The feedback loop settles: with a constant budget and constant demands, each tick's commands feed the
  next tick's hysteresis, deadband and soft start, and still no charger is written to again after a number
  of ticks that depends only on how many fast loadpoints there are.
 */
module Settling {
  import opened Prelude
  import opened Allocator
  import opened ControlLoop
  import opened Overshoot

  /** The commands after `t` ticks. */
  function After(demands: seq<Demand>, start: Commands, budget: real, deadband: real, t: nat): Commands {
    if t == 0 then start
    else NextCommands(Balancer, demands, After(demands, start, budget, deadband, t - 1), budget, deadband)
  }

  /** What constant circumstances leave of a command. */
  function Follow(give: real, last: Option<real>, deadband: real): Option<real> {
    NextCommand(Settled(give, last), last, deadband)
  }

  /** A loadpoint offered the same amps again and again: its allocation is steady from the second tick, its
      command from the third, and then it is not written again. */
  lemma SteadyGiveSettles(give: real, p0: Option<real>, deadband: real)
    requires deadband > 0.0 && Sane(p0)
    ensures var p1 := Follow(give, p0, deadband);
      var p2 := Follow(give, p1, deadband);
      && Settled(give, p1) == Settled(give, p2)
      && Follow(give, p2, deadband) == p2
      && !ShouldWrite(Settled(give, p2), p2, deadband)
  {
  }

  /** From rest, a steady offer is commanded in full by the second tick exactly if it is 6 A or above 7 A: a soft
      start to 6 A is within the hysteresis of the offers in between, and holds. */
  lemma SteadyOfferReachedIff(give: real, p0: Option<real>, deadband: real)
    requires 0.0 < deadband <= 1.0 && give >= 6.0 && (p0.None? || p0 == Some(0.0))
    ensures var p1 := Follow(give, p0, deadband);
      var p2 := Follow(give, p1, deadband);
      && (p2 == Some(give) <==> give == 6.0 || give > 7.0)
      && (p2 != Some(give) ==> p1 == p2 == Some(6.0))
      && Follow(give, p2, deadband) == p2
  {
  }

  /** So a lone fast loadpoint with a budget of 6.5 A, say, stays at 6 A. */
  lemma SoloReachesBudgetIff(budget: real, deadband: real)
    requires 0.0 < deadband <= 1.0 && 6.0 <= budget <= 32.0
    ensures var command := Lookup(Run(map[], SoloRun([budget, budget]), deadband), "a");
      command == Some(budget) <==> budget == 6.0 || budget > 7.0
  {
    hide Run, SoloRun;
    assert [budget, budget] == [budget] + [budget] && [budget] == [] + [budget];
    SoloStart(deadband);
    SoloRunStep([], budget, deadband);
    SoloRunStep([budget], budget, deadband);
    SteadyOfferReachedIff(budget, None, deadband);
  }

  /** The same for a loadpoint that wants nothing, one tick earlier. */
  lemma OffSettles(p0: Option<real>, deadband: real)
    requires deadband > 0.0
    ensures var p1 := NextCommand(0.0, p0, deadband);
      NextCommand(0.0, p1, deadband) == p1 && !ShouldWrite(0.0, p1, deadband)
  {
  }

  lemma {:induction false} AfterIsSane(demands: seq<Demand>, start: Commands, budget: real, deadband: real, t: nat)
    requires Distinct(demands) && SaneCommands(start)
    ensures SaneCommands(After(demands, start, budget, deadband, t))
  {
    if t > 0 {
      AfterIsSane(demands, start, budget, deadband, t - 1);
      TickKeepsSane(demands, After(demands, start, budget, deadband, t - 1), budget, deadband);
    }
  }

  predicate FastDemand(d: Demand) {
    WantsFast(SnapshotOf(d, map[]))
  }

  /** How many of the first `i` demands are fast and wanting. */
  function FastBefore(demands: seq<Demand>, i: nat): nat
    requires i <= |demands|
  {
    if i == 0 then 0 else FastBefore(demands, i - 1) + if FastDemand(demands[i - 1]) then 1 else 0
  }

  lemma {:induction false} FastBeforeGrows(demands: seq<Demand>, i: nat, j: nat)
    requires i <= j <= |demands|
    ensures FastBefore(demands, i) <= FastBefore(demands, j)
    ensures i < j && FastDemand(demands[i]) ==> FastBefore(demands, i) + 1 <= FastBefore(demands, j)
  {
    if i < j {
      FastBeforeGrows(demands, i, j - 1);
    }
  }

  function At(demands: seq<Demand>, start: Commands, budget: real, deadband: real, t: nat): seq<Snapshot> {
    Snapshots(demands, After(demands, start, budget, deadband, t))
  }

  /** One tick, seen from demand `i`. */
  lemma CommandStep(demands: seq<Demand>, start: Commands, budget: real, deadband: real, t: nat, i: nat)
    requires Distinct(demands) && i < |demands|
    ensures var now, next := At(demands, start, budget, deadband, t), At(demands, start, budget, deadband, t + 1);
      next[i].commandedA == if demands[i].hasCharger
        then NextCommand(Allocation(now, budget, i), now[i].commandedA, deadband)
        else now[i].commandedA
  {
    CommittedLookup(Balancer, demands, After(demands, start, budget, deadband, t), budget, deadband, |demands|, i);
  }

  ghost predicate Quiet(lps: seq<Snapshot>, budget: real, deadband: real, i: nat)
    requires i < |lps|
  {
    !ShouldWrite(Allocation(lps, budget, i), lps[i].commandedA, deadband)
  }

  /** A demand whose offer is constant over three ticks: its allocation is the same in the last two. */
  lemma AllocationSettles(demands: seq<Demand>, start: Commands, budget: real, deadband: real, t: nat, i: nat)
    requires Distinct(demands) && SaneCommands(start) && i < |demands| && deadband > 0.0
    requires Wanting(SnapshotOf(demands[i], map[]))
    requires var give := Give(At(demands, start, budget, deadband, t), budget, i);
      && Give(At(demands, start, budget, deadband, t + 1), budget, i) == give
      && Give(At(demands, start, budget, deadband, t + 2), budget, i) == give
    ensures var middle := At(demands, start, budget, deadband, t + 1);
      var last := At(demands, start, budget, deadband, t + 2);
      && Allocation(middle, budget, i) == Allocation(last, budget, i)
      && At(demands, start, budget, deadband, t + 3)[i].commandedA == last[i].commandedA
      && (demands[i].hasCharger ==> Quiet(last, budget, deadband, i))
  {
    CommandStep(demands, start, budget, deadband, t, i);
    CommandStep(demands, start, budget, deadband, t + 1, i);
    CommandStep(demands, start, budget, deadband, t + 2, i);
    AfterIsSane(demands, start, budget, deadband, t);
    hide After, NextCommands;
    var first := At(demands, start, budget, deadband, t);
    SteadyGiveSettles(Give(first, budget, i), first[i].commandedA, deadband);
  }

  /** From the tick numbered by the fast loadpoints before it on, what is left for demand `i` is constant. */
  lemma {:induction false} RemainingSettles(demands: seq<Demand>, start: Commands, budget: real, deadband: real,
                                            t: nat, i: nat)
    requires Distinct(demands) && SaneCommands(start) && i <= |demands| && deadband > 0.0 && FastBefore(demands, i) <= t
    ensures Remaining(At(demands, start, budget, deadband, t), budget, i)
      == Remaining(At(demands, start, budget, deadband, t + 1), budget, i)
  {
    hide After, NextCommands;
    if i > 0 {
      RemainingSettles(demands, start, budget, deadband, t, i - 1);
      if FastDemand(demands[i - 1]) {
        RemainingSettles(demands, start, budget, deadband, t - 1, i - 1);
        AllocationSettles(demands, start, budget, deadband, t - 1, i - 1);
      }
    }
  }

  /** The amps on offer to demand `i` are constant once the fast loadpoints that matter have settled. */
  lemma GiveSettles(demands: seq<Demand>, start: Commands, budget: real, deadband: real, t: nat, i: nat)
    requires Distinct(demands) && SaneCommands(start) && i < |demands| && deadband > 0.0
    requires (if FastDemand(demands[i]) then FastBefore(demands, i) else FastBefore(demands, |demands|)) <= t
    requires Wanting(SnapshotOf(demands[i], map[]))
    ensures Give(At(demands, start, budget, deadband, t), budget, i)
      == Give(At(demands, start, budget, deadband, t + 1), budget, i)
  {
    hide After, NextCommands;
    if FastDemand(demands[i]) {
      RemainingSettles(demands, start, budget, deadband, t, i);
    } else {
      RemainingSettles(demands, start, budget, deadband, t, |demands|);
      SmartCountIgnoresCommands(At(demands, start, budget, deadband, t), At(demands, start, budget, deadband, t + 1));
    }
  }

  lemma OffDemandSettles(demands: seq<Demand>, start: Commands, budget: real, deadband: real, t: nat, i: nat)
    requires Distinct(demands) && SaneCommands(start) && i < |demands| && deadband > 0.0
    requires !Wanting(SnapshotOf(demands[i], map[]))
    ensures At(demands, start, budget, deadband, t + 2)[i].commandedA
        == At(demands, start, budget, deadband, t + 1)[i].commandedA
    ensures demands[i].hasCharger ==> Quiet(At(demands, start, budget, deadband, t + 1), budget, deadband, i)
  {
    CommandStep(demands, start, budget, deadband, t, i);
    CommandStep(demands, start, budget, deadband, t + 1, i);
    hide After, NextCommands;
    OffSettles(At(demands, start, budget, deadband, t)[i].commandedA, deadband);
  }

  /** After that, two more ticks settle the command, and the charger is left alone. */
  lemma DemandSettles(demands: seq<Demand>, start: Commands, budget: real, deadband: real, t: nat, i: nat)
    requires Distinct(demands) && SaneCommands(start) && i < |demands| && deadband > 0.0
    requires FastBefore(demands, |demands|) + 2 <= t
    ensures At(demands, start, budget, deadband, t + 1)[i].commandedA
        == At(demands, start, budget, deadband, t)[i].commandedA
    ensures demands[i].hasCharger ==> Quiet(At(demands, start, budget, deadband, t), budget, deadband, i)
  {
    hide *;
    if Wanting(SnapshotOf(demands[i], map[])) {
      WantingDemandSettles(demands, start, budget, deadband, t - 2, i);
    } else {
      OffDemandSettles(demands, start, budget, deadband, t - 1, i);
    }
  }

  lemma WantingDemandSettles(demands: seq<Demand>, start: Commands, budget: real, deadband: real, t: nat, i: nat)
    requires Distinct(demands) && SaneCommands(start) && i < |demands| && deadband > 0.0
    requires FastBefore(demands, |demands|) <= t && Wanting(SnapshotOf(demands[i], map[]))
    ensures At(demands, start, budget, deadband, t + 3)[i].commandedA
        == At(demands, start, budget, deadband, t + 2)[i].commandedA
    ensures demands[i].hasCharger ==> Quiet(At(demands, start, budget, deadband, t + 2), budget, deadband, i)
  {
    hide *;
    FastBeforeGrows(demands, i, |demands|);
    GiveSettles(demands, start, budget, deadband, t, i);
    GiveSettles(demands, start, budget, deadband, t + 1, i);
    AllocationSettles(demands, start, budget, deadband, t, i);
  }

  /** Within (number of fast loadpoints) + 2 ticks the commands are fixed and no charger is written again,
      whatever commands of 0 or at least 6 A the loop starts from. */
  lemma LoopSettles(demands: seq<Demand>, start: Commands, budget: real, deadband: real, t: nat)
    requires Distinct(demands) && SaneCommands(start) && deadband > 0.0
    requires FastBefore(demands, |demands|) + 2 <= t
    ensures After(demands, start, budget, deadband, t + 1) == After(demands, start, budget, deadband, t)
    ensures forall i :: 0 <= i < |demands| && demands[i].hasCharger ==>
      Quiet(At(demands, start, budget, deadband, t), budget, deadband, i)
  {
    var now, next := After(demands, start, budget, deadband, t), After(demands, start, budget, deadband, t + 1);
    forall i | 0 <= i < |demands|
      ensures Lookup(next, demands[i].id) == Lookup(now, demands[i].id)
      ensures demands[i].hasCharger ==> Quiet(At(demands, start, budget, deadband, t), budget, deadband, i)
    {
      DemandSettles(demands, start, budget, deadband, t, i);
    }
    forall id ensures Lookup(next, id) == Lookup(now, id) {
      if i :| 0 <= i < |demands| && demands[i].id == id {
        assert Lookup(next, demands[i].id) == Lookup(now, demands[i].id);
      } else {
        CommittedElsewhere(Balancer, demands, now, budget, deadband, |demands|, id);
      }
    }
    SameLookups(next, now);
  }

  lemma SameLookups(a: Commands, b: Commands)
    requires forall id :: Lookup(a, id) == Lookup(b, id)
    ensures a == b
  {
    forall id ensures (id in a <==> id in b) && (id in a ==> a[id] == b[id]) {
      assert Lookup(a, id) == Lookup(b, id);
    }
  }
}
