/**
  What each loadpoint gets of a split, told by its mode, its flags and what the others got, and that no command
  exceeds the ceiling of its charger.
 */
module Ceilings {
  import opened Prelude
  import opened Allocator
  import opened ControlLoop
  import opened Overshoot

  function Amps(lps: seq<Snapshot>, budget: real): (amps: seq<real>)
    ensures |amps| == |lps| && forall i :: 0 <= i < |lps| ==> amps[i] == Allocation(lps, budget, i)
  {
    seq(|lps|, i requires 0 <= i < |lps| => Allocation(lps, budget, i))
  }

  /** What the fast loadpoints among the first `i` got. */
  function FastGiven(lps: seq<Snapshot>, amps: seq<real>, i: nat): real
    requires i <= |lps| == |amps|
  {
    if i == 0 then 0.0 else FastGiven(lps, amps, i - 1) + if lps[i - 1].mode == Fast then amps[i - 1] else 0.0
  }

  /** The smart loadpoints among the first `n` that are not told to wait. */
  ghost function Sharing(lps: seq<Snapshot>, n: nat): set<int>
    requires n <= |lps|
  {
    set i | 0 <= i < n && lps[i].mode == Smart && lps[i].shouldChargeNow != Some(false)
  }

  /** An offer is given as it is, or nothing below 6 A, unless it is within 1 A of the last command: then that
      command stands, if it is at least 6 A. */
  predicate Held(amps: real, offer: real, last: Option<real>) {
    if last.Some? && offer - 1.0 <= last.value <= offer + 1.0
    then amps == if last.value >= 6.0 then last.value else 0.0
    else amps == if offer >= 6.0 then offer else 0.0
  }

  lemma {:induction false} FastGivenIs(lps: seq<Snapshot>, budget: real, i: nat)
    requires i <= |lps|
    ensures FastGiven(lps, Amps(lps, budget), i) == budget - Remaining(lps, budget, i)
  {
    if i > 0 {
      FastGivenIs(lps, budget, i - 1);
    }
  }

  lemma {:induction false} SharingCounted(lps: seq<Snapshot>, n: nat)
    requires n <= |lps|
    ensures |Sharing(lps, n)| == SmartCount(lps[..n])
  {
    if n > 0 {
      SharingCounted(lps, n - 1);
      SmartCountPrefix(lps, n - 1);
      OneMoreShares(lps, n);
      hide Sharing, SmartCount, WantsSmart;
    }
  }

  lemma OneMoreShares(lps: seq<Snapshot>, n: nat)
    requires 0 < n <= |lps|
    ensures |Sharing(lps, n)| == |Sharing(lps, n - 1)| + if WantsSmart(lps[n - 1]) then 1 else 0
  {
    var before := Sharing(lps, n - 1);
    assert n - 1 !in before;
    assert Sharing(lps, n) == before + if WantsSmart(lps[n - 1]) then {n - 1} else {};
  }

  /**
   * The whole split. A disabled loadpoint, a smart one told to wait and a fast
   * one that pauses at its target get nothing. Every other fast loadpoint is
   * offered what those declared before it left, and every other smart one an
   * equal whole share of what all the fast ones left, each up to its ceiling.
   */
  lemma SplitIs(lps: seq<Snapshot>, budget: real, i: nat)
    requires i < |lps|
    ensures var lp, amps := lps[i], Amps(lps, budget);
      && (lp.mode == Disabled ==> amps[i] == 0.0)
      && (lp.mode == Smart && lp.shouldChargeNow == Some(false) ==> amps[i] == 0.0)
      && (lp.mode == Fast && lp.targetReached && lp.pauseOnTarget ==> amps[i] == 0.0)
      && (lp.mode == Fast && !(lp.targetReached && lp.pauseOnTarget) ==>
            Held(amps[i], Min(lp.maxCurrentA, budget - FastGiven(lps, amps, i)), lp.commandedA))
      && (lp.mode == Smart && lp.shouldChargeNow != Some(false) ==>
            && |Sharing(lps, |lps|)| > 0
            && var left := budget - FastGiven(lps, amps, |lps|);
               var share := (left / |Sharing(lps, |lps|)| as real).Floor as real;
               Held(amps[i], Min(lp.maxCurrentA, share), lp.commandedA))
  {
    hide Remaining, SmartCount, FastGiven, Sharing;
    FastGivenIs(lps, budget, i);
    FastGivenIs(lps, budget, |lps|);
    SharingCounted(lps, |lps|);
    assert lps[..|lps|] == lps;
    if WantsSmart(lps[i]) {
      if SmartCount(lps) == 0 {
        NoneSmart(lps);
      }
    }
  }

  // ---------- the ceiling ----------

  /** The last command is above the ceiling by no more than the hysteresis. */
  predicate JustAbove(lp: Snapshot) {
    lp.commandedA.Some? && lp.commandedA.value >= 6.0
    && lp.maxCurrentA < lp.commandedA.value <= lp.maxCurrentA + 1.0
  }

  /** Smart or fast, no loadpoint gets more than its ceiling. */
  lemma WithinCeiling(lps: seq<Snapshot>, budget: real, i: nat)
    requires i < |lps| && lps[i].maxCurrentA >= 0.0 && !JustAbove(lps[i])
    ensures Allocation(lps, budget, i) <= lps[i].maxCurrentA
  {
    hide Remaining, Share;
  }

  lemma AloneIsOffered(lp: Snapshot, budget: real)
    requires Wanting(lp)
    ensures Give([lp], budget, 0) == Min(lp.maxCurrentA, if lp.mode == Fast then budget else budget.Floor as real)
  {
    assert [lp][1..] == [];
    assert SmartCount([lp]) == (if WantsSmart(lp) then 1 else 0) + SmartCount([lp][1..]);
    assert Remaining([lp], budget, 0) == budget;
    if WantsSmart(lp) {
      assert Remaining([lp], budget, 1) == budget;
      assert budget / 1.0 == budget;
    }
  }

  /** That is all that is needed: a loadpoint that wants current is held above a ceiling it is just above. */
  lemma CeilingHeldIff(lp: Snapshot)
    requires lp.maxCurrentA >= 0.0
    requires (lp.mode == Fast && !(lp.targetReached && lp.pauseOnTarget))
          || (lp.mode == Smart && lp.shouldChargeNow != Some(false))
    ensures (forall budget: real :: Amps([lp], budget)[0] <= lp.maxCurrentA) <==> !JustAbove(lp)
  {
    if JustAbove(lp) {
      var budget := lp.maxCurrentA + 1.0;
      AloneIsOffered(lp, budget);
      hide Remaining, Share, SmartCount, Give;
      assert Give([lp], budget, 0) == lp.maxCurrentA;
      assert Amps([lp], budget)[0] == lp.commandedA.value;
    } else {
      forall budget: real ensures Amps([lp], budget)[0] <= lp.maxCurrentA {
        WithinCeiling([lp], budget, 0);
      }
    }
  }

  // ---------- demands ----------

  /** What a demand may be given: the charger's ceiling, and 6 A while only the climate wants current. */
  predicate MayGive(d: Demand, amps: real) {
    amps <= d.maxCurrentA && (d.climateOnly ==> amps <= 6.0)
  }

  /** On either kind of circuit, the demands that want nothing. */
  lemma OffWantsNothing(topology: Topology, demands: seq<Demand>, commands: Commands, budget: real, i: nat)
    requires i < |demands|
    requires var d := demands[i];
      || d.mode == Disabled
      || (d.mode == Smart && d.shouldChargeNow == Some(false))
      || (d.mode == Fast && d.targetReached && d.pauseOnTarget)
    ensures TargetAmps(topology, demands, commands, budget, i) == 0.0
  {
    hide Remaining, Share;
  }

  /** What every other demand wants: on a circuit of its own the budget, and of a split what is held of its offer. */
  lemma WantedIs(topology: Topology, demands: seq<Demand>, commands: Commands, budget: real, i: nat)
    requires i < |demands|
    requires var d := demands[i];
      || (d.mode == Smart && d.shouldChargeNow != Some(false))
      || (d.mode == Fast && !(d.targetReached && d.pauseOnTarget))
    ensures var d, wanted := demands[i], TargetAmps(topology, demands, commands, budget, i);
      var lps := Snapshots(demands, commands);
      var amps := Amps(lps, budget);
      var ceiling := if d.climateOnly then Min(6.0, d.maxCurrentA) else d.maxCurrentA;
      && (topology.Bare? ==> wanted == if d.climateOnly then Min(6.0, budget) else budget)
      && (topology.Balancer? && d.mode == Fast ==>
            Held(wanted, Min(ceiling, budget - FastGiven(lps, amps, i)), Lookup(commands, d.id)))
      && (topology.Balancer? && d.mode == Smart ==>
            && |Sharing(lps, |lps|)| > 0
            && var share := ((budget - FastGiven(lps, amps, |lps|)) / |Sharing(lps, |lps|)| as real).Floor as real;
               Held(wanted, Min(ceiling, share), Lookup(commands, d.id)))
  {
    var lps := Snapshots(demands, commands);
    assert lps[i] == SnapshotOf(demands[i], commands);
    SplitIs(lps, budget, i);
    hide Allocation, Held, FastGiven, Sharing;
  }

  // ---------- over runs ----------

  /** The commands after a run of ticks of one circuit, from none. */
  function Course(topology: Topology, ticks: seq<Tick>, deadband: real): Commands {
    if ticks == [] then map[]
    else
      var front, last := ticks[..|ticks| - 1], ticks[|ticks| - 1];
      NextCommands(topology, last.demands, Course(topology, front, deadband), last.budget, deadband)
  }

  lemma {:induction false} CourseOfBalancer(ticks: seq<Tick>, deadband: real)
    ensures Course(Balancer, ticks, deadband) == Run(map[], ticks, deadband)
  {
    hide NextCommands;
    if ticks != [] {
      CourseOfBalancer(ticks[..|ticks| - 1], deadband);
    }
  }

  ghost predicate Demanded(ticks: seq<Tick>, d: Demand) {
    exists k :: 0 <= k < |ticks| && d in ticks[k].demands
  }

  /** A loadpoint has the same ceiling throughout, and the budget of a circuit of its own is never above it. */
  ghost predicate FixedCeilings(topology: Topology, ticks: seq<Tick>) {
    && (forall k :: 0 <= k < |ticks| ==> Distinct(ticks[k].demands))
    && (forall d, e :: Demanded(ticks, d) && Demanded(ticks, e) && d.id == e.id ==>
          d.maxCurrentA == e.maxCurrentA && d.climateOnly == e.climateOnly)
    && (forall d :: Demanded(ticks, d) ==> d.maxCurrentA >= 0.0)
    && (topology.Bare? ==>
          forall k, d :: 0 <= k < |ticks| && d in ticks[k].demands ==> ticks[k].budget <= d.maxCurrentA)
  }

  lemma TargetWithin(topology: Topology, demands: seq<Demand>, commands: Commands, budget: real, i: nat)
    requires i < |demands| && demands[i].maxCurrentA >= 0.0
    requires topology.Bare? ==> budget <= demands[i].maxCurrentA
    requires Lookup(commands, demands[i].id).Some? ==> MayGive(demands[i], Lookup(commands, demands[i].id).value)
    ensures MayGive(demands[i], TargetAmps(topology, demands, commands, budget, i))
  {
    var lps := Snapshots(demands, commands);
    assert lps[i] == SnapshotOf(demands[i], commands);
    WithinCeiling(lps, budget, i);
    hide Allocation;
  }

  /** Deadband and soft start never raise a command above both its target and its predecessor. */
  lemma NextWithin(target: real, last: Option<real>, deadband: real)
    ensures var next := NextCommand(target, last, deadband);
      next == last || (next.Some? && next.value <= target)
  {
  }

  lemma {:induction false} CourseWithinCeilings(topology: Topology, ticks: seq<Tick>, deadband: real, n: nat, d: Demand)
    requires FixedCeilings(topology, ticks) && n <= |ticks| && Demanded(ticks, d)
    ensures var command := Lookup(Course(topology, ticks[..n], deadband), d.id);
      command.Some? ==> MayGive(d, command.value)
  {
    hide TargetAmps, NextCommand;
    if n > 0 {
      var tick, before := ticks[n - 1], Course(topology, ticks[..n - 1], deadband);
      assert ticks[..n][..n - 1] == ticks[..n - 1];
      CourseWithinCeilings(topology, ticks, deadband, n - 1, d);
      if i :| 0 <= i < |tick.demands| && tick.demands[i].id == d.id {
        assert Demanded(ticks, tick.demands[i]);
        CommittedLookup(topology, tick.demands, before, tick.budget, deadband, |tick.demands|, i);
        TargetWithin(topology, tick.demands, before, tick.budget, i);
        NextWithin(TargetAmps(topology, tick.demands, before, tick.budget, i), Lookup(before, d.id), deadband);
      } else {
        CommittedElsewhere(topology, tick.demands, before, tick.budget, deadband, |tick.demands|, d.id);
      }
    }
  }

  /** No command of any run exceeds its charger's ceiling, nor 6 A while only the climate wants current. */
  lemma RunWithinCeilings(topology: Topology, ticks: seq<Tick>, deadband: real, d: Demand)
    requires FixedCeilings(topology, ticks) && Demanded(ticks, d)
    ensures var command := Lookup(Course(topology, ticks, deadband), d.id);
      command.Some? ==> command.value <= d.maxCurrentA && (d.climateOnly ==> command.value <= 6.0)
  {
    CourseWithinCeilings(topology, ticks, deadband, |ticks|, d);
    assert ticks[..|ticks|] == ticks;
  }

  // ---------- the soft start ----------

  /** The command before the last tick, what the tick wants, and the command after it. */
  datatype Change = Change(before: Option<real>, wanted: real, after: Option<real>)

  function ChangeOf(topology: Topology, ticks: seq<Tick>, deadband: real, i: nat): Change
    requires ticks != [] && i < |ticks[|ticks| - 1].demands|
  {
    var last, commands := ticks[|ticks| - 1], Course(topology, ticks[..|ticks| - 1], deadband);
    Change(Lookup(commands, last.demands[i].id), TargetAmps(topology, last.demands, commands, last.budget, i),
           Lookup(Course(topology, ticks, deadband), last.demands[i].id))
  }

  predicate Whole(a: real) {
    a == a.Floor as real
  }

  /** The charger is off, or was never told anything. */
  predicate Resting(command: Option<real>) {
    command.Some? ==> command.value < 6.0
  }

  /**
   * How a charger's command changes in any tick of any run. It stands while the
   * target is within the deadband. Otherwise it becomes the target, unless it
   * resumes from rest to more than 6 A: then it is 6 A for targets below 14 A
   * and from there on half the target, rounded down.
   */
  lemma ResumesAtHalf(topology: Topology, ticks: seq<Tick>, deadband: real, i: nat)
    requires ticks != [] && Distinct(ticks[|ticks| - 1].demands) && i < |ticks[|ticks| - 1].demands|
    requires ticks[|ticks| - 1].demands[i].hasCharger
    ensures var c := ChangeOf(topology, ticks, deadband, i);
      var stands := c.before.Some? && -deadband < c.wanted - c.before.value < deadband;
      var resumes := Resting(c.before) && c.wanted > 6.0;
      && (stands ==> c.after == c.before)
      && (!stands ==> c.after.Some?)
      && (!stands && !resumes ==> c.after.value == c.wanted)
      && (!stands && resumes && c.wanted < 14.0 ==> c.after.value == 6.0)
      && (!stands && resumes && c.wanted >= 14.0 ==>
            Whole(c.after.value) && c.after.value <= c.wanted / 2.0 < c.after.value + 1.0)
      && (Resting(c.before) && c.after.Some? && c.after.value > 6.0 ==> c.after.value <= c.wanted / 2.0)
  {
    hide TargetAmps;
    var last, commands := ticks[|ticks| - 1], Course(topology, ticks[..|ticks| - 1], deadband);
    CommittedLookup(topology, last.demands, commands, last.budget, deadband, |last.demands|, i);
  }

  /** With the same target kept, the tick after a resume commands it in full exactly if it clears the deadband. */
  lemma FullOneTickLaterIff(topology: Topology, ticks: seq<Tick>, deadband: real, i: nat, j: nat)
    requires |ticks| >= 2 && deadband > 0.0
    requires var first, second := ticks[|ticks| - 2], ticks[|ticks| - 1];
      && Distinct(first.demands) && Distinct(second.demands) && i < |first.demands| && j < |second.demands|
      && first.demands[i].id == second.demands[j].id && first.demands[i].hasCharger && second.demands[j].hasCharger
    requires var a, b := ChangeOf(topology, ticks[..|ticks| - 1], deadband, i), ChangeOf(topology, ticks, deadband, j);
      Resting(a.before) && a.wanted > 6.0 && b.wanted == a.wanted && a.after != a.before
    ensures var a, b := ChangeOf(topology, ticks[..|ticks| - 1], deadband, i), ChangeOf(topology, ticks, deadband, j);
      && b.before == a.after && a.after.Some? && a.after.value < a.wanted
      && (b.after == Some(b.wanted) <==> b.wanted - a.after.value >= deadband)
      && (b.after != Some(b.wanted) ==> b.after == a.after)
  {
    var front := ticks[..|ticks| - 1];
    assert front[|front| - 1] == ticks[|ticks| - 2];
    ResumesAtHalf(topology, front, deadband, i);
    ResumesAtHalf(topology, ticks, deadband, j);
    hide Course, TargetAmps;
    var a := ChangeOf(topology, front, deadband, i);
    assert a.wanted / 2.0 < a.wanted;
  }
}
