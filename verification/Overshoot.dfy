/**
  The anti-chatter slacks do not stack: hysteresis, deadband, soft start and the 6 A floor together never
  let a circuit's commands exceed its budget by more than the split alone may.
 */
module Overshoot {
  import opened Prelude
  import opened Allocator
  import opened ControlLoop

  /** One tick of a balancer circuit. */
  datatype Tick = Tick(demands: seq<Demand>, budget: real)

  ghost predicate ValidTicks(ticks: seq<Tick>) {
    forall i :: 0 <= i < |ticks| ==> Distinct(ticks[i].demands) && ticks[i].budget >= 0.0
  }

  /** The commands after a run of ticks. */
  function Run(commands: Commands, ticks: seq<Tick>, deadband: real): Commands {
    if ticks == [] then commands
    else
      var last := |ticks| - 1;
      NextCommands(Balancer, ticks[last].demands, Run(commands, ticks[..last], deadband), ticks[last].budget, deadband)
  }

  ghost predicate SaneCommands(commands: Commands) {
    forall id :: id in commands ==> Sane(Some(commands[id]))
  }

  /** The amps commanded to the first `i` loadpoints that have a charger. */
  function Commanded(demands: seq<Demand>, commands: Commands, i: nat): real
    requires i <= |demands|
  {
    if i == 0 then 0.0
    else
      Commanded(demands, commands, i - 1)
      + (if demands[i - 1].hasCharger then Lookup(commands, demands[i - 1].id).GetOr(0.0) else 0.0)
  }

  function TotalCommanded(demands: seq<Demand>, commands: Commands): real {
    Commanded(demands, commands, |demands|)
  }

  function SmartWanting(demands: seq<Demand>): nat {
    SmartCount(Snapshots(demands, map[]))
  }

  ghost predicate WithinSlack(tick: Tick, commands: Commands) {
    TotalCommanded(tick.demands, commands) <= tick.budget + Max(1.0, SmartWanting(tick.demands) as real)
  }

  /** Wanting does not depend on what was commanded. */
  lemma {:induction false} SmartCountIgnoresCommands(a: seq<Snapshot>, b: seq<Snapshot>)
    requires |a| == |b| && forall i :: 0 <= i < |a| ==> (WantsSmart(a[i]) <==> WantsSmart(b[i]))
    ensures SmartCount(a) == SmartCount(b)
  {
    if a != [] {
      SmartCountIgnoresCommands(a[1..], b[1..]);
    }
  }

  lemma SnapshotsSane(demands: seq<Demand>, commands: Commands)
    requires SaneCommands(commands)
    ensures AllSane(Snapshots(demands, commands))
  {
  }

  /** Every target is 0 or at least 6 A, and so is every command that results. */
  lemma CommandStaysSane(give: real, wanting: bool, last: Option<real>, deadband: real)
    requires Sane(last)
    ensures var target := if wanting then Settled(give, last) else 0.0;
      target == 0.0 || target >= OCPP_MIN_A
    ensures var target := if wanting then Settled(give, last) else 0.0;
      Sane(NextCommand(target, last, deadband))
      && (deadband <= 1.0 ==> NextCommand(target, last, deadband).GetOr(0.0) <= target)
  {
  }

  lemma TickKeepsSane(demands: seq<Demand>, commands: Commands, budget: real, deadband: real)
    requires SaneCommands(commands) && Distinct(demands)
    ensures SaneCommands(NextCommands(Balancer, demands, commands, budget, deadband))
  {
    var next := NextCommands(Balancer, demands, commands, budget, deadband);
    var lps := Snapshots(demands, commands);
    SnapshotsSane(demands, commands);
    forall id | id in next ensures Sane(Some(next[id])) {
      if i :| 0 <= i < |demands| && demands[i].id == id {
        CommittedLookup(Balancer, demands, commands, budget, deadband, |demands|, i);
        assert lps[i] in lps;
        CommandStaysSane(Give(lps, budget, i), Wanting(lps[i]), lps[i].commandedA, deadband);
      } else {
        CommittedElsewhere(Balancer, demands, commands, budget, deadband, |demands|, id);
        assert Lookup(next, id) == Lookup(commands, id);
      }
    }
  }

  lemma {:induction false} RunKeepsSane(commands: Commands, ticks: seq<Tick>, deadband: real)
    requires SaneCommands(commands) && ValidTicks(ticks)
    ensures SaneCommands(Run(commands, ticks, deadband))
  {
    if ticks != [] {
      var last := |ticks| - 1;
      RunKeepsSane(commands, ticks[..last], deadband);
      TickKeepsSane(ticks[last].demands, Run(commands, ticks[..last], deadband), ticks[last].budget, deadband);
    }
  }

  /** With a deadband of at most 1 A no command exceeds its allocation. */
  lemma {:induction false} CommandedWithinAllocated(demands: seq<Demand>, commands: Commands, budget: real,
                                                    deadband: real, i: nat)
    requires SaneCommands(commands) && Distinct(demands) && deadband <= 1.0 && i <= |demands|
    ensures var lps := Snapshots(demands, commands);
      Commanded(demands, NextCommands(Balancer, demands, commands, budget, deadband), i)
        <= FastTotal(lps, budget, i) + SmartTotal(lps, budget, i)
  {
    if i > 0 {
      CommandedWithinAllocated(demands, commands, budget, deadband, i - 1);
      CommittedLookup(Balancer, demands, commands, budget, deadband, |demands|, i - 1);
      var lps := Snapshots(demands, commands);
      SnapshotsSane(demands, commands);
      assert lps[i - 1] in lps;
      CommandStaysSane(Give(lps, budget, i - 1), Wanting(lps[i - 1]), lps[i - 1].commandedA, deadband);
    }
  }

  lemma TickWithinSlack(demands: seq<Demand>, commands: Commands, budget: real, deadband: real)
    requires SaneCommands(commands) && Distinct(demands) && deadband <= 1.0 && budget >= 0.0
    ensures WithinSlack(Tick(demands, budget), NextCommands(Balancer, demands, commands, budget, deadband))
  {
    var lps := Snapshots(demands, commands);
    SnapshotsSane(demands, commands);
    CommandedWithinAllocated(demands, commands, budget, deadband, |demands|);
    SplitWithinSlack(lps, budget);
    SmartCountIgnoresCommands(lps, Snapshots(demands, map[]));
  }

  /** A tick without budget switches everything off. */
  lemma NoBudgetNoCommand(demands: seq<Demand>, commands: Commands, deadband: real)
    requires SaneCommands(commands) && Distinct(demands) && deadband <= 1.0
    ensures TotalCommanded(demands, NextCommands(Balancer, demands, commands, 0.0, deadband)) <= 0.0
  {
    var lps := Snapshots(demands, commands);
    SnapshotsSane(demands, commands);
    CommandedWithinAllocated(demands, commands, 0.0, deadband, |demands|);
    NothingAllocated(lps, |lps|);
  }

  lemma {:induction false} NothingAllocated(lps: seq<Snapshot>, i: nat)
    requires AllSane(lps) && i <= |lps|
    ensures FastTotal(lps, 0.0, i) + SmartTotal(lps, 0.0, i) == 0.0
  {
    if i > 0 {
      NothingAllocated(lps, i - 1);
      NoBudgetSwitchesOff(lps, i - 1);
    }
  }

  /** The guarantee at every tick of every run that starts with no commands. */
  ghost predicate NeverBeyondSlack(deadband: real) {
    forall ticks: seq<Tick> :: ticks != [] && ValidTicks(ticks) ==>
      WithinSlack(ticks[|ticks| - 1], Run(map[], ticks, deadband))
  }

  lemma RunWithinSlack(ticks: seq<Tick>, deadband: real)
    requires ticks != [] && ValidTicks(ticks) && deadband <= 1.0
    ensures WithinSlack(ticks[|ticks| - 1], Run(map[], ticks, deadband))
    ensures SaneCommands(Run(map[], ticks, deadband))
  {
    var last := |ticks| - 1;
    RunKeepsSane(map[], ticks, deadband);
    RunKeepsSane(map[], ticks[..last], deadband);
    TickWithinSlack(ticks[last].demands, Run(map[], ticks[..last], deadband), ticks[last].budget, deadband);
  }

  // ---------- runs of a single fast loadpoint ----------

  const SOLO := Demand("a", Fast, None, false, false, 32.0, false, true)

  function SoloTick(budget: real): Tick {
    Tick([SOLO], budget)
  }

  /** What one tick does to the only loadpoint's command. */
  lemma SoloStep(commands: Commands, budget: real, deadband: real)
    ensures Lookup(NextCommands(Balancer, [SOLO], commands, budget, deadband), "a")
      == var last := Lookup(commands, "a"); NextCommand(Settled(Min(32.0, budget), last), last, deadband)
  {
    CommittedLookup(Balancer, [SOLO], commands, budget, deadband, 1, 0);
    var lps := Snapshots([SOLO], commands);
    assert lps[0] == SnapshotOf(SOLO, commands);
    assert Remaining(lps, budget, 0) == budget;
  }

  lemma SoloTotal(commands: Commands)
    ensures TotalCommanded([SOLO], commands) == Lookup(commands, "a").GetOr(0.0)
    ensures SmartWanting([SOLO]) == 0
  {
    assert Commanded([SOLO], commands, 0) == 0.0;
    var lps := Snapshots([SOLO], map[]);
    assert |lps| == 1 && lps[0] == SnapshotOf(SOLO, map[]);
    assert lps[1..] == [];
    assert SmartCount(lps) == SmartCount(lps[1..]);
  }

  function SoloRun(budgets: seq<real>): seq<Tick> {
    seq(|budgets|, i requires 0 <= i < |budgets| => SoloTick(budgets[i]))
  }

  lemma SoloRunStep(budgets: seq<real>, budget: real, deadband: real)
    ensures Lookup(Run(map[], SoloRun(budgets + [budget]), deadband), "a")
      == var last := Lookup(Run(map[], SoloRun(budgets), deadband), "a");
         NextCommand(Settled(Min(32.0, budget), last), last, deadband)
  {
    var ticks := SoloRun(budgets + [budget]);
    assert ticks[..|budgets|] == SoloRun(budgets);
    SoloStep(Run(map[], SoloRun(budgets), deadband), budget, deadband);
  }

  lemma SoloStart(deadband: real)
    ensures Lookup(Run(map[], SoloRun([]), deadband), "a") == None
  {
    assert SoloRun([]) == [];
  }

  lemma HeldAtSix(deadband: real)
    requires deadband > 6.0
    ensures Lookup(Run(map[], SoloRun([6.0, 4.0]), deadband), "a") == Some(6.0)
  {
    hide Run, SoloRun;
    assert [6.0, 4.0] == [6.0] + [4.0] && [6.0] == [] + [6.0];
    SoloStart(deadband);
    SoloRunStep([], 6.0, deadband);
    SoloRunStep([6.0], 4.0, deadband);
  }

  lemma HeldAtTwelve(deadband: real, fall: real)
    requires 1.0 < fall < deadband <= 6.0
    ensures Lookup(Run(map[], SoloRun([12.0, 12.0, 12.0 - fall]), deadband), "a") == Some(12.0)
  {
    hide Run, SoloRun;
    assert [12.0, 12.0, 12.0 - fall] == [12.0, 12.0] + [12.0 - fall];
    assert [12.0, 12.0] == [12.0] + [12.0] && [12.0] == [] + [12.0];
    SoloStart(deadband);
    SoloRunStep([], 12.0, deadband);
    SoloRunStep([12.0], 12.0, deadband);
    SoloRunStep([12.0, 12.0], 12.0 - fall, deadband);
  }

  /** A deadband above 1 A lets a command stand although the budget fell by more than 1 A. */
  lemma WideDeadbandOvershoots(deadband: real)
    requires deadband > 1.0
    ensures !NeverBeyondSlack(deadband)
  {
    hide Run, SmartWanting, TotalCommanded;
    var budgets := if deadband > 6.0 then [6.0, 4.0] else [12.0, 12.0, 12.0 - (1.0 + deadband) / 2.0];
    if deadband > 6.0 {
      HeldAtSix(deadband);
    } else {
      HeldAtTwelve(deadband, (1.0 + deadband) / 2.0);
    }
    var ticks := SoloRun(budgets);
    SoloTotal(Run(map[], ticks, deadband));
    assert ValidTicks(ticks) && !WithinSlack(ticks[|ticks| - 1], Run(map[], ticks, deadband));
  }

  /** The slacks stay within the split's own slack exactly for deadbands up to 1 A, the default. */
  lemma SlacksDoNotStackIff(deadband: real)
    ensures NeverBeyondSlack(deadband) <==> deadband <= 1.0
  {
    if deadband <= 1.0 {
      forall ticks: seq<Tick> | ticks != [] && ValidTicks(ticks)
        ensures WithinSlack(ticks[|ticks| - 1], Run(map[], ticks, deadband))
      {
        RunWithinSlack(ticks, deadband);
      }
    } else {
      WideDeadbandOvershoots(deadband);
    }
  }

  // ---------- the bound is reached ----------

  /** `m` smart loadpoints with pairwise different names. */
  function SmartDemands(m: nat): seq<Demand> {
    seq(m, i requires 0 <= i < m =>
      Demand(seq(i, _ => 'x'), Smart, Some(true), false, true, 32.0, false, true))
  }

  lemma {:induction false} AllSmart(lps: seq<Snapshot>)
    requires forall lp :: lp in lps ==> WantsSmart(lp)
    ensures SmartCount(lps) == |lps|
  {
    if lps != [] {
      AllSmart(lps[1..]);
    }
  }

  lemma {:induction false} NoFast(lps: seq<Snapshot>, budget: real, i: nat)
    requires i <= |lps| && forall lp :: lp in lps ==> WantsSmart(lp)
    ensures Remaining(lps, budget, i) == budget
  {
    if i > 0 {
      NoFast(lps, budget, i - 1);
      assert lps[i - 1] in lps;
    }
  }

  /** An equal split among `m` smart loadpoints when each one's share is the whole number `each`. */
  lemma EqualSplit(m: nat, commands: Commands, budget: real, each: int, i: nat, deadband: real)
    requires i < m && 5 <= each <= 32 && budget / m as real == each as real
    ensures var last := Lookup(commands, SmartDemands(m)[i].id);
      Lookup(NextCommands(Balancer, SmartDemands(m), commands, budget, deadband), SmartDemands(m)[i].id)
        == NextCommand(Settled(each as real, last), last, deadband)
  {
    var demands := SmartDemands(m);
    var lps := Snapshots(demands, commands);
    assert forall lp :: lp in lps ==> WantsSmart(lp);
    AllSmart(lps);
    NoFast(lps, budget, |lps|);
    DistinctNames(m);
    CommittedLookup(Balancer, demands, commands, budget, deadband, m, i);
    assert Give(lps, budget, i) == each as real;
  }

  lemma QuotientOfProduct(m: real, each: real)
    requires m > 0.0
    ensures m * each / m == each
  {
  }

  lemma DistinctNames(m: nat)
    ensures Distinct(SmartDemands(m))
  {
    var demands := SmartDemands(m);
    forall i, j | 0 <= i < j < m ensures demands[i].id != demands[j].id {
      assert |demands[i].id| == i && |demands[j].id| == j;
    }
  }

  lemma {:induction false} SixEach(demands: seq<Demand>, commands: Commands, i: nat)
    requires i <= |demands|
    requires forall j :: 0 <= j < |demands| ==> demands[j].hasCharger && Lookup(commands, demands[j].id) == Some(6.0)
    ensures Commanded(demands, commands, i) == 6.0 * i as real
  {
    if i > 0 {
      SixEach(demands, commands, i - 1);
    }
  }

  function FullThenTight(m: nat): seq<Tick> {
    [Tick(SmartDemands(m), m as real * 6.0), Tick(SmartDemands(m), m as real * 5.0)]
  }

  lemma RunOfTwo(a: Tick, b: Tick, deadband: real)
    ensures Run(map[], [a, b], deadband)
      == NextCommands(Balancer, b.demands, NextCommands(Balancer, a.demands, map[], a.budget, deadband),
                      b.budget, deadband)
  {
    hide NextCommands;
    assert [a, b][..1] == [a] && [a][..0] == [];
    assert Run(map[], [a], deadband) == NextCommands(Balancer, a.demands, Run(map[], [], deadband), a.budget, deadband);
  }

  lemma StartAtSix(m: nat, deadband: real, i: nat)
    requires i < m && 0.0 < deadband
    ensures Lookup(NextCommands(Balancer, SmartDemands(m), map[], m as real * 6.0, deadband), SmartDemands(m)[i].id)
        == Some(6.0)
  {
    hide NextCommands, SmartDemands;
    QuotientOfProduct(m as real, 6.0);
    EqualSplit(m, map[], m as real * 6.0, 6, i, deadband);
  }

  lemma StayAtSix(m: nat, commands: Commands, deadband: real, i: nat)
    requires i < m && 0.0 < deadband && Lookup(commands, SmartDemands(m)[i].id) == Some(6.0)
    ensures Lookup(NextCommands(Balancer, SmartDemands(m), commands, m as real * 5.0, deadband), SmartDemands(m)[i].id)
        == Some(6.0)
  {
    hide NextCommands, SmartDemands;
    QuotientOfProduct(m as real, 5.0);
    EqualSplit(m, commands, m as real * 5.0, 5, i, deadband);
  }

  lemma SixStays(m: nat, deadband: real, i: nat)
    requires i < m && 0.0 < deadband
    ensures Lookup(Run(map[], FullThenTight(m), deadband), SmartDemands(m)[i].id) == Some(6.0)
  {
    hide Run, NextCommands, SmartDemands;
    RunOfTwo(FullThenTight(m)[0], FullThenTight(m)[1], deadband);
    StartAtSix(m, deadband, i);
    StayAtSix(m, NextCommands(Balancer, SmartDemands(m), map[], m as real * 6.0, deadband), deadband, i);
  }

  /** For every number of smart loadpoints two ticks suffice to exceed the budget by 1 A for each. */
  lemma SmartSlackIsReached(m: nat, deadband: real)
    requires m > 0 && 0.0 < deadband
    ensures ValidTicks(FullThenTight(m)) && SmartWanting(SmartDemands(m)) == m
    ensures TotalCommanded(SmartDemands(m), Run(map[], FullThenTight(m), deadband))
        == FullThenTight(m)[1].budget + m as real
  {
    hide Run, NextCommands;
    var demands := SmartDemands(m);
    DistinctNames(m);
    forall i | 0 <= i < m ensures Lookup(Run(map[], FullThenTight(m), deadband), demands[i].id) == Some(6.0) {
      SixStays(m, deadband, i);
    }
    SixEach(demands, Run(map[], FullThenTight(m), deadband), m);
    assert forall lp :: lp in Snapshots(demands, map[]) ==> WantsSmart(lp);
    AllSmart(Snapshots(demands, map[]));
  }

  /** On a circuit without a balancer the only slack is the deadband itself. */
  lemma BareCommandWithinDeadband(d: Demand, commands: Commands, budget: real, deadband: real)
    requires d.hasCharger && budget >= 0.0 && deadband > 0.0 && SaneCommands(commands)
    ensures var next := Lookup(NextCommands(Bare, [d], commands, budget, deadband), d.id);
      next.Some? && next.value < budget + deadband
  {
    CommittedLookup(Bare, [d], commands, budget, deadband, 1, 0);
  }
}
