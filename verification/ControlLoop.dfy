/**
  One circuit's control tick: the pure stages of src/core/control-loop.ts and the write loop of
  src/core/lifecycle.ts that feeds every command back into the next tick.
 */
module ControlLoop {
  import opened Prelude
  import opened Allocator

  const CLIMATE_MAX_OFFER_A := 6.0

  type Commands = map<string, real>

  datatype Topology = Balancer | Bare

  /** What a tick resolved for one loadpoint. */
  datatype Demand = Demand(id: string, mode: ChargeMode, shouldChargeNow: Option<bool>, targetReached: bool,
                           pauseOnTarget: bool, maxCurrentA: real, climateOnly: bool, hasCharger: bool)

  function SoftStartLimit(targetA: real, prevCommandedA: real): real {
    if prevCommandedA >= OCPP_MIN_A || targetA <= OCPP_MIN_A then targetA
    else Max(OCPP_MIN_A, (targetA / 2.0).Floor as real)
  }

  predicate ShouldWrite(candidateA: real, lastCommandedA: Option<real>, deadbandA: real) {
    lastCommandedA.None? || Abs(candidateA - lastCommandedA.value) >= deadbandA
  }

  function BareCircuitAmps(d: Demand, budgetA: real): real {
    match d.mode
    case Disabled => 0.0
    case Smart => if d.shouldChargeNow == Some(false) then 0.0 else budgetA
    case Fast => if d.targetReached && d.pauseOnTarget then 0.0 else budgetA
  }

  function Lookup(commands: Commands, id: string): Option<real> {
    if id in commands then Some(commands[id]) else None
  }

  function SnapshotOf(d: Demand, commands: Commands): Snapshot {
    Snapshot(d.id, d.mode, d.shouldChargeNow, d.targetReached, d.pauseOnTarget,
             if d.climateOnly then Min(d.maxCurrentA, CLIMATE_MAX_OFFER_A) else d.maxCurrentA,
             Lookup(commands, d.id))
  }

  function Snapshots(demands: seq<Demand>, commands: Commands): seq<Snapshot> {
    seq(|demands|, i requires 0 <= i < |demands| => SnapshotOf(demands[i], commands))
  }

  /** The amps this tick wants for demand `i`. */
  function TargetAmps(topology: Topology, demands: seq<Demand>, commands: Commands, budget: real, i: nat): real
    requires i < |demands|
  {
    if topology.Balancer? then Allocation(Snapshots(demands, commands), budget, i)
    else BareCircuitAmps(demands[i], if demands[i].climateOnly then Min(CLIMATE_MAX_OFFER_A, budget) else budget)
  }

  /** The command left standing after a tick that wants `target`. */
  function NextCommand(target: real, last: Option<real>, deadband: real): Option<real> {
    if ShouldWrite(target, last, deadband) then Some(SoftStartLimit(target, last.GetOr(0.0))) else last
  }

  /** The commands after the first `i` demands of a tick have been acted on. */
  function Committed(topology: Topology, demands: seq<Demand>, commands: Commands, budget: real, deadband: real,
                     i: nat): Commands
    requires i <= |demands|
  {
    if i == 0 then commands
    else
      var before := Committed(topology, demands, commands, budget, deadband, i - 1);
      var d := demands[i - 1];
      var next := NextCommand(TargetAmps(topology, demands, commands, budget, i - 1), Lookup(commands, d.id), deadband);
      if d.hasCharger && next.Some? then before[d.id := next.value] else before
  }

  function NextCommands(topology: Topology, demands: seq<Demand>, commands: Commands, budget: real,
                        deadband: real): Commands {
    Committed(topology, demands, commands, budget, deadband, |demands|)
  }

  ghost predicate Distinct(demands: seq<Demand>) {
    forall i, j :: 0 <= i < j < |demands| ==> demands[i].id != demands[j].id
  }

  lemma {:induction false} CommittedLookup(topology: Topology, demands: seq<Demand>, commands: Commands, budget: real,
                                           deadband: real, n: nat, i: nat)
    requires Distinct(demands) && n <= |demands| && i < |demands|
    ensures Lookup(Committed(topology, demands, commands, budget, deadband, n), demands[i].id)
      == if i < n && demands[i].hasCharger
         then NextCommand(TargetAmps(topology, demands, commands, budget, i), Lookup(commands, demands[i].id), deadband)
         else Lookup(commands, demands[i].id)
  {
    hide TargetAmps, ShouldWrite, SoftStartLimit;
    if n > 0 {
      CommittedLookup(topology, demands, commands, budget, deadband, n - 1, i);
    }
  }

  lemma {:induction false} CommittedElsewhere(topology: Topology, demands: seq<Demand>, commands: Commands,
                                              budget: real, deadband: real, n: nat, id: string)
    requires n <= |demands| && forall i :: 0 <= i < |demands| ==> demands[i].id != id
    ensures Lookup(Committed(topology, demands, commands, budget, deadband, n), id) == Lookup(commands, id)
  {
    if n > 0 {
      CommittedElsewhere(topology, demands, commands, budget, deadband, n - 1, id);
    }
  }

  /** The commands the lifecycle remembers, updated in place by every circuit tick. */
  class Commander {
    var lastCommandedA: Commands

    constructor ()
      ensures lastCommandedA == map[]
    {
      lastCommandedA := map[];
    }

    /** `planCircuit`: the amps of every demand, and the subset that clears the deadband. */
    method PlanCircuit(topology: Topology, demands: seq<Demand>, allocations: Commands, budget: real, deadband: real)
      returns (amps: Commands, writes: Commands)
      requires Distinct(demands)
      requires topology.Balancer? ==> forall i :: 0 <= i < |demands| ==>
        Given(allocations, Snapshots(demands, lastCommandedA), budget, i)
      ensures forall i :: 0 <= i < |demands| ==>
        && demands[i].id in amps
        && amps[demands[i].id] == TargetAmps(topology, demands, lastCommandedA, budget, i)
      ensures forall i :: 0 <= i < |demands| ==>
        && (demands[i].id in writes
            <==> ShouldWrite(amps[demands[i].id], Lookup(lastCommandedA, demands[i].id), deadband))
        && (demands[i].id in writes ==> writes[demands[i].id] == amps[demands[i].id])
    {
      amps, writes := map[], map[];
      for i := 0 to |demands|
        invariant forall j :: 0 <= j < i ==>
          && demands[j].id in amps
          && amps[demands[j].id] == TargetAmps(topology, demands, lastCommandedA, budget, j)
      {
        var d := demands[i];
        var a;
        if topology.Balancer? {
          assert Given(allocations, Snapshots(demands, lastCommandedA), budget, i);
          a := allocations[d.id];
        } else {
          a := BareCircuitAmps(d, if d.climateOnly then Min(CLIMATE_MAX_OFFER_A, budget) else budget);
        }
        amps := amps[d.id := a];
      }
      for i := 0 to |demands|
        invariant forall j :: i <= j < |demands| ==> demands[j].id !in writes
        invariant forall j :: 0 <= j < i ==>
          && (demands[j].id in writes
              <==> ShouldWrite(amps[demands[j].id], Lookup(lastCommandedA, demands[j].id), deadband))
          && (demands[j].id in writes ==> writes[demands[j].id] == amps[demands[j].id])
      {
        var d := demands[i];
        if ShouldWrite(amps[d.id], Lookup(lastCommandedA, d.id), deadband) {
          writes := writes[d.id := amps[d.id]];
        }
      }
    }

    /** A tick: split, plan, then write through the deadband and the soft start. */
    method CircuitTick(topology: Topology, demands: seq<Demand>, budget: real, deadband: real)
      requires Distinct(demands)
      modifies this
      ensures lastCommandedA == NextCommands(topology, demands, old(lastCommandedA), budget, deadband)
    {
      var allocations := map[];
      if topology.Balancer? {
        allocations := Allocate(Snapshots(demands, lastCommandedA), budget);
      }
      var amps, writes := PlanCircuit(topology, demands, allocations, budget, deadband);
      for i := 0 to |demands|
        invariant lastCommandedA == Committed(topology, demands, old(lastCommandedA), budget, deadband, i)
      {
        var d := demands[i];
        CommittedLookup(topology, demands, old(lastCommandedA), budget, deadband, i, i);
        if d.id in writes && d.hasCharger {
          var limit := SoftStartLimit(writes[d.id], Lookup(lastCommandedA, d.id).GetOr(0.0));
          lastCommandedA := lastCommandedA[d.id := limit];
        } else if d.hasCharger && d.id in lastCommandedA {
          assert lastCommandedA[d.id := lastCommandedA[d.id]] == lastCommandedA;
        }
      }
    }
  }
}
