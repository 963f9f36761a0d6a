/**
  The current ladder of src/core/smart-charging/current.ts, the meter selection and the credit-back that
  feed it, and what they mean for the fuse when the commands they lead to are drawn.
 */
module CircuitBudget {
  import opened Prelude
  import opened Allocator
  import opened ControlLoop
  import opened Overshoot

  datatype CurrentRung = LiveMeter | HistoricalWorstCase | StaticTimeOfDay

  datatype CurrentInputs = CurrentInputs(
    maxCurrentA: real, mainBreakerA: Option<real>, liveMaxPhaseA: Option<real>, ownDrawA: Option<real>,
    worstCaseLoadA: Option<real>, reserveA: Option<real>, night: bool, nightMarginA: Option<real>,
    daytimeFraction: Option<real>, minCurrentA: Option<real>)

  datatype Resolved = Resolved(value: real, source: CurrentRung, degraded: bool)

  function SettleBudget(i: CurrentInputs, amps: real): real {
    var capped := Max(0.0, Min(amps, i.maxCurrentA));
    if capped < i.minCurrentA.GetOr(OCPP_MIN_A) then 0.0 else capped
  }

  function ResolveCurrentBudget(i: CurrentInputs): Resolved {
    var reserve := i.reserveA.GetOr(0.0);
    if i.mainBreakerA.Some? && i.liveMaxPhaseA.Some? then
      var free := i.mainBreakerA.value - reserve - i.liveMaxPhaseA.value + i.ownDrawA.GetOr(0.0);
      Resolved(SettleBudget(i, free), LiveMeter, false)
    else if i.mainBreakerA.Some? && i.worstCaseLoadA.Some? then
      Resolved(SettleBudget(i, i.mainBreakerA.value - reserve - i.worstCaseLoadA.value - 1.0),
               HistoricalWorstCase, true)
    else if i.mainBreakerA.Some? then
      var budget := if i.night then i.mainBreakerA.value - i.nightMarginA.GetOr(3.0)
                    else i.mainBreakerA.value * i.daytimeFraction.GetOr(0.5);
      Resolved(SettleBudget(i, budget), StaticTimeOfDay, true)
    else
      Resolved(SettleBudget(i, i.maxCurrentA), StaticTimeOfDay, false)
  }

  /** Every rung yields nothing or a valid charge current below the ceiling, and the load-aware rungs never
      more than what is free below the reserve. */
  lemma BudgetRange(i: CurrentInputs)
    requires i.minCurrentA.None?
    ensures var r := ResolveCurrentBudget(i);
      && (r.value == 0.0 || OCPP_MIN_A <= r.value <= i.maxCurrentA)
      && (r.source.LiveMeter? && r.value > 0.0 ==>
           r.value + i.liveMaxPhaseA.value <= i.mainBreakerA.value - i.reserveA.GetOr(0.0) + i.ownDrawA.GetOr(0.0))
      && (r.source.HistoricalWorstCase? && r.value > 0.0 ==>
           r.value + i.worstCaseLoadA.value < i.mainBreakerA.value - i.reserveA.GetOr(0.0))
  {
  }

  /** What the fuse leaves the chargers, from the best source there is. */
  predicate LeavesRoom(i: CurrentInputs, amps: real) {
    i.mainBreakerA.Some? ==>
      var breaker := i.mainBreakerA.value;
      match (i.liveMaxPhaseA, i.worstCaseLoadA)
      case (Some(load), _) => load - i.ownDrawA.GetOr(0.0) + amps <= breaker - i.reserveA.GetOr(0.0)
      case (None, Some(load)) => load + 1.0 + amps <= breaker - i.reserveA.GetOr(0.0)
      case (None, None) =>
        if i.night then amps + i.nightMarginA.GetOr(3.0) <= breaker else amps <= breaker * i.daytimeFraction.GetOr(0.5)
  }

  /** A charge current: at least the minimum, 6 A unless said otherwise, within the ceiling and what the fuse leaves. */
  predicate Chargeable(i: CurrentInputs, amps: real) {
    i.minCurrentA.GetOr(6.0) <= amps <= i.maxCurrentA && LeavesRoom(i, amps)
  }

  /** The budget is the largest charge current there is, and 0 if there is none. */
  lemma BudgetIsLargest(i: CurrentInputs)
    requires i.minCurrentA.GetOr(6.0) > 0.0
    ensures var value := ResolveCurrentBudget(i).value;
      && (value != 0.0 <==> exists amps: real :: Chargeable(i, amps))
      && (value != 0.0 ==> Chargeable(i, value) && forall amps: real :: Chargeable(i, amps) ==> amps <= value)
  {
    var value := ResolveCurrentBudget(i).value;
    if amps: real :| Chargeable(i, amps) {
      LargestAtLeast(i, amps);
    }
    if value != 0.0 {
      assert Chargeable(i, value);
      forall amps: real | Chargeable(i, amps) ensures amps <= value {
        LargestAtLeast(i, amps);
      }
    }
  }

  lemma LargestAtLeast(i: CurrentInputs, amps: real)
    requires i.minCurrentA.GetOr(6.0) > 0.0 && Chargeable(i, amps)
    ensures amps <= ResolveCurrentBudget(i).value
  {
  }

  /** The rung says which source that was, and whether it is worse than a live reading. */
  lemma RungIs(i: CurrentInputs)
    ensures var r := ResolveCurrentBudget(i);
      && (r.source == LiveMeter <==> i.mainBreakerA.Some? && i.liveMaxPhaseA.Some?)
      && (r.source == HistoricalWorstCase <==> i.mainBreakerA.Some? && i.liveMaxPhaseA.None? && i.worstCaseLoadA.Some?)
      && (r.degraded <==> i.mainBreakerA.Some? && i.liveMaxPhaseA.None?)
  {
  }

  // ---------- the meter ----------

  datatype MeterSnapshot = MeterSnapshot(i1A: Option<real>, i2A: Option<real>, i3A: Option<real>)
  datatype Reader = Reader(name: string, healthy: bool, latest: Option<MeterSnapshot>)

  function FindReader(readers: seq<Reader>, name: string): Option<Reader> {
    if readers == [] then None else if readers[0].name == name then Some(readers[0]) else FindReader(readers[1..], name)
  }

  function CircuitLiveMaxPhaseA(meterReaderName: Option<string>, readers: seq<Reader>): Option<real> {
    var reader :=
      if meterReaderName.Some? && meterReaderName.value != "" then FindReader(readers, meterReaderName.value)
      else if |readers| == 1 then Some(readers[0])
      else None;
    if reader.None? || !reader.value.healthy || reader.value.latest.None? then None
    else
      var s := reader.value.latest.value;
      Some(Max(Max(s.i1A.GetOr(0.0), s.i2A.GetOr(0.0)), s.i3A.GetOr(0.0)))
  }

  predicate Covers(r: Reader, load: real) {
    && r.healthy && r.latest.Some?
    && r.latest.value.i1A.GetOr(0.0) <= load
    && r.latest.value.i2A.GetOr(0.0) <= load
    && r.latest.value.i3A.GetOr(0.0) <= load
  }

  /** The reader a circuit's meter name stands for: the one so called, or without a name the only one. */
  predicate Chosen(meterReaderName: Option<string>, readers: seq<Reader>, r: Reader) {
    if meterReaderName.Some? && meterReaderName.value != "" then r in readers && r.name == meterReaderName.value
    else readers == [r]
  }

  /** The load is the highest phase, a missing phase counting as 0. */
  predicate IsMaxPhase(r: Reader, load: real) {
    && Covers(r, load)
    && load in {r.latest.value.i1A.GetOr(0.0), r.latest.value.i2A.GetOr(0.0), r.latest.value.i3A.GetOr(0.0)}
  }

  /** Readers are kept by name. */
  ghost predicate DistinctNames(readers: seq<Reader>) {
    forall i, j :: 0 <= i < j < |readers| ==> readers[i].name != readers[j].name
  }

  ghost predicate HasFrame(meterReaderName: Option<string>, readers: seq<Reader>, r: Reader) {
    Chosen(meterReaderName, readers, r) && r.healthy && r.latest.Some?
  }

  /** There is a live load exactly when the circuit's reader is healthy and has a frame, and it is the highest
      phase of that frame; an ambiguous choice among several readers gives none. */
  lemma LiveLoadIsTrustworthy(meterReaderName: Option<string>, readers: seq<Reader>)
    requires DistinctNames(readers)
    ensures var live := CircuitLiveMaxPhaseA(meterReaderName, readers);
      && (live.Some? <==> exists r :: HasFrame(meterReaderName, readers, r))
      && (forall r :: HasFrame(meterReaderName, readers, r) ==> live.Some? && IsMaxPhase(r, live.value))
      && (|readers| != 1 && (meterReaderName.None? || meterReaderName.value == "") ==> live.None?)
  {
    var live := CircuitLiveMaxPhaseA(meterReaderName, readers);
    if meterReaderName.Some? && meterReaderName.value != "" {
      FoundByName(readers, meterReaderName.value);
      var found := FindReader(readers, meterReaderName.value);
      if live.Some? {
        assert HasFrame(meterReaderName, readers, found.value);
      }
      forall r | HasFrame(meterReaderName, readers, r) ensures found == Some(r) {
      }
    } else if live.Some? {
      assert readers == [readers[0]];
      assert HasFrame(meterReaderName, readers, readers[0]);
    }
  }

  lemma {:induction false} FoundByName(readers: seq<Reader>, name: string)
    ensures var found := FindReader(readers, name);
      && (found.Some? ==> found.value in readers && found.value.name == name)
      && (DistinctNames(readers) ==> forall r :: r in readers && r.name == name ==> found == Some(r))
  {
    if readers != [] {
      FoundByName(readers[1..], name);
    }
  }

  // ---------- the plant ----------

  type Draws = map<string, real>

  function Draw(draws: Draws, id: string): real {
    if id in draws then draws[id] else 0.0
  }

  /** `circuitOwnDrawA` over the first `i` loadpoints. */
  function OwnDrawA(demands: seq<Demand>, draws: Draws, commands: Commands, i: nat): real
    requires i <= |demands|
  {
    if i == 0 then 0.0
    else
      OwnDrawA(demands, draws, commands, i - 1)
      + Max(Draw(draws, demands[i - 1].id), Lookup(commands, demands[i - 1].id).GetOr(0.0))
  }

  /** What the chargers really draw. */
  function DrawnA(demands: seq<Demand>, draws: Draws, i: nat): real
    requires i <= |demands|
  {
    if i == 0 then 0.0 else DrawnA(demands, draws, i - 1) + Draw(draws, demands[i - 1].id)
  }

  /** By how much the chargers stay below their commands. */
  function ShortfallA(demands: seq<Demand>, draws: Draws, commands: Commands, i: nat): real
    requires i <= |demands|
  {
    if i == 0 then 0.0
    else
      ShortfallA(demands, draws, commands, i - 1)
      + Max(0.0, Lookup(commands, demands[i - 1].id).GetOr(0.0) - Draw(draws, demands[i - 1].id))
  }

  /** Crediting the larger of draw and command back cancels the chargers' own draw from the reading: what
      stays is the house load, less whatever the chargers were commanded but do not draw. */
  lemma {:induction false} CreditBackCancelsOwnDraw(demands: seq<Demand>, draws: Draws, commands: Commands, i: nat)
    requires i <= |demands|
    ensures OwnDrawA(demands, draws, commands, i) - DrawnA(demands, draws, i) == ShortfallA(demands, draws, commands, i)
    ensures ShortfallA(demands, draws, commands, i) >= 0.0
    ensures (forall j :: 0 <= j < |demands| ==>
               Lookup(commands, demands[j].id).GetOr(0.0) <= Draw(draws, demands[j].id))
      ==> ShortfallA(demands, draws, commands, i) == 0.0
  {
    if i > 0 {
      CreditBackCancelsOwnDraw(demands, draws, commands, i - 1);
    }
  }

  /** The budget of a balancer circuit whose meter sees the house and the chargers on the same phase. */
  function LiveBudget(breaker: real, reserve: real, house: real, demands: seq<Demand>, draws: Draws,
                      commands: Commands): real {
    ResolveCurrentBudget(CurrentInputs(
      breaker, Some(breaker), Some(house + DrawnA(demands, draws, |demands|)),
      Some(OwnDrawA(demands, draws, commands, |demands|)), None, Some(reserve), false, None, None, None)).value
  }

  /** In such a circuit the budget is the breaker less the reserve and the house, plus what the chargers were
      commanded but do not draw; it does not depend on what they do draw. */
  lemma LiveBudgetIs(breaker: real, reserve: real, house: real, demands: seq<Demand>, draws: Draws, commands: Commands)
    ensures var room := breaker - reserve - house + ShortfallA(demands, draws, commands, |demands|);
      LiveBudget(breaker, reserve, house, demands, draws, commands)
        == if Min(room, breaker) < 6.0 then 0.0 else Min(room, breaker)
  {
    CreditBackCancelsOwnDraw(demands, draws, commands, |demands|);
  }

  /** No charger draws more than it was commanded. */
  ghost predicate Obeyed(demands: seq<Demand>, draws: Draws, commands: Commands) {
    forall i :: 0 <= i < |demands| ==>
      Draw(draws, demands[i].id) <= if demands[i].hasCharger then Lookup(commands, demands[i].id).GetOr(0.0) else 0.0
  }

  lemma {:induction false} DrawnWithinCommanded(demands: seq<Demand>, draws: Draws, commands: Commands, i: nat)
    requires i <= |demands| && Obeyed(demands, draws, commands)
    ensures DrawnA(demands, draws, i) <= Commanded(demands, commands, i)
  {
    if i > 0 {
      DrawnWithinCommanded(demands, draws, commands, i - 1);
    }
  }

  /** The phase current after a tick: whatever the chargers drew while it was measured, it exceeds the
      breaker less the reserve at most by the split's slack, by what the chargers had left undrawn, and by
      what the house adds in the meantime. When the house alone is above that, the chargers add nothing. */
  lemma NextPhaseWithinBreaker(breaker: real, reserve: real, house: real, houseNext: real, demands: seq<Demand>,
                               commands: Commands, deadband: real, draws: Draws, drawsNext: Draws)
    requires SaneCommands(commands) && Distinct(demands) && deadband <= 1.0
    requires var budget := LiveBudget(breaker, reserve, house, demands, draws, commands);
      Obeyed(demands, drawsNext, NextCommands(Balancer, demands, commands, budget, deadband))
    ensures var slack := Max(1.0, SmartWanting(demands) as real);
      houseNext + DrawnA(demands, drawsNext, |demands|)
        <= Max(houseNext,
               breaker - reserve + slack + ShortfallA(demands, draws, commands, |demands|) + (houseNext - house))
  {
    var budget := LiveBudget(breaker, reserve, house, demands, draws, commands);
    var next := NextCommands(Balancer, demands, commands, budget, deadband);
    CreditBackCancelsOwnDraw(demands, draws, commands, |demands|);
    DrawnWithinCommanded(demands, drawsNext, next, |demands|);
    if budget == 0.0 {
      NoBudgetNoCommand(demands, commands, deadband);
    } else {
      TickWithinSlack(demands, commands, budget, deadband);
    }
  }
}
