/** Whether a smart loadpoint charges now: src/core/smart-charging/decide.ts. */
module Decide {
  import opened Prelude
  import opened Planner
  import opened Selection

  datatype DecideResult = DecideResult(shouldCharge: bool, plannedSlots: seq<PlannedSlot>)

  /** The first slot that covers `now`. */
  function FindCurrent(planned: seq<PlannedSlot>, now: int): Option<PlannedSlot> {
    if planned == [] then None
    else if planned[0].start <= now && planned[0].end > now then Some(planned[0])
    else FindCurrent(planned[1..], now)
  }

  function DecideShouldCharge(requiredKWh: real, now: int, targetTime: int, planRateA: real, phases: int,
                              prices: seq<TariffSlot>): DecideResult
  {
    if requiredKWh <= 0.0 then DecideResult(false, [])
    else
      var planned := Plan(requiredKWh, targetTime, planRateA, phases, prices, now);
      var current := FindCurrent(planned, now);
      DecideResult(
        if current.Some? then current.value.shouldCharge
        else if planned != [] then planned[0].shouldCharge
        else true,
        planned)
  }

  lemma {:induction false} NoLaterSlotCovers(planned: seq<PlannedSlot>, now: int)
    requires forall i :: 0 <= i < |planned| ==> planned[i].start > now
    ensures FindCurrent(planned, now).None?
  {
    if planned != [] {
      NoLaterSlotCovers(planned[1..], now);
    }
  }

  /** The decision is the first planned slot's, running or imminent; with no slot left it is to charge. */
  lemma DecisionIsFirstSlot(requiredKWh: real, now: int, targetTime: int, planRateA: real, phases: int,
                            prices: seq<TariffSlot>)
    requires requiredKWh > 0.0
    ensures var d := DecideShouldCharge(requiredKWh, now, targetTime, planRateA, phases, prices);
      d.shouldCharge == (d.plannedSlots == [] || d.plannedSlots[0].shouldCharge)
  {
    var planned := Plan(requiredKWh, targetTime, planRateA, phases, prices, now);
    QuarterIs(now, QuarterAt(now));
    if planned != [] && planned[0].start > now {
      NoLaterSlotCovers(planned, now);
    }
  }

  /** Waiting with energy still missing leaves a whole spare slot: even without the imminent one, the
      slots left deliver what is required. */
  lemma WaitingLeavesASpareSlot(requiredKWh: real, now: int, targetTime: int, planRateA: real, phases: int,
                                prices: seq<TariffSlot>)
    requires requiredKWh > 0.0 && planRateA >= 0.0 && phases >= 0
    requires !DecideShouldCharge(requiredKWh, now, targetTime, planRateA, phases, prices).shouldCharge
    ensures |Grid(now, targetTime)| >= 1
    ensures requiredKWh <= ChargeRateKW(planRateA, phases) * (|Grid(now, targetTime)| - 1) as real / 4.0
  {
    DecisionIsFirstSlot(requiredKWh, now, targetTime, planRateA, phases, prices);
    var rate := ChargeRateKW(planRateA, phases);
    assert planRateA * phases as real >= 0.0;
    var n := |Grid(now, targetTime)|;
    var k := SlotsNeeded(requiredKWh, rate, n);
    NeededRange(requiredKWh, rate, n);
    if k == n && prices != [] {
      ChosenByRank(now, targetTime, k, prices, 0);
      RankBelowAll(now, targetTime, prices, 0);
    }
    assert k < n;
    NeedsMoreThan(requiredKWh, rate, n - 1);
  }
}
