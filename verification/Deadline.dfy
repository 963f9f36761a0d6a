/**
  Deadline safety of the receding-horizon planner over whole runs.

  Every tick re-plans from scratch with whatever prices it is given and acts only on the first slot of
  its plan. A charger that delivers at least `rateKW` whenever it is told to charge is nevertheless
  always on time, to the quarter hour.
 */
module Deadline {
  import opened Prelude
  import opened Planner
  import opened Selection
  import opened Decide

  /** One control tick and the interval that follows it; `deliveredKWh` counts only if it charges. */
  datatype Tick = Tick(at: int, until: int, planRateA: real, phases: int, prices: seq<TariffSlot>, deliveredKWh: real)

  /** What `rateKW` delivers in `ms`. */
  function Energy(rateKW: real, ms: int): real {
    rateKW * (ms as real / HOUR_MS as real)
  }

  function After(requiredKWh: real, tick: Tick, targetTime: int): real {
    if DecideShouldCharge(requiredKWh, tick.at, targetTime, tick.planRateA, tick.phases, tick.prices).shouldCharge
    then Max(0.0, requiredKWh - tick.deliveredKWh)
    else requiredKWh
  }

  /** The energy still required at the end of a run. */
  function RunRequired(requiredKWh: real, ticks: seq<Tick>, targetTime: int): real
    decreases |ticks|
  {
    if ticks == [] then requiredKWh else RunRequired(After(requiredKWh, ticks[0], targetTime), ticks[1..], targetTime)
  }

  /** At most a quarter hour to the next tick, planned at no more than `rateKW`, delivering at least that. */
  ghost predicate ValidTick(t: Tick, rateKW: real) {
    && t.at <= t.until <= t.at + SLOT_MS
    && 0.0 <= t.planRateA && 0 <= t.phases && ChargeRateKW(t.planRateA, t.phases) <= rateKW
    && Energy(rateKW, t.until - t.at) <= t.deliveredKWh
  }

  ghost predicate ValidRun(ticks: seq<Tick>, rateKW: real) {
    && (forall i :: 0 <= i < |ticks| ==> ValidTick(ticks[i], rateKW))
    && (forall i :: 0 < i < |ticks| ==> ticks[i - 1].until == ticks[i].at)
  }

  /** What can still be delivered from `now` on. */
  function Reach(rateKW: real, now: int, deadline: int): real {
    if deadline <= now then 0.0 else Energy(rateKW, deadline - now)
  }

  lemma EnergyAdds(rateKW: real, a: int, b: int)
    requires rateKW >= 0.0
    ensures Energy(rateKW, a + b) == Energy(rateKW, a) + Energy(rateKW, b)
    ensures b >= 0 ==> Energy(rateKW, b) >= 0.0
  {
    var x, y := a as real / HOUR_MS as real, b as real / HOUR_MS as real;
    assert (a + b) as real / HOUR_MS as real == x + y;
    assert rateKW * (x + y) == rateKW * x + rateKW * y;
  }

  lemma EnergyOfSlots(rateKW: real, n: int)
    ensures Energy(rateKW, n * SLOT_MS) == rateKW * n as real / 4.0
  {
    assert (n * SLOT_MS) as real / HOUR_MS as real == n as real / 4.0;
    assert rateKW * (n as real / 4.0) == rateKW * n as real / 4.0;
  }

  lemma MoreTimeMoreEnergy(rateKW: real, a: int, b: int)
    requires rateKW >= 0.0 && a <= b
    ensures Energy(rateKW, a) <= Energy(rateKW, b)
  {
    EnergyAdds(rateKW, a, b - a);
  }

  lemma FasterIsMore(slow: real, fast: real, n: nat)
    requires slow <= fast
    ensures slow * n as real / 4.0 <= fast * n as real / 4.0
  {
  }

  /** A tick's interval takes up at most the first slot of its grid. */
  lemma SpareTime(at: int, until: int, targetTime: int)
    requires at <= until <= at + SLOT_MS && |Grid(at, targetTime)| >= 1
    ensures (|Grid(at, targetTime)| - 1) * SLOT_MS <= QuarterUp(targetTime) - until
  {
    QuarterIs(at, QuarterAt(at));
  }

  /** A tick that waits does so only while what is left of the grid after its interval suffices. */
  lemma WaitingIsAffordable(requiredKWh: real, t: Tick, targetTime: int, rateKW: real)
    requires rateKW > 0.0 && ValidTick(t, rateKW) && requiredKWh > 0.0
    requires !DecideShouldCharge(requiredKWh, t.at, targetTime, t.planRateA, t.phases, t.prices).shouldCharge
    ensures t.until <= QuarterUp(targetTime) && requiredKWh <= Energy(rateKW, QuarterUp(targetTime) - t.until)
  {
    hide Energy, DecideShouldCharge, ChargeRateKW, QuarterAt, Grid;
    WaitingLeavesASpareSlot(requiredKWh, t.at, targetTime, t.planRateA, t.phases, t.prices);
    var spare := |Grid(t.at, targetTime)| - 1;
    FasterIsMore(ChargeRateKW(t.planRateA, t.phases), rateKW, spare);
    EnergyOfSlots(rateKW, spare);
    SpareTime(t.at, t.until, targetTime);
    MoreTimeMoreEnergy(rateKW, spare * SLOT_MS, QuarterUp(targetTime) - t.until);
  }

  /** One tick keeps the deadline, rounded up to the quarter, within reach. */
  lemma TickKeepsReach(requiredKWh: real, t: Tick, targetTime: int, rateKW: real)
    requires rateKW > 0.0 && ValidTick(t, rateKW)
    requires requiredKWh <= Reach(rateKW, t.at, QuarterUp(targetTime))
    ensures After(requiredKWh, t, targetTime) <= Reach(rateKW, t.until, QuarterUp(targetTime))
  {
    var deadline := QuarterUp(targetTime);
    var charges := DecideShouldCharge(requiredKWh, t.at, targetTime, t.planRateA, t.phases, t.prices).shouldCharge;
    EnergyAdds(rateKW, 0, deadline - t.until);
    if requiredKWh > 0.0 && !charges {
      WaitingIsAffordable(requiredKWh, t, targetTime, rateKW);
    } else if charges {
      EnergyAdds(rateKW, deadline - t.until, t.until - t.at);
      assert deadline - t.until + (t.until - t.at) == deadline - t.at;
      if deadline <= t.until {
        EnergyAdds(rateKW, deadline - t.at, t.until - deadline);
        assert deadline - t.at + (t.until - deadline) == t.until - t.at;
        EnergyAdds(rateKW, 0, t.until - t.at);
      }
    }
  }

  /** The deadline stays reachable at every later tick. */
  lemma {:induction false} RunKeepsReach(requiredKWh: real, ticks: seq<Tick>, targetTime: int, rateKW: real)
    requires rateKW > 0.0 && ticks != [] && ValidRun(ticks, rateKW)
    requires requiredKWh <= Reach(rateKW, ticks[0].at, QuarterUp(targetTime))
    ensures RunRequired(requiredKWh, ticks, targetTime)
      <= Reach(rateKW, ticks[|ticks| - 1].until, QuarterUp(targetTime))
    decreases |ticks|
  {
    TickKeepsReach(requiredKWh, ticks[0], targetTime, rateKW);
    if |ticks| > 1 {
      RunKeepsReach(After(requiredKWh, ticks[0], targetTime), ticks[1..], targetTime, rateKW);
    } else {
      assert ticks[1..] == [];
    }
  }

  /** Nothing is missing once the target, rounded up to the quarter, has passed. */
  lemma DoneByTheQuarter(requiredKWh: real, ticks: seq<Tick>, targetTime: int, rateKW: real)
    requires rateKW > 0.0 && ticks != [] && ValidRun(ticks, rateKW)
    requires ticks[0].at <= targetTime && requiredKWh <= Energy(rateKW, targetTime - ticks[0].at)
    requires QuarterUp(targetTime) <= ticks[|ticks| - 1].until
    ensures RunRequired(requiredKWh, ticks, targetTime) <= 0.0
  {
    QuarterIs(targetTime, QuarterAt(targetTime));
    EnergyAdds(rateKW, targetTime - ticks[0].at, QuarterUp(targetTime) - targetTime);
    RunKeepsReach(requiredKWh, ticks, targetTime, rateKW);
  }

  // ---------- exactly which targets are met to the millisecond ----------

  ghost predicate LateRun(requiredKWh: real, ticks: seq<Tick>, targetTime: int, rateKW: real) {
    && ticks != [] && ValidRun(ticks, rateKW)
    && ticks[0].at <= targetTime && requiredKWh <= Energy(rateKW, targetTime - ticks[0].at)
    && ticks[|ticks| - 1].until == targetTime
    && RunRequired(requiredKWh, ticks, targetTime) > 0.0
  }

  ghost predicate AlwaysOnTime(targetTime: int, rateKW: real) {
    forall requiredKWh: real, ticks: seq<Tick> :: !LateRun(requiredKWh, ticks, targetTime, rateKW)
  }

  lemma SomeTimeSomeEnergy(rateKW: real, ms: int)
    requires rateKW > 0.0 && ms > 0
    ensures Energy(rateKW, ms) > 0.0
  {
    assert ms as real / HOUR_MS as real > 0.0;
  }

  lemma AmpsForRate(rateKW: real) returns (amps: real)
    requires rateKW > 0.0
    ensures amps > 0.0 && ChargeRateKW(amps, 1) == rateKW
  {
    amps := rateKW / 0.23;
  }

  lemma RunOfTwo(requiredKWh: real, a: Tick, b: Tick, targetTime: int)
    ensures RunRequired(requiredKWh, [a, b], targetTime) == After(After(requiredKWh, a, targetTime), b, targetTime)
  {
    assert [a, b][1..] == [b] && [b][1..] == [];
    var r := After(requiredKWh, a, targetTime);
    assert RunRequired(requiredKWh, [a, b], targetTime) == RunRequired(r, [b], targetTime);
    assert RunRequired(r, [b], targetTime) == RunRequired(After(r, b, targetTime), [], targetTime);
  }

  /** Two quarters before an unaligned target the planner may wait for a cheaper last slot that the
      target cuts short. */
  lemma UnalignedTargetCanBeMissed(targetTime: int, rateKW: real)
    requires rateKW > 0.0 && targetTime % SLOT_MS != 0
    ensures !AlwaysOnTime(targetTime, rateKW)
  {
    var q := QuarterAt(targetTime);
    QuarterIs(targetTime, q);
    var first, last := (q - 2) * SLOT_MS, (q - 1) * SLOT_MS;
    assert last == first + SLOT_MS && last < targetTime < last + SLOT_MS;
    var amps := AmpsForRate(rateKW);
    var prices := [TariffSlot(first, last, 1.0), TariffSlot(last, last + SLOT_MS, 0.0)];
    var tail := Energy(rateKW, targetTime - last);
    var waits := Tick(first, last, amps, 1, prices, rateKW / 4.0);
    var charges := Tick(last, targetTime, amps, 1, prices, tail);
    ShortRunWaits(q, amps, rateKW, targetTime, prices);
    hide DecideShouldCharge, Energy, RunRequired, ChargeRateKW, QuarterAt;
    TailFallsShort(rateKW, first, last, targetTime);
    TwoTicksLate(rateKW / 4.0, waits, charges, targetTime, rateKW);
  }

  /** A tick that waits and one that delivers less than what is required make a late run. */
  lemma TwoTicksLate(requiredKWh: real, waits: Tick, charges: Tick, targetTime: int, rateKW: real)
    requires ValidTick(waits, rateKW) && ValidTick(charges, rateKW)
    requires waits.until == charges.at && charges.until == targetTime
    requires waits.at <= targetTime && requiredKWh <= Energy(rateKW, targetTime - waits.at)
    requires After(requiredKWh, waits, targetTime) == requiredKWh > charges.deliveredKWh && requiredKWh > 0.0
    ensures LateRun(requiredKWh, [waits, charges], targetTime, rateKW)
  {
    hide DecideShouldCharge, Energy, RunRequired, ValidTick;
    RunOfTwo(requiredKWh, waits, charges, targetTime);
  }

  /** A quarter of an hour delivers more than the part of it before the target, and less than the two. */
  lemma TailFallsShort(rateKW: real, first: int, last: int, targetTime: int)
    requires rateKW > 0.0 && last == first + SLOT_MS && last < targetTime < last + SLOT_MS
    ensures Energy(rateKW, last - first) == rateKW / 4.0
    ensures 0.0 <= Energy(rateKW, targetTime - last) < rateKW / 4.0 <= Energy(rateKW, targetTime - first)
  {
    hide Energy;
    EnergyOfSlots(rateKW, 1);
    assert last - first == 1 * SLOT_MS;
    MoreTimeMoreEnergy(rateKW, SLOT_MS, targetTime - first);
    EnergyAdds(rateKW, targetTime - last, last + SLOT_MS - targetTime);
    EnergyAdds(rateKW, 0, targetTime - last);
    SomeTimeSomeEnergy(rateKW, last + SLOT_MS - targetTime);
    assert targetTime - last + (last + SLOT_MS - targetTime) == 1 * SLOT_MS;
  }

  lemma ShortRunWaits(q: int, amps: real, rateKW: real, targetTime: int, prices: seq<TariffSlot>)
    requires rateKW > 0.0 && amps > 0.0 && ChargeRateKW(amps, 1) == rateKW && QuarterAt(targetTime) == q
    requires prices == [TariffSlot((q - 2) * SLOT_MS, (q - 1) * SLOT_MS, 1.0),
                        TariffSlot((q - 1) * SLOT_MS, (q - 1) * SLOT_MS + SLOT_MS, 0.0)]
    ensures !DecideShouldCharge(rateKW / 4.0, (q - 2) * SLOT_MS, targetTime, amps, 1, prices).shouldCharge
  {
    var first := (q - 2) * SLOT_MS;
    QuarterIs(first, q - 2);
    DecisionIsFirstSlot(rateKW / 4.0, first, targetTime, amps, 1, prices);
    assert |Grid(first, targetTime)| == 2;
    NeedsMoreThan(rateKW / 4.0, rateKW, 0);
    NeedsMoreThan(rateKW / 4.0, rateKW, 1);
    assert SlotsNeeded(rateKW / 4.0, rateKW, 2) == 1;
    ChosenByRank(first, targetTime, 1, prices, 0);
    var w := PricedGrid(first, targetTime, prices);
    assert prices[1..][0] == prices[1] && PriceAt(prices[1..], w[1].start) == Priced(0.0);
    assert PriceAt(prices, w[1].start) == Priced(0.0) && PriceAt(prices, w[0].start) == Priced(1.0);
    assert Before(w[1], w[0]) && w[1..][0] == w[1];
    assert Rank(w[1..], w[0]) >= 1;
  }

  /** Targets on a quarter hour are always met exactly, and no others are. */
  lemma OnTimeIffAligned(targetTime: int, rateKW: real)
    requires rateKW > 0.0
    ensures AlwaysOnTime(targetTime, rateKW) <==> targetTime % SLOT_MS == 0
  {
    if targetTime % SLOT_MS == 0 {
      QuarterIs(targetTime, targetTime / SLOT_MS);
      forall requiredKWh: real, ticks: seq<Tick> ensures !LateRun(requiredKWh, ticks, targetTime, rateKW) {
        if LateRun(requiredKWh, ticks, targetTime, rateKW) {
          DoneByTheQuarter(requiredKWh, ticks, targetTime, rateKW);
        }
      }
    } else {
      UnalignedTargetCanBeMissed(targetTime, rateKW);
    }
  }
}
