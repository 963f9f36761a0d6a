/**
  Re-planning is time-consistent: with prices fixed per slot, ticks on slot boundaries and a slot's
  energy delivered whenever a slot is charged, the closed loop realises the very first plan.
 */
module Replanning {
  import opened Prelude
  import opened Planner
  import opened Selection
  import opened Decide

  /** What stays fixed over a run; `prices` is the list each tick, named by its quarter, is given. */
  datatype Setting = Setting(targetTime: int, planRateA: real, phases: int, prices: int -> seq<TariffSlot>) {
    function RateKW(): real {
      ChargeRateKW(planRateA, phases)
    }
  }

  function Decision(s: Setting, requiredKWh: real, quarter: int): bool {
    var decision :=
      DecideShouldCharge(requiredKWh, quarter * SLOT_MS, s.targetTime, s.planRateA, s.phases, s.prices(quarter));
    decision.shouldCharge
  }

  function NextRequired(s: Setting, requiredKWh: real, quarter: int): real {
    if Decision(s, requiredKWh, quarter) then Max(0.0, requiredKWh - s.RateKW() / 4.0) else requiredKWh
  }

  /** The decisions of the closed loop from `quarter` to the target. */
  function ClosedLoop(s: Setting, requiredKWh: real, quarter: int): seq<bool>
    decreases QuarterAt(s.targetTime) - quarter
  {
    if quarter >= QuarterAt(s.targetTime) then []
    else [Decision(s, requiredKWh, quarter)] + ClosedLoop(s, NextRequired(s, requiredKWh, quarter), quarter + 1)
  }

  function FirstPlan(s: Setting, requiredKWh: real, quarter: int): seq<bool> {
    Mask(Plan(requiredKWh, s.targetTime, s.planRateA, s.phases, s.prices(quarter), quarter * SLOT_MS))
  }

  /** Whatever lists the ticks are given, a slot has the same price in all of them that are asked about it. */
  ghost predicate FixedPrices(s: Setting, quarter: int) {
    && (forall a :: quarter <= a ==> s.prices(a) != [])
    && (forall a, b, c :: quarter <= a <= c && quarter <= b <= c < QuarterAt(s.targetTime) ==> SamePrice(s, a, b, c))
  }

  ghost predicate SamePrice(s: Setting, a: int, b: int, c: int) {
    PriceAt(s.prices(a), c * SLOT_MS) == PriceAt(s.prices(b), c * SLOT_MS)
  }

  lemma {:induction false} RankGrows(s: seq<PricedSlot>, x: PricedSlot, y: PricedSlot)
    requires Before(x, y)
    ensures Rank(s, x) + (if x in s then 1 else 0) <= Rank(s, y)
  {
    if s != [] {
      RankGrows(s[1..], x, y);
      if s[0] == x && x in s[1..] {
        RanksGrow(s[1..], x, y);
      }
    }
  }

  /** Dropping the first slot, and one unit of need if it was chosen, changes no other choice. */
  lemma ChoicesOutliveTheFirst(w: seq<PricedSlot>, k: nat, i: nat)
    requires Increasing(w) && 0 < i < |w|
    ensures var first := Rank(w, w[0]) < k;
      Rank(w, w[i]) < k <==> Rank(w[1..], w[i]) < (if first then k - 1 else k)
  {
    if Before(w[0], w[i]) {
      RankGrows(w, w[0], w[i]);
    } else {
      RankGrows(w, w[i], w[0]);
    }
  }

  /** A charged slot lowers the need by exactly one. */
  lemma NeedFallsByOne(requiredKWh: real, rateKW: real, n: nat)
    requires rateKW > 0.0 && requiredKWh > 0.0 && n > 0
    ensures SlotsNeeded(Max(0.0, requiredKWh - rateKW / 4.0), rateKW, n - 1) == SlotsNeeded(requiredKWh, rateKW, n) - 1
  {
    var k := Ceil(requiredKWh / rateKW * 4.0);
    var left := requiredKWh - rateKW / 4.0;
    OneSlotLess(rateKW, k - 1);
    OneSlotLess(rateKW, k);
    NeedsMoreThan(requiredKWh, rateKW, k - 1);
    NeedsMoreThan(requiredKWh, rateKW, k);
    NeedsMoreThan(left, rateKW, k - 2);
    NeedsMoreThan(left, rateKW, k - 1);
    NeedsMoreThan(requiredKWh, rateKW, 0);
    NeedsMoreThan(requiredKWh, rateKW, 1);
  }

  lemma OneSlotLess(rateKW: real, j: int)
    ensures rateKW * (j - 1) as real / 4.0 == rateKW * j as real / 4.0 - rateKW / 4.0
  {
    assert rateKW * (j - 1) as real == rateKW * j as real - rateKW;
  }

  lemma GridAdvances(s: Setting, quarter: int)
    requires quarter < QuarterAt(s.targetTime) && FixedPrices(s, quarter)
    ensures PricedGrid(quarter * SLOT_MS, s.targetTime, s.prices(quarter))[1..]
         == PricedGrid((quarter + 1) * SLOT_MS, s.targetTime, s.prices(quarter + 1))
  {
    QuarterIs(quarter * SLOT_MS, quarter);
    QuarterIs((quarter + 1) * SLOT_MS, quarter + 1);
    var w := PricedGrid(quarter * SLOT_MS, s.targetTime, s.prices(quarter));
    var v := PricedGrid((quarter + 1) * SLOT_MS, s.targetTime, s.prices(quarter + 1));
    assert |v| == |w| - 1;
    forall i | 0 <= i < |v| ensures w[1..][i] == v[i] {
      var c := quarter + 1 + i;
      assert SamePrice(s, quarter, quarter + 1, c);
      assert v[i].start == c * SLOT_MS && w[i + 1].start == c * SLOT_MS;
    }
  }

  /** The first tick decides as its plan says, and the next plan is the rest of this one. */
  lemma PlanAdvances(s: Setting, requiredKWh: real, quarter: int)
    requires s.RateKW() > 0.0 && s.planRateA >= 0.0 && s.phases >= 0 && requiredKWh >= 0.0
    requires quarter < QuarterAt(s.targetTime) && FixedPrices(s, quarter)
    ensures FirstPlan(s, requiredKWh, quarter)
      == [Decision(s, requiredKWh, quarter)] + FirstPlan(s, NextRequired(s, requiredKWh, quarter), quarter + 1)
  {
    hide *;
    var left := NextRequired(s, requiredKWh, quarter);
    var w := Slots(s, quarter);
    LaterGrid(s, quarter);
    PricesGiven(s, quarter);
    FirstDecides(s, requiredKWh, quarter);
    NextIsNonNegative(s, requiredKWh, quarter);
    PlanIsByRank(s, requiredKWh, quarter);
    PlanIsByRank(s, left, quarter + 1);
    var plan, rest := FirstPlan(s, requiredKWh, quarter), FirstPlan(s, left, quarter + 1);
    forall i | 0 < i < |w| ensures plan[i] == rest[i - 1] {
      SlotsIncrease(s, quarter);
      ChoicesOutliveTheFirst(w, Needed(s, requiredKWh, quarter), i);
      assert w[1..][i - 1] == w[i];
    }
    assert plan == [plan[0]] + plan[1..];
    assert plan[1..] == rest;
  }

  function Slots(s: Setting, quarter: int): seq<PricedSlot> {
    PricedGrid(quarter * SLOT_MS, s.targetTime, s.prices(quarter))
  }

  function Needed(s: Setting, requiredKWh: real, quarter: int): nat
    requires s.RateKW() > 0.0 && requiredKWh >= 0.0
  {
    NeededRange(requiredKWh, s.RateKW(), |Slots(s, quarter)|);
    SlotsNeeded(requiredKWh, s.RateKW(), |Slots(s, quarter)|)
  }

  lemma LaterGrid(s: Setting, quarter: int)
    requires quarter < QuarterAt(s.targetTime) && FixedPrices(s, quarter)
    ensures Slots(s, quarter) != [] && Slots(s, quarter)[1..] == Slots(s, quarter + 1)
  {
    GridAdvances(s, quarter);
    QuarterIs(quarter * SLOT_MS, quarter);
  }

  lemma PricesGiven(s: Setting, quarter: int)
    requires FixedPrices(s, quarter)
    ensures s.prices(quarter) != [] && s.prices(quarter + 1) != []
  {
  }

  lemma SlotsIncrease(s: Setting, quarter: int)
    ensures Increasing(Slots(s, quarter))
  {
    QuarterIs(quarter * SLOT_MS, quarter);
  }

  lemma NextIsNonNegative(s: Setting, requiredKWh: real, quarter: int)
    requires requiredKWh >= 0.0
    ensures NextRequired(s, requiredKWh, quarter) >= 0.0
  {
    hide Decision;
  }

  /** The plan marks the slots whose rank is below the need. */
  lemma PlanIsByRank(s: Setting, requiredKWh: real, quarter: int)
    requires s.RateKW() > 0.0 && s.planRateA >= 0.0 && s.phases >= 0 && requiredKWh >= 0.0
    requires s.prices(quarter) != []
    ensures var plan, w := FirstPlan(s, requiredKWh, quarter), Slots(s, quarter);
      |plan| == |w| && forall i :: 0 <= i < |w| ==> plan[i] == (Rank(w, w[i]) < Needed(s, requiredKWh, quarter))
  {
    var now := quarter * SLOT_MS;
    var w := Slots(s, quarter);
    var k := Needed(s, requiredKWh, quarter);
    var plan := FirstPlan(s, requiredKWh, quarter);
    forall i | 0 <= i < |w| ensures plan[i] == (Rank(w, w[i]) < k) {
      ChosenByRank(now, s.targetTime, k, s.prices(quarter), i);
    }
  }

  /** The tick charges exactly if the first slot is chosen, and then one slot less is needed. */
  lemma FirstDecides(s: Setting, requiredKWh: real, quarter: int)
    requires s.RateKW() > 0.0 && s.planRateA >= 0.0 && s.phases >= 0 && requiredKWh >= 0.0
    requires quarter < QuarterAt(s.targetTime) && FixedPrices(s, quarter)
    ensures var w, k := Slots(s, quarter), Needed(s, requiredKWh, quarter);
      && Decision(s, requiredKWh, quarter) == (Rank(w, w[0]) < k)
      && Needed(s, NextRequired(s, requiredKWh, quarter), quarter + 1) == if Rank(w, w[0]) < k then k - 1 else k
  {
    hide Rank, SlotsNeeded, Plan, PricedGrid, DecideShouldCharge;
    var w, n := Slots(s, quarter), |Slots(s, quarter)|;
    LaterGrid(s, quarter);
    PlanIsByRank(s, requiredKWh, quarter);
    FirstRank(s, quarter);
    DecisionIsPlanned(s, requiredKWh, quarter);
    NeededRange(requiredKWh, s.RateKW(), n);
    if Rank(w, w[0]) < Needed(s, requiredKWh, quarter) {
      NothingNeeded(requiredKWh, s.RateKW(), n);
      NeedFallsByOne(requiredKWh, s.RateKW(), n);
    } else {
      FewerAvailable(requiredKWh, s.RateKW(), n);
    }
  }

  lemma FirstRank(s: Setting, quarter: int)
    requires Slots(s, quarter) != []
    ensures Rank(Slots(s, quarter), Slots(s, quarter)[0]) < |Slots(s, quarter)|
  {
    RankBelowAll(quarter * SLOT_MS, s.targetTime, s.prices(quarter), 0);
  }

  lemma DecisionIsPlanned(s: Setting, requiredKWh: real, quarter: int)
    requires s.RateKW() > 0.0 && s.planRateA >= 0.0 && s.phases >= 0 && requiredKWh >= 0.0
    requires quarter < QuarterAt(s.targetTime) && FixedPrices(s, quarter)
    ensures FirstPlan(s, requiredKWh, quarter) != []
    ensures Decision(s, requiredKWh, quarter) == FirstPlan(s, requiredKWh, quarter)[0]
  {
    hide Rank, SlotsNeeded, PricedGrid;
    LaterGrid(s, quarter);
    PlanIsByRank(s, requiredKWh, quarter);
    if requiredKWh > 0.0 {
      DecisionIsFirstSlot(requiredKWh, quarter * SLOT_MS, s.targetTime, s.planRateA, s.phases, s.prices(quarter));
    } else {
      NothingNeeded(requiredKWh, s.RateKW(), |Slots(s, quarter)|);
    }
  }

  lemma NothingNeeded(requiredKWh: real, rateKW: real, n: nat)
    requires rateKW > 0.0 && requiredKWh >= 0.0
    ensures requiredKWh == 0.0 ==> SlotsNeeded(requiredKWh, rateKW, n) == 0
  {
    NeedsMoreThan(requiredKWh, rateKW, 0);
    NeededRange(requiredKWh, rateKW, n);
  }

  lemma FewerAvailable(requiredKWh: real, rateKW: real, n: nat)
    requires rateKW > 0.0 && requiredKWh >= 0.0 && SlotsNeeded(requiredKWh, rateKW, n) < n
    ensures SlotsNeeded(requiredKWh, rateKW, n - 1) == SlotsNeeded(requiredKWh, rateKW, n)
  {
  }

  lemma NoPlanAtTheTarget(s: Setting, requiredKWh: real, quarter: int)
    requires QuarterAt(s.targetTime) <= quarter
    ensures FirstPlan(s, requiredKWh, quarter) == []
  {
    QuarterIs(quarter * SLOT_MS, quarter);
    assert |Grid(quarter * SLOT_MS, s.targetTime)| == 0;
  }

  lemma LaterPricesFixed(s: Setting, quarter: int)
    requires FixedPrices(s, quarter)
    ensures FixedPrices(s, quarter + 1)
  {
  }

  lemma LoopUnfolds(s: Setting, requiredKWh: real, quarter: int)
    requires quarter < QuarterAt(s.targetTime) && requiredKWh >= 0.0
    ensures ClosedLoop(s, requiredKWh, quarter)
      == [Decision(s, requiredKWh, quarter)] + ClosedLoop(s, NextRequired(s, requiredKWh, quarter), quarter + 1)
    ensures NextRequired(s, requiredKWh, quarter) >= 0.0
  {
  }

  /** The closed loop charges exactly the slots of the first plan. */
  lemma {:induction false} ClosedLoopRealisesFirstPlan(s: Setting, requiredKWh: real, quarter: int)
    requires s.RateKW() > 0.0 && s.planRateA >= 0.0 && s.phases >= 0 && requiredKWh >= 0.0
    requires FixedPrices(s, quarter)
    ensures ClosedLoop(s, requiredKWh, quarter) == FirstPlan(s, requiredKWh, quarter)
    decreases QuarterAt(s.targetTime) - quarter
  {
    hide *;
    if quarter < QuarterAt(s.targetTime) {
      PlanAdvances(s, requiredKWh, quarter);
      LaterPricesFixed(s, quarter);
      LoopUnfolds(s, requiredKWh, quarter);
      ClosedLoopRealisesFirstPlan(s, NextRequired(s, requiredKWh, quarter), quarter + 1);
    } else {
      NoPlanAtTheTarget(s, requiredKWh, quarter);
      NoLoopAtTheTarget(s, requiredKWh, quarter);
    }
  }

  lemma NoLoopAtTheTarget(s: Setting, requiredKWh: real, quarter: int)
    requires QuarterAt(s.targetTime) <= quarter
    ensures ClosedLoop(s, requiredKWh, quarter) == []
  {
  }

  /** So re-planning every quarter costs no more than any schedule of equally many slots, even one made
      with hindsight. */
  lemma ClosedLoopIsCheapest(s: Setting, requiredKWh: real, quarter: int, other: seq<bool>, ceiling: real)
    requires s.RateKW() > 0.0 && s.planRateA >= 0.0 && s.phases >= 0 && requiredKWh >= 0.0
    requires FixedPrices(s, quarter)
    requires var w := PricedGrid(quarter * SLOT_MS, s.targetTime, s.prices(quarter));
      |other| == |w| && Count(other) == Count(ClosedLoop(s, requiredKWh, quarter))
      && forall x :: x in w && x.price.Priced? ==> x.price.perKWh <= ceiling
    ensures var loop, bill := ClosedLoop(s, requiredKWh, quarter),
        Bill(PricedGrid(quarter * SLOT_MS, s.targetTime, s.prices(quarter)), ceiling);
      |loop| == |bill| && Total(loop, bill) <= Total(other, bill)
  {
    ClosedLoopRealisesFirstPlan(s, requiredKWh, quarter);
    var now := quarter * SLOT_MS;
    var n := |Grid(now, s.targetTime)|;
    var k := SlotsNeeded(requiredKWh, s.RateKW(), n);
    NeededRange(requiredKWh, s.RateKW(), n);
    MarksExactlyNeeded(now, s.targetTime, k, s.prices(quarter));
    CheapestIsCheapest(now, s.targetTime, k, s.prices(quarter), other, ceiling);
  }
}
