/** The planner picks exactly as many slots as it needs, and no selection of that size is cheaper. */
module Selection {
  import opened Prelude
  import opened Planner

  function Mask(plan: seq<PlannedSlot>): seq<bool> {
    seq(|plan|, i requires 0 <= i < |plan| => plan[i].shouldCharge)
  }

  function Count(mask: seq<bool>): nat {
    if mask == [] then 0 else (if mask[0] then 1 else 0) + Count(mask[1..])
  }

  /** The total value of the marked positions. */
  function Total(mask: seq<bool>, value: seq<real>): real
    requires |mask| == |value|
  {
    if mask == [] then 0.0 else (if mask[0] then value[0] else 0.0) + Total(mask[1..], value[1..])
  }

  /** What each slot costs when a slot without a price is billed at `ceiling`. */
  function Bill(slots: seq<PricedSlot>, ceiling: real): seq<real> {
    seq(|slots|, i requires 0 <= i < |slots| =>
      if slots[i].price.Priced? then slots[i].price.perKWh else ceiling)
  }

  function PricedGrid(from: int, to: int, prices: seq<TariffSlot>): seq<PricedSlot> {
    WithPrices(Grid(from, to), prices)
  }

  function CheapestMask(from: int, to: int, k: nat, prices: seq<TariffSlot>): seq<bool> {
    Mask(CheapestSlotsPlan(Grid(from, to), k, prices))
  }

  lemma {:induction false} CountIsCountBelow(mask: seq<bool>, s: seq<PricedSlot>, whole: seq<PricedSlot>, k: int)
    requires |mask| == |s|
    requires forall i :: 0 <= i < |s| ==> (mask[i] <==> Rank(whole, s[i]) < k)
    ensures Count(mask) == CountBelow(s, whole, k)
  {
    if s != [] {
      CountIsCountBelow(mask[1..], s[1..], whole, k);
    }
  }

  lemma {:induction false} CountFromPosition(s: seq<PricedSlot>, whole: seq<PricedSlot>, k: nat, offset: nat)
    requires forall p :: 0 <= p < |s| ==> Rank(whole, s[p]) == offset + p
    ensures CountBelow(s, whole, k) ==
      if k <= offset then 0 else if k <= offset + |s| then k - offset else |s|
  {
    if s != [] {
      CountFromPosition(s[1..], whole, k, offset + 1);
    }
  }

  /** Exactly the needed number of slots is marked. */
  lemma MarksExactlyNeeded(from: int, to: int, k: nat, prices: seq<TariffSlot>)
    requires k <= |Grid(from, to)|
    ensures Count(CheapestMask(from, to, k, prices)) == k
  {
    var w := PricedGrid(from, to, prices);
    var mask := CheapestMask(from, to, k, prices);
    forall i | 0 <= i < |w| ensures mask[i] <==> Rank(w, w[i]) < k {
      ChosenByRank(from, to, k, prices, i);
    }
    CountIsCountBelow(mask, w, w, k);
    var sorted := StableSort(w);
    SortOrders(w);
    assert |multiset(sorted)| == |multiset(w)|;
    forall p | 0 <= p < |sorted| ensures Rank(w, sorted[p]) == p {
      SortCounts(w, sorted[p], w, k);
      RankWhenOrdered(sorted, p);
    }
    CountFromPosition(sorted, w, k, 0);
    SortCounts(w, PricedSlot(0, 0, Unpriced), w, k);
  }

  /** `theta` added up once for every marked position. */
  function Levy(mask: seq<bool>, theta: real): real {
    if mask == [] then 0.0 else (if mask[0] then theta else 0.0) + Levy(mask[1..], theta)
  }

  function Times(theta: real, n: nat): real {
    if n == 0 then 0.0 else theta + Times(theta, n - 1)
  }

  lemma {:induction false} LevyByCount(mask: seq<bool>, theta: real)
    ensures Levy(mask, theta) == Times(theta, Count(mask))
  {
    if mask != [] {
      LevyByCount(mask[1..], theta);
    }
  }

  /** Marked positions worth at most `theta`, the others at least: after a levy of `theta` on every mark,
      no other choice totals less. */
  lemma {:induction false} ThresholdIsOptimal(best: seq<bool>, other: seq<bool>, value: seq<real>, theta: real)
    requires |best| == |other| == |value|
    requires forall i :: 0 <= i < |best| ==> if best[i] then value[i] <= theta else theta <= value[i]
    ensures Total(best, value) - Levy(best, theta) <= Total(other, value) - Levy(other, theta)
  {
    if best != [] {
      assert if best[0] then value[0] <= theta else theta <= value[0];
      ThresholdIsOptimal(best[1..], other[1..], value[1..], theta);
    }
  }

  /** The price of the last chosen slot separates the chosen slots from the others. */
  lemma ChosenSeparated(from: int, to: int, k: nat, prices: seq<TariffSlot>, ceiling: real) returns (theta: real)
    requires 0 < k <= |Grid(from, to)|
    requires forall x :: x in PricedGrid(from, to, prices) && x.price.Priced? ==> x.price.perKWh <= ceiling
    ensures var mask, bill := CheapestMask(from, to, k, prices), Bill(PricedGrid(from, to, prices), ceiling);
      forall i :: 0 <= i < |mask| ==> if mask[i] then bill[i] <= theta else theta <= bill[i]
  {
    var w := PricedGrid(from, to, prices);
    var sorted := StableSort(w);
    SortOrders(w);
    assert |multiset(sorted)| == |multiset(w)|;
    var last := sorted[k - 1];
    assert last in multiset(sorted) && last in multiset(w) && last in w;
    theta := if last.price.Priced? then last.price.perKWh else ceiling;
    forall i | 0 <= i < |w|
      ensures if CheapestMask(from, to, k, prices)[i]
              then Bill(w, ceiling)[i] <= theta
              else theta <= Bill(w, ceiling)[i]
    {
      ChosenByRank(from, to, k, prices, i);
      assert w[i] in w && w[i] in multiset(w) && w[i] in multiset(sorted);
      var p :| 0 <= p < |sorted| && sorted[p] == w[i];
      SortCounts(w, w[i], w, k);
      RankWhenOrdered(sorted, p);
      if p < k - 1 {
        assert Before(sorted[p], last);
      } else if p > k - 1 {
        assert Before(last, sorted[p]);
      }
    }
  }

  /** No choice of equally many slots has a smaller bill, whatever slots without a price are billed at,
      as long as it is not less than a known price. */
  lemma CheapestIsCheapest(from: int, to: int, k: nat, prices: seq<TariffSlot>, other: seq<bool>, ceiling: real)
    requires k <= |Grid(from, to)| == |other| && Count(other) == k
    requires forall x :: x in PricedGrid(from, to, prices) && x.price.Priced? ==> x.price.perKWh <= ceiling
    ensures var bill := Bill(PricedGrid(from, to, prices), ceiling);
      Total(CheapestMask(from, to, k, prices), bill) <= Total(other, bill)
  {
    var mask, bill := CheapestMask(from, to, k, prices), Bill(PricedGrid(from, to, prices), ceiling);
    MarksExactlyNeeded(from, to, k, prices);
    if 0 < k {
      var theta := ChosenSeparated(from, to, k, prices, ceiling);
      ThresholdIsOptimal(mask, other, bill, theta);
      LevyByCount(mask, theta);
      LevyByCount(other, theta);
    } else {
      NothingMarked(mask, bill);
      NothingMarked(other, bill);
    }
  }

  lemma {:induction false} NothingMarked(mask: seq<bool>, value: seq<real>)
    requires |mask| == |value| && Count(mask) == 0
    ensures Total(mask, value) == 0.0
    ensures forall i :: 0 <= i < |mask| ==> !mask[i]
  {
    if mask != [] {
      NothingMarked(mask[1..], value[1..]);
    }
  }

  lemma {:induction false} EverythingMarked(mask: seq<bool>)
    requires forall i :: 0 <= i < |mask| ==> mask[i]
    ensures Count(mask) == |mask|
  {
    if mask != [] {
      EverythingMarked(mask[1..]);
    }
  }

  // ---------- how many slots are needed ----------

  /** With a positive rate, more than `j` slots are needed exactly when `j` slots deliver too little. */
  lemma NeedsMoreThan(requiredKWh: real, rateKW: real, j: int)
    requires rateKW > 0.0
    ensures Ceil(requiredKWh / rateKW * 4.0) > j <==> requiredKWh > rateKW * j as real / 4.0
  {
    var quotient := requiredKWh / rateKW;
    assert requiredKWh == quotient * rateKW;
    if quotient * 4.0 > j as real {
      assert (quotient * 4.0 - j as real) * rateKW > 0.0;
    } else {
      assert (j as real - quotient * 4.0) * rateKW >= 0.0;
    }
  }

  lemma NeededRange(requiredKWh: real, rateKW: real, available: nat)
    requires rateKW >= 0.0 && requiredKWh >= 0.0
    ensures 0 <= SlotsNeeded(requiredKWh, rateKW, available) <= available
    ensures requiredKWh > 0.0 && available > 0 ==> SlotsNeeded(requiredKWh, rateKW, available) > 0
  {
    if rateKW > 0.0 {
      NeedsMoreThan(requiredKWh, rateKW, 0);
      NeedsMoreThan(requiredKWh, rateKW, -1);
    }
  }

  lemma {:induction false} RankBelowAll(from: int, to: int, prices: seq<TariffSlot>, i: nat)
    requires i < |Grid(from, to)|
    ensures Rank(PricedGrid(from, to, prices), PricedGrid(from, to, prices)[i]) < |Grid(from, to)|
  {
    RankBound(PricedGrid(from, to, prices), PricedGrid(from, to, prices)[i]);
  }

  lemma LowerRate(amps: real, lowerAmps: real, phases: int)
    requires 0.0 <= lowerAmps <= amps && phases >= 0
    ensures 0.0 <= ChargeRateKW(lowerAmps, phases) <= ChargeRateKW(amps, phases)
  {
    assert lowerAmps * phases as real <= amps * phases as real;
    assert 0.0 <= lowerAmps * phases as real;
  }

  /** A lower rate needs no fewer slots. */
  lemma SlowerNeedsMore(requiredKWh: real, rate: real, lower: real, n: nat)
    requires 0.0 <= lower <= rate && requiredKWh >= 0.0
    ensures SlotsNeeded(requiredKWh, rate, n) <= SlotsNeeded(requiredKWh, lower, n)
  {
    NeededRange(requiredKWh, rate, n);
    if lower > 0.0 {
      var j := Ceil(requiredKWh / lower * 4.0);
      NeedsMoreThan(requiredKWh, lower, j);
      assert j >= 0 by { NeedsMoreThan(requiredKWh, lower, -1); }
      assert lower * j as real <= rate * j as real;
      NeedsMoreThan(requiredKWh, rate, j);
    }
  }

  /** Planning at a lower rate keeps every slot and adds more: a conservative rate finishes early. */
  lemma PlansNest(requiredKWh: real, targetTime: int, amps: real, lowerAmps: real, phases: int,
                  prices: seq<TariffSlot>, now: int, i: nat)
    requires 0.0 <= lowerAmps <= amps && phases >= 0 && requiredKWh >= 0.0
    requires i < |Grid(now, targetTime)|
    requires Plan(requiredKWh, targetTime, amps, phases, prices, now)[i].shouldCharge
    ensures Plan(requiredKWh, targetTime, lowerAmps, phases, prices, now)[i].shouldCharge
  {
    hide SlotsNeeded, ChargeRateKW;
    var n := |Grid(now, targetTime)|;
    var rate, lower := ChargeRateKW(amps, phases), ChargeRateKW(lowerAmps, phases);
    LowerRate(amps, lowerAmps, phases);
    var k, more := SlotsNeeded(requiredKWh, rate, n), SlotsNeeded(requiredKWh, lower, n);
    NeededRange(requiredKWh, rate, n);
    NeededRange(requiredKWh, lower, n);
    SlowerNeedsMore(requiredKWh, rate, lower, n);
    if prices != [] {
      ChosenByRank(now, targetTime, k, prices, i);
      ChosenByRank(now, targetTime, more, prices, i);
    }
  }

  // ---------- what a plan delivers ----------

  /** What `phases` conductors carry at 230 V each. */
  function Watts(amps: real, phases: nat): real {
    if phases == 0 then 0.0 else Watts(amps, phases - 1) + 230.0 * amps
  }

  lemma {:induction false} ChargeRateIsPower(amps: real, phases: nat)
    ensures ChargeRateKW(amps, phases) * 1000.0 == Watts(amps, phases)
  {
    assert ChargeRateKW(amps, phases) * 1000.0 == amps * phases as real * 230.0;
    if phases > 0 {
      var fewer := amps * (phases - 1) as real;
      ChargeRateIsPower(amps, phases - 1);
      assert ChargeRateKW(amps, phases - 1) * 1000.0 == fewer * 230.0;
      assert amps * phases as real == fewer + amps;
    }
  }

  /** The last `k` positions. */
  function Tail(n: nat, k: nat): seq<bool> {
    seq(n, i => i >= n - k)
  }

  lemma {:induction false} TailCount(n: nat, k: nat)
    requires k <= n
    ensures Count(Tail(n, k)) == k
  {
    if k == n {
      EverythingMarked(Tail(n, k));
    } else {
      assert Tail(n, k)[1..] == Tail(n - 1, k);
      TailCount(n - 1, k);
    }
  }

  /** Any choice of `k` positions begins no later than the last `k`. */
  lemma {:induction false} BeginsNoLater(mask: seq<bool>)
    requires Count(mask) > 0
    ensures exists i :: 0 <= i <= |mask| - Count(mask) && mask[i]
  {
    if !mask[0] {
      BeginsNoLater(mask[1..]);
      var i :| 0 <= i <= |mask[1..]| - Count(mask[1..]) && mask[1..][i];
      assert mask[i + 1];
    } else {
      CountBound(mask);
    }
  }

  lemma {:induction false} CountBound(mask: seq<bool>)
    ensures Count(mask) <= |mask|
  {
    if mask != [] {
      CountBound(mask[1..]);
    }
  }

  /** Without prices the plan charges as late as it can: no other choice of as many slots begins later. */
  lemma WithoutPricesAsLateAsPossible(requiredKWh: real, targetTime: int, amps: real, phases: int, now: int,
                                      other: seq<bool>)
    requires requiredKWh >= 0.0 && amps >= 0.0 && phases >= 0
    requires |other| == |Grid(now, targetTime)|
    requires Count(other) == Count(Mask(Plan(requiredKWh, targetTime, amps, phases, [], now))) > 0
    ensures var mask := Mask(Plan(requiredKWh, targetTime, amps, phases, [], now));
      && (forall i, j :: 0 <= i < j < |mask| && mask[i] ==> mask[j])
      && exists i :: 0 <= i < |other| && other[i] && forall j :: 0 <= j < |mask| && mask[j] ==> i <= j
  {
    var n := |Grid(now, targetTime)|;
    var k := SlotsNeeded(requiredKWh, ChargeRateKW(amps, phases), n);
    LowerRate(amps, 0.0, phases);
    LowerRate(amps, amps, phases);
    assert ChargeRateKW(0.0, phases) == 0.0;
    NeededRange(requiredKWh, ChargeRateKW(amps, phases), n);
    var mask := Mask(Plan(requiredKWh, targetTime, amps, phases, [], now));
    hide SlotsNeeded, ChargeRateKW;
    assert mask == Tail(n, k);
    TailCount(n, k);
    BeginsNoLater(other);
  }

  lemma PositiveRate(amps: real, phases: int)
    requires amps > 0.0 && phases > 0
    ensures ChargeRateKW(amps, phases) > 0.0
  {
    assert amps * phases as real > 0.0;
  }

  lemma JustEnough(requiredKWh: real, rateKW: real, n: nat)
    requires rateKW > 0.0
    ensures var k := SlotsNeeded(requiredKWh, rateKW, n);
      (k == n || requiredKWh <= rateKW * k as real / 4.0) && requiredKWh > rateKW * (k - 1) as real / 4.0
  {
    var k := SlotsNeeded(requiredKWh, rateKW, n);
    NeedsMoreThan(requiredKWh, rateKW, k);
    NeedsMoreThan(requiredKWh, rateKW, k - 1);
  }

  /**
   * A plan marks just enough slots: what they deliver at the planned rate
   * covers what is required, unless all of them do not, and one fewer would not.
   */
  lemma PlanDeliversJustEnough(requiredKWh: real, targetTime: int, amps: real, phases: int, prices: seq<TariffSlot>,
                               now: int)
    requires requiredKWh > 0.0 && amps > 0.0 && phases > 0
    ensures var plan, rate := Plan(requiredKWh, targetTime, amps, phases, prices, now), ChargeRateKW(amps, phases);
      var count := Count(Mask(plan));
      && |plan| == |Grid(now, targetTime)|
      && (forall i :: 0 <= i < |plan| ==> plan[i].start == Grid(now, targetTime)[i].start)
      && (count == |plan| || requiredKWh <= rate * count as real / 4.0)
      && (count > 0 ==> requiredKWh > rate * (count - 1) as real / 4.0)
      && (plan != [] ==> count > 0)
  {
    hide SlotsNeeded, ChargeRateKW, StableSort, WithPrices;
    var n, rate := |Grid(now, targetTime)|, ChargeRateKW(amps, phases);
    var k := SlotsNeeded(requiredKWh, rate, n);
    PositiveRate(amps, phases);
    NeededRange(requiredKWh, rate, n);
    JustEnough(requiredKWh, rate, n);
    var plan := Plan(requiredKWh, targetTime, amps, phases, prices, now);
    if prices == [] {
      assert Mask(plan) == Tail(n, k);
      TailCount(n, k);
    } else {
      MarksExactlyNeeded(now, targetTime, k, prices);
      assert Mask(plan) == CheapestMask(now, targetTime, k, prices);
    }
  }
}
