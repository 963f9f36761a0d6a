/** The price ladder of src/core/smart-charging/price.ts and its synthetic hourly curves. */
module PriceCurve {
  import opened Prelude
  import opened Planner

  datatype PriceRung = LiveTariff | HistoricalAvg | StaticNight
  datatype NightWindow = NightWindow(startHour: int, endHour: int)

  function LocalHour(t: int): int {
    (t / HOUR_MS) % 24
  }

  predicate IsNight(t: int, window: NightWindow) {
    var h := LocalHour(t);
    if window.startHour <= window.endHour then window.startHour <= h < window.endHour
    else window.startHour <= h || h < window.endHour
  }

  function HourStart(t: int): int {
    t / HOUR_MS * HOUR_MS
  }

  /** The hours from the one running at `now` to the last that starts before `to`. */
  function HourCount(now: int, to: int): nat {
    if HourStart(now) < to then (to - HourStart(now) - 1) / HOUR_MS + 1 else 0
  }

  function HourlyCurve(now: int, to: int, priceAt: int -> real): seq<TariffSlot> {
    seq(HourCount(now, to), i =>
      var start := HourStart(now) + i * HOUR_MS;
      TariffSlot(start, start + HOUR_MS, priceAt(start)))
  }

  /** The loop of `buildHourlyCurve`. */
  method BuildHourlyCurve(now: int, to: int, priceAt: int -> real) returns (slots: seq<TariffSlot>)
    ensures slots == HourlyCurve(now, to, priceAt)
  {
    slots := [];
    var cursor := now - now % HOUR_MS;
    while cursor < to
      invariant cursor == HourStart(now) + |slots| * HOUR_MS
      invariant |slots| <= HourCount(now, to)
      invariant slots == HourlyCurve(now, to, priceAt)[..|slots|]
    {
      var end := cursor + HOUR_MS;
      slots := slots + [TariffSlot(cursor, end, priceAt(cursor))];
      cursor := end;
    }
  }

  function ResolvePriceCurve(livePrices: Option<seq<TariffSlot>>, historicalAvgByHour: Option<map<int, real>>,
                             now: int, targetTime: int, window: NightWindow, nightPrice: real, dayPrice: real)
    : (seq<TariffSlot>, PriceRung)
  {
    if livePrices.Some? && livePrices.value != [] then (livePrices.value, LiveTariff)
    else if historicalAvgByHour.Some? && historicalAvgByHour.value != map[] then
      var average := historicalAvgByHour.value;
      (HourlyCurve(now, targetTime, t => if LocalHour(t) in average then average[LocalHour(t)] else dayPrice),
       HistoricalAvg)
    else
      (HourlyCurve(now, targetTime, t => if IsNight(t, window) then nightPrice else dayPrice), StaticNight)
  }

  lemma {:induction false} PriceInHours(first: int, n: nat, priceAt: int -> real, t: int, curve: seq<TariffSlot>)
    requires first % HOUR_MS == 0 && first <= t < first + n * HOUR_MS
    requires |curve| == n && forall i :: 0 <= i < n ==>
      curve[i] == TariffSlot(first + i * HOUR_MS, first + (i + 1) * HOUR_MS, priceAt(first + i * HOUR_MS))
    ensures PriceAt(curve, t) == Priced(priceAt(HourStart(t)))
    decreases n
  {
    if t < first + HOUR_MS {
      assert HourStart(t) == first;
    } else {
      PriceInHours(first + HOUR_MS, n - 1, priceAt, t, curve[1..]);
    }
  }

  /** A synthetic curve prices every slot the planner can generate at the price of the slot's hour. */
  lemma SyntheticCurveCoversEverySlot(now: int, to: int, priceAt: int -> real, i: nat)
    requires i < |Grid(now, to)|
    ensures PriceAt(HourlyCurve(now, to, priceAt), Grid(now, to)[i].start)
      == Priced(priceAt(HourStart(Grid(now, to)[i].start)))
  {
    QuarterIs(now, QuarterAt(now));
    QuarterIs(to, QuarterAt(to));
    PriceInHours(HourStart(now), HourCount(now, to), priceAt, Grid(now, to)[i].start, HourlyCurve(now, to, priceAt));
  }

  /** The curve is empty only when there are no live prices and the target is not later than the start of
      the running hour. */
  lemma CurveNonEmptyIff(livePrices: Option<seq<TariffSlot>>, historicalAvgByHour: Option<map<int, real>>,
                         now: int, targetTime: int, window: NightWindow, nightPrice: real, dayPrice: real)
    ensures ResolvePriceCurve(livePrices, historicalAvgByHour, now, targetTime, window, nightPrice, dayPrice).0 != []
      <==> (livePrices.Some? && livePrices.value != []) || HourStart(now) < targetTime
  {
    var curve := ResolvePriceCurve(livePrices, historicalAvgByHour, now, targetTime, window, nightPrice, dayPrice).0;
    if !(livePrices.Some? && livePrices.value != []) {
      assert |curve| == HourCount(now, targetTime);
    }
  }

  /** A target in the future, the only kind the loop plans for, always gets a curve, and with it a price for
      every slot of the grid unless the prices are live ones. */
  lemma FutureTargetIsPriced(livePrices: Option<seq<TariffSlot>>, historicalAvgByHour: Option<map<int, real>>,
                             now: int, targetTime: int, window: NightWindow, nightPrice: real, dayPrice: real)
    requires now < targetTime
    ensures var (curve, rung) :=
        ResolvePriceCurve(livePrices, historicalAvgByHour, now, targetTime, window, nightPrice, dayPrice);
      && curve != []
      && (rung != LiveTariff ==>
            forall i :: 0 <= i < |Grid(now, targetTime)| ==> PriceAt(curve, Grid(now, targetTime)[i].start).Priced?)
  {
    CurveNonEmptyIff(livePrices, historicalAvgByHour, now, targetTime, window, nightPrice, dayPrice);
    var (curve, rung) :=
      ResolvePriceCurve(livePrices, historicalAvgByHour, now, targetTime, window, nightPrice, dayPrice);
    if rung != LiveTariff {
      var priceAt: int -> real := if rung == HistoricalAvg
        then (t => if LocalHour(t) in historicalAvgByHour.value
                   then historicalAvgByHour.value[LocalHour(t)]
                   else dayPrice)
        else (t => if IsNight(t, window) then nightPrice else dayPrice);
      SameCurve(now, targetTime, priceAt, curve);
      forall i | 0 <= i < |Grid(now, targetTime)| ensures PriceAt(curve, Grid(now, targetTime)[i].start).Priced? {
        SyntheticCurveCoversEverySlot(now, targetTime, priceAt, i);
      }
    }
  }

  lemma SameCurve(now: int, to: int, priceAt: int -> real, curve: seq<TariffSlot>)
    requires |curve| == HourCount(now, to)
    requires forall i :: 0 <= i < |curve| ==>
      var start := HourStart(now) + i * HOUR_MS;
      curve[i] == TariffSlot(start, start + HOUR_MS, priceAt(start))
    ensures curve == HourlyCurve(now, to, priceAt)
  {
  }

  // ---------- what the curves charge ----------

  /** The night lasts as many hours as it takes from its first to its last, around midnight if need be. */
  lemma NightIs(t: int, window: NightWindow)
    requires 0 <= window.startHour < 24 && 0 <= window.endHour < 24
    ensures IsNight(t, window)
       <==> (LocalHour(t) - window.startHour) % 24 < (window.endHour - window.startHour) % 24
  {
  }

  /** The hour of day of a time in an hour is that of the hour. */
  lemma HourOfStart(t: int)
    ensures LocalHour(HourStart(t)) == LocalHour(t)
  {
  }

  /** Live prices are used as they come; the rungs below them are taken only without any. */
  lemma RungIs(livePrices: Option<seq<TariffSlot>>, historicalAvgByHour: Option<map<int, real>>, now: int,
               targetTime: int, window: NightWindow, nightPrice: real, dayPrice: real)
    ensures var (curve, rung) :=
        ResolvePriceCurve(livePrices, historicalAvgByHour, now, targetTime, window, nightPrice, dayPrice);
      var live := livePrices.Some? && livePrices.value != [];
      var known := historicalAvgByHour.Some? && historicalAvgByHour.value != map[];
      && (rung == LiveTariff <==> live) && (live ==> curve == livePrices.value)
      && (rung == HistoricalAvg <==> !live && known)
  {
  }

  /** Every slot of the grid has the average of its hour of day, and the day price where there is none; or, without
      averages, the night price at night and the day price by day. */
  lemma SlotPriceIs(historicalAvgByHour: Option<map<int, real>>, now: int, targetTime: int, window: NightWindow,
                    nightPrice: real, dayPrice: real, i: nat)
    requires i < |Grid(now, targetTime)|
    ensures var curve :=
        ResolvePriceCurve(None, historicalAvgByHour, now, targetTime, window, nightPrice, dayPrice).0;
      var start := Grid(now, targetTime)[i].start;
      var average := historicalAvgByHour.GetOr(map[]);
      PriceAt(curve, start) == Priced(
        if average != map[] then (if LocalHour(start) in average then average[LocalHour(start)] else dayPrice)
        else if IsNight(start, window) then nightPrice else dayPrice)
  {
    var start, average := Grid(now, targetTime)[i].start, historicalAvgByHour.GetOr(map[]);
    HourOfStart(start);
    var curve := ResolvePriceCurve(None, historicalAvgByHour, now, targetTime, window, nightPrice, dayPrice).0;
    var priceAt: int -> real := if average != map[]
      then (t => if LocalHour(t) in average then average[LocalHour(t)] else dayPrice)
      else (t => if IsNight(t, window) then nightPrice else dayPrice);
    SameCurve(now, targetTime, priceAt, curve);
    SyntheticCurveCoversEverySlot(now, targetTime, priceAt, i);
  }

  /** So without any price data a plan takes no slot by day before it has taken every slot at night. */
  lemma NightFirst(now: int, targetTime: int, window: NightWindow, nightPrice: real, dayPrice: real, k: nat,
                   i: nat, j: nat)
    requires nightPrice < dayPrice && k <= |Grid(now, targetTime)|
    requires i < |Grid(now, targetTime)| && j < |Grid(now, targetTime)|
    requires IsNight(Grid(now, targetTime)[i].start, window) && !IsNight(Grid(now, targetTime)[j].start, window)
    requires var curve := ResolvePriceCurve(None, None, now, targetTime, window, nightPrice, dayPrice).0;
      CheapestSlotsPlan(Grid(now, targetTime), k, curve)[j].shouldCharge
    ensures var curve := ResolvePriceCurve(None, None, now, targetTime, window, nightPrice, dayPrice).0;
      CheapestSlotsPlan(Grid(now, targetTime), k, curve)[i].shouldCharge
  {
    var curve := ResolvePriceCurve(None, None, now, targetTime, window, nightPrice, dayPrice).0;
    SlotPriceIs(None, now, targetTime, window, nightPrice, dayPrice, i);
    SlotPriceIs(None, now, targetTime, window, nightPrice, dayPrice, j);
    ChosenByRank(now, targetTime, k, curve, i);
    ChosenByRank(now, targetTime, k, curve, j);
    var w := WithPrices(Grid(now, targetTime), curve);
    hide IsNight, ResolvePriceCurve, CheapestSlotsPlan;
    assert Before(w[i], w[j]);
    RanksGrow(w, w[i], w[j]);
  }
}
