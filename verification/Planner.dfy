/**
  The 15-minute planner of src/core/planner.ts.

  Times are integer milliseconds on a clock whose hours and quarters fall on multiples of their length
  (fixed-offset local time). Prices, energies and currents are exact reals.
 */
module Planner {
  import opened Prelude

  const MINUTE_MS := 60_000
  const SLOT_MS := 900_000
  const HOUR_MS := 3_600_000

  datatype Slot = Slot(start: int, end: int)
  datatype TariffSlot = TariffSlot(start: int, end: int, pricePerKWh: real)
  datatype PlannedSlot = PlannedSlot(start: int, end: int, shouldCharge: bool)

  /** The price of a slot; a slot no tariff entry covers is dearer than every priced one. */
  datatype Price = Priced(perKWh: real) | Unpriced
  datatype PricedSlot = PricedSlot(start: int, end: int, price: Price)

  // ---------- slot generation ----------

  /** The number of quarter boundaries strictly before `t`, counted from boundary 0. */
  function QuarterAt(t: int): int {
    -((-t) / SLOT_MS)
  }

  /** The first quarter boundary at or after `t`. */
  function QuarterUp(t: int): int {
    QuarterAt(t) * SLOT_MS
  }

  function SlotCount(from: int, to: int): nat {
    if QuarterAt(from) < QuarterAt(to) then QuarterAt(to) - QuarterAt(from) else 0
  }

  /** The slots whose starts are the quarter boundaries in [from, to). */
  function Grid(from: int, to: int): seq<Slot> {
    seq(SlotCount(from, to), i => Slot(QuarterUp(from) + i * SLOT_MS, QuarterUp(from) + (i + 1) * SLOT_MS))
  }

  /** Quarter `q` is the one `t` rounds up to exactly when it is the first at or after `t`. */
  lemma QuarterIs(t: int, q: int)
    ensures QuarterAt(t) == q <==> t <= q * SLOT_MS < t + SLOT_MS
  {
    var d := (-t) / SLOT_MS;
    assert -t == d * SLOT_MS + (-t) % SLOT_MS;
    if t <= q * SLOT_MS < t + SLOT_MS {
      assert (q + d) * SLOT_MS == q * SLOT_MS + d * SLOT_MS;
    }
  }

  /** The loop of `generateSlots`: round the cursor up to a quarter, then push slots until `to`. */
  method GenerateSlots(from: int, to: int) returns (slots: seq<Slot>)
    ensures slots == Grid(from, to)
  {
    var cursor := from;
    var rem := (cursor / MINUTE_MS) % 60 % 15;
    var sub := cursor % MINUTE_MS;
    if rem != 0 || sub > 0 {
      cursor := (cursor / MINUTE_MS + (15 - rem)) * MINUTE_MS;
    }
    RoundingIsUp(from, cursor);
    slots := [];
    while cursor < to
      invariant cursor == QuarterUp(from) + |slots| * SLOT_MS
      invariant forall i :: 0 <= i < |slots| ==>
        slots[i] == Slot(QuarterUp(from) + i * SLOT_MS, QuarterUp(from) + (i + 1) * SLOT_MS)
      invariant |slots| <= SlotCount(from, to)
    {
      QuarterIs(to, QuarterAt(to));
      var start := cursor;
      cursor := cursor + SLOT_MS;
      slots := slots + [Slot(start, cursor)];
    }
    QuarterIs(to, QuarterAt(to));
  }

  lemma RoundingIsUp(from: int, cursor: int)
    requires var rem := (from / MINUTE_MS) % 60 % 15;
      cursor == if rem != 0 || from % MINUTE_MS > 0 then (from / MINUTE_MS + (15 - rem)) * MINUTE_MS else from
    ensures cursor == QuarterUp(from)
  {
    var m := from / MINUTE_MS;
    var rem := m % 60 % 15;
    assert m == 60 * (m / 60) + 15 * (m % 60 / 15) + rem;
    var quarters := 4 * (m / 60) + m % 60 / 15;
    QuarterIs(from, if rem != 0 || from % MINUTE_MS > 0 then quarters + 1 else quarters);
  }

  /** A boundary starts a slot exactly when it is a quarter boundary inside [from, to). */
  lemma SlotsAreTheQuarters(from: int, to: int, t: int)
    ensures (exists i :: 0 <= i < |Grid(from, to)| && Grid(from, to)[i].start == t)
      <==> t % SLOT_MS == 0 && from <= t < to
  {
    QuarterIs(from, QuarterAt(from));
    QuarterIs(to, QuarterAt(to));
    if t % SLOT_MS == 0 && from <= t < to {
      var i := t / SLOT_MS - QuarterAt(from);
      assert Grid(from, to)[i].start == t;
    }
  }

  // ---------- prices and the stable sort ----------

  function PriceAt(prices: seq<TariffSlot>, t: int): Price {
    if prices == [] then Unpriced
    else if prices[0].start <= t && prices[0].end > t then Priced(prices[0].pricePerKWh)
    else PriceAt(prices[1..], t)
  }

  function WithPrices(slots: seq<Slot>, prices: seq<TariffSlot>): seq<PricedSlot> {
    seq(|slots|, i requires 0 <= i < |slots| =>
      PricedSlot(slots[i].start, slots[i].end, PriceAt(prices, slots[i].start)))
  }

  predicate AtMost(p: Price, q: Price) {
    q.Unpriced? || (p.Priced? && p.perKWh <= q.perKWh)
  }

  /** Cheaper, or equally cheap and earlier. */
  predicate Before(x: PricedSlot, y: PricedSlot) {
    AtMost(x.price, y.price) && (AtMost(y.price, x.price) ==> x.start < y.start)
  }

  function Insert(x: PricedSlot, s: seq<PricedSlot>): seq<PricedSlot> {
    if s == [] then [x]
    else if AtMost(x.price, s[0].price) then [x] + s
    else [s[0]] + Insert(x, s[1..])
  }

  /** The stable sort by price. */
  function StableSort(s: seq<PricedSlot>): seq<PricedSlot> {
    if s == [] then [] else Insert(s[0], StableSort(s[1..]))
  }

  // ---------- plan selection ----------

  function ChargeRateKW(maxCurrentA: real, phases: int): real {
    maxCurrentA * phases as real * 230.0 / 1000.0
  }

  /** `Math.min(Math.ceil(requiredKWh / rateKW * 4), available)`, with the selection an infinite or
      undefined quotient leads to: every slot at rate 0, none when nothing is required either. */
  function SlotsNeeded(requiredKWh: real, rateKW: real, available: nat): int {
    if rateKW == 0.0 then (if requiredKWh > 0.0 then available else 0)
    else if Ceil(requiredKWh / rateKW * 4.0) <= available then Ceil(requiredKWh / rateKW * 4.0) else available
  }

  /** `slice(0, k)`: a negative bound counts from the end. */
  function SliceTo<T>(s: seq<T>, k: int): seq<T> {
    if k > |s| then s else if k >= 0 then s[..k] else if |s| + k >= 0 then s[..|s| + k] else []
  }

  function LatestStartPlan(slots: seq<Slot>, needed: int): seq<PlannedSlot> {
    seq(|slots|, i requires 0 <= i < |slots| =>
      PlannedSlot(slots[i].start, slots[i].end, i >= |slots| - needed))
  }

  function CheapestSlotsPlan(slots: seq<Slot>, needed: int, prices: seq<TariffSlot>): seq<PlannedSlot> {
    var withPrices := WithPrices(slots, prices);
    var cheapest := SliceTo(StableSort(withPrices), needed);
    var cheapestStarts := set s | s in cheapest :: s.start;
    seq(|slots|, i requires 0 <= i < |slots| =>
      PlannedSlot(slots[i].start, slots[i].end, slots[i].start in cheapestStarts))
  }

  function Plan(requiredKWh: real, targetTime: int, maxCurrentA: real, phases: int,
                prices: seq<TariffSlot>, now: int): seq<PlannedSlot>
  {
    var slots := Grid(now, targetTime);
    var needed := SlotsNeeded(requiredKWh, ChargeRateKW(maxCurrentA, phases), |slots|);
    if prices == [] then LatestStartPlan(slots, needed) else CheapestSlotsPlan(slots, needed, prices)
  }

  // ---------- what the selection means ----------

  /** How many elements of `s` come before `x`. */
  function Rank(s: seq<PricedSlot>, x: PricedSlot): nat {
    if s == [] then 0 else (if Before(s[0], x) then 1 else 0) + Rank(s[1..], x)
  }

  /** How many elements of `s` have rank below `k` in `whole`. */
  function CountBelow(s: seq<PricedSlot>, whole: seq<PricedSlot>, k: int): nat {
    if s == [] then 0 else (if Rank(whole, s[0]) < k then 1 else 0) + CountBelow(s[1..], whole, k)
  }

  ghost predicate Increasing(s: seq<PricedSlot>) {
    forall i, j :: 0 <= i < j < |s| ==> s[i].start < s[j].start
  }

  ghost predicate Ordered(s: seq<PricedSlot>) {
    forall i, j :: 0 <= i < j < |s| ==> Before(s[i], s[j])
  }

  lemma {:induction false} InsertPermutes(x: PricedSlot, s: seq<PricedSlot>)
    ensures multiset(Insert(x, s)) == multiset([x] + s)
  {
    if s != [] && !AtMost(x.price, s[0].price) {
      InsertPermutes(x, s[1..]);
      assert s == [s[0]] + s[1..];
    }
  }

  lemma {:induction false} InsertOrders(x: PricedSlot, s: seq<PricedSlot>)
    requires Ordered(s) && forall y :: y in s ==> x.start < y.start
    ensures Ordered(Insert(x, s))
  {
    if s == [] {
    } else if AtMost(x.price, s[0].price) {
      forall j | 0 <= j < |s| ensures Before(x, s[j]) {
        assert s[j] in s && AtMost(s[0].price, s[j].price);
      }
    } else {
      InsertOrders(x, s[1..]);
      InsertPermutes(x, s[1..]);
      var t := Insert(x, s[1..]);
      forall j | 0 <= j < |t| ensures Before(s[0], t[j]) {
        assert t[j] in multiset([x] + s[1..]);
        assert t[j] == x || t[j] in s[1..];
      }
    }
  }

  lemma {:induction false} InsertCounts(x: PricedSlot, s: seq<PricedSlot>, y: PricedSlot, whole: seq<PricedSlot>,
                                        k: int)
    ensures Rank(Insert(x, s), y) == (if Before(x, y) then 1 else 0) + Rank(s, y)
    ensures CountBelow(Insert(x, s), whole, k) == (if Rank(whole, x) < k then 1 else 0) + CountBelow(s, whole, k)
  {
    if s != [] && !AtMost(x.price, s[0].price) {
      InsertCounts(x, s[1..], y, whole, k);
      assert ([s[0]] + Insert(x, s[1..]))[1..] == Insert(x, s[1..]);
    } else {
      assert ([x] + s)[1..] == s;
    }
  }

  lemma {:induction false} SortOrders(s: seq<PricedSlot>)
    requires Increasing(s)
    ensures Ordered(StableSort(s))
    ensures multiset(StableSort(s)) == multiset(s)
  {
    if s != [] {
      SortOrders(s[1..]);
      var t := StableSort(s[1..]);
      forall y | y in t ensures s[0].start < y.start {
        assert y in multiset(t);
        assert y in s[1..];
      }
      InsertOrders(s[0], t);
      InsertPermutes(s[0], t);
      assert s == [s[0]] + s[1..];
    }
  }

  lemma {:induction false} SortCounts(s: seq<PricedSlot>, y: PricedSlot, whole: seq<PricedSlot>, k: int)
    ensures Rank(StableSort(s), y) == Rank(s, y)
    ensures CountBelow(StableSort(s), whole, k) == CountBelow(s, whole, k)
  {
    if s != [] {
      SortCounts(s[1..], y, whole, k);
      InsertCounts(s[0], StableSort(s[1..]), y, whole, k);
    }
  }

  lemma {:induction false} RankWhenOrdered(s: seq<PricedSlot>, p: nat)
    requires Ordered(s) && p < |s|
    ensures Rank(s, s[p]) == p
  {
    if p > 0 {
      RankWhenOrdered(s[1..], p - 1);
    } else {
      NoneBefore(s, s[0]);
    }
  }

  lemma {:induction false} NoneBefore(s: seq<PricedSlot>, x: PricedSlot)
    requires forall y :: y in s ==> !Before(y, x)
    ensures Rank(s, x) == 0
  {
    if s != [] {
      NoneBefore(s[1..], x);
    }
  }

  lemma {:induction false} RankBound(s: seq<PricedSlot>, x: PricedSlot)
    requires x in s
    ensures Rank(s, x) < |s|
  {
    if s[0] == x {
      RankAtMost(s[1..], x);
    } else {
      RankBound(s[1..], x);
    }
  }

  lemma {:induction false} RankAtMost(s: seq<PricedSlot>, x: PricedSlot)
    ensures Rank(s, x) <= |s|
  {
    if s != [] {
      RankAtMost(s[1..], x);
    }
  }

  /** Of two slots, the one that comes first has no higher a rank. */
  lemma {:induction false} RanksGrow(s: seq<PricedSlot>, x: PricedSlot, y: PricedSlot)
    requires Before(x, y)
    ensures Rank(s, x) <= Rank(s, y)
  {
    if s != [] {
      RanksGrow(s[1..], x, y);
    }
  }

  /** The chosen slots are those of rank below `k`: cheapest first, earliest first among equals, and
      slots without a price last. */
  lemma ChosenByRank(from: int, to: int, k: nat, prices: seq<TariffSlot>, i: nat)
    requires k <= |Grid(from, to)| && i < |Grid(from, to)|
    ensures var w := WithPrices(Grid(from, to), prices);
      CheapestSlotsPlan(Grid(from, to), k, prices)[i].shouldCharge <==> Rank(w, w[i]) < k
  {
    var w := WithPrices(Grid(from, to), prices);
    var sorted := StableSort(w);
    assert Increasing(w);
    SortOrders(w);
    SortCounts(w, w[i], w, k);
    assert |multiset(sorted)| == |multiset(w)|;
    assert w[i] in multiset(w) && w[i] in multiset(sorted);
    var p :| 0 <= p < |sorted| && sorted[p] == w[i];
    RankWhenOrdered(sorted, p);
    if q :| 0 <= q < k && sorted[q].start == w[i].start {
      assert sorted[q] in multiset(sorted) && sorted[q] in multiset(w);
      assert sorted[q] in w;
      assert sorted[q] == w[i];
      RankWhenOrdered(sorted, q);
    }
    if p < k {
      assert sorted[p] in sorted[..k];
    }
  }
}
