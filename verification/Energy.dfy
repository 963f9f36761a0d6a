/**
  How much energy is still required: the estimator (src/core/estimator.ts) and the target ladder
  (src/core/smart-charging/energy.ts).
 */
module Energy {
  import opened Prelude
  import opened Planner

  const DEFAULT_CHARGING_EFFICIENCY := 0.92
  const DUTY_CYCLE_FALLBACK := 0.4

  datatype PlanUnit = Pct | Km | Kwh
  datatype Target = Target(unit: PlanUnit, value: real)
  datatype EnergyRung = SocCapacity | TargetKWh | DutyCycle

  datatype TargetContext = TargetContext(
    soc: Option<real>, range: Option<real>, capacity: Option<real>,
    estimatedSocPct: Option<real>, sessionEnergyKWh: real, hoursUntilTarget: real,
    maxCurrentA: real, phases: int, efficiency: Option<real>, dutyCycle: Option<real>)

  datatype ResolvedTarget = ResolvedTarget(requiredKWh: real, resolvedSoc: Option<real>, source: EnergyRung,
                                           degraded: bool)

  function EstimateSoc(lastKnownSoc: real, sessionKWh: real, capacity: Option<real>, efficiency: real): Option<real> {
    if capacity.None? || capacity.value <= 0.0 then None
    else Some(Min(100.0, lastKnownSoc + sessionKWh * efficiency * 100.0 / capacity.value))
  }

  function EstimateSocSinceAnchor(anchorSoc: real, anchorSessionKWh: real, sessionKWhNow: real,
                                  capacity: Option<real>, efficiency: real): Option<real>
  {
    EstimateSoc(anchorSoc, Max(0.0, sessionKWhNow - anchorSessionKWh), capacity, efficiency)
  }

  function TargetToSoc(target: Target, soc: Option<real>, range: Option<real>): Option<real> {
    match target.unit
    case Pct => Some(target.value)
    case Kwh => None
    case Km =>
      if range.None? || soc.None? || soc.value <= 0.0 || range.value <= 0.0 then None
      else Some(Min(100.0, target.value / (range.value / soc.value)))
  }

  /** The three-rung ladder. An efficiency of 0 is outside the configured range (0.5 to 1). */
  function ResolveTarget(target: Option<Target>, ctx: TargetContext): ResolvedTarget
    requires ctx.efficiency.GetOr(DEFAULT_CHARGING_EFFICIENCY) != 0.0
  {
    var resolvedSoc := if target.Some? then TargetToSoc(target.value, ctx.soc, ctx.range) else None;
    var efficiency := ctx.efficiency.GetOr(DEFAULT_CHARGING_EFFICIENCY);
    if ctx.estimatedSocPct.Some? && ctx.capacity.Some? && ctx.capacity.value != 0.0 && resolvedSoc.Some? then
      var remainingPct := Max(0.0, resolvedSoc.value - ctx.estimatedSocPct.value);
      ResolvedTarget(Max(0.0, remainingPct / 100.0 * ctx.capacity.value / efficiency), resolvedSoc, SocCapacity, false)
    else if target.Some? && target.value.unit == Kwh then
      ResolvedTarget(Max(0.0, target.value.value - ctx.sessionEnergyKWh), resolvedSoc, TargetKWh, true)
    else
      var dutyCycle := ctx.dutyCycle.GetOr(DUTY_CYCLE_FALLBACK);
      ResolvedTarget(Max(1.0, ctx.hoursUntilTarget * ChargeRateKW(ctx.maxCurrentA, ctx.phases) * dutyCycle),
                     resolvedSoc, DutyCycle, true)
  }

  /** There is an estimate exactly for a battery of known size; it lies between the reading and a full battery. */
  lemma EstimateKnownIff(anchorSoc: real, anchorSessionKWh: real, sessionKWhNow: real, capacity: Option<real>,
                         efficiency: real)
    requires efficiency > 0.0 && anchorSoc <= 100.0
    ensures var soc := EstimateSocSinceAnchor(anchorSoc, anchorSessionKWh, sessionKWhNow, capacity, efficiency);
      && (soc.Some? <==> capacity.Some? && capacity.value > 0.0)
      && (soc.Some? ==> anchorSoc <= soc.value <= 100.0)
      && (soc.Some? && sessionKWhNow <= anchorSessionKWh ==> soc.value == anchorSoc)
  {
    var delta := Max(0.0, sessionKWhNow - anchorSessionKWh);
    assert delta * efficiency >= 0.0;
    if capacity.Some? && capacity.value > 0.0 {
      assert delta * efficiency * 100.0 / capacity.value >= 0.0;
    }
  }

  /** A session anchored by a real reading `anchorSoc`, taken when `base.sessionEnergyKWh` was delivered. */
  datatype Session = Session(anchorSoc: real, capacity: real, efficiency: real, base: TargetContext) {
    ghost predicate Valid() {
      capacity > 0.0 && efficiency > 0.0 && anchorSoc <= 100.0
    }
  }

  /** The context of a tick that finds `delivered` kWh more than at the reading. */
  function ContextAfter(s: Session, delivered: real): TargetContext {
    s.base.(capacity := Some(s.capacity), efficiency := Some(s.efficiency),
            sessionEnergyKWh := s.base.sessionEnergyKWh + delivered,
            estimatedSocPct := EstimateSocSinceAnchor(s.anchorSoc, s.base.sessionEnergyKWh,
                                 s.base.sessionEnergyKWh + delivered, Some(s.capacity), s.efficiency))
  }

  function RequiredAfter(s: Session, targetPct: real, delivered: real): real
    requires s.Valid()
  {
    ResolveTarget(Some(Target(Pct, targetPct)), ContextAfter(s, delivered)).requiredKWh
  }

  /** The energy drawn from the grid for `pct` percent of the battery. */
  function GridKWh(s: Session, pct: real): real
    requires s.Valid()
  {
    pct / 100.0 * s.capacity / s.efficiency
  }

  function AddedPct(s: Session, kWh: real): real
    requires s.Valid()
  {
    kWh * s.efficiency * 100.0 / s.capacity
  }

  lemma DeliveryInPercent(s: Session, kWh: real)
    requires s.Valid()
    ensures GridKWh(s, AddedPct(s, kWh)) == kWh
  {
    var pct := AddedPct(s, kWh);
    assert pct * s.capacity == kWh * s.efficiency * 100.0;
    assert pct / 100.0 * s.capacity == kWh * s.efficiency;
  }

  lemma GridKWhIsLinear(s: Session, a: real, b: real)
    requires s.Valid()
    ensures GridKWh(s, a - b) == GridKWh(s, a) - GridKWh(s, b)
    ensures a <= b <==> GridKWh(s, a) <= GridKWh(s, b)
  {
    var c := s.capacity;
    var x, y := a / 100.0 * c, b / 100.0 * c;
    assert (a - b) / 100.0 * c == x - y;
    assert (x - y) / s.efficiency == x / s.efficiency - y / s.efficiency;
    if a <= b {
      assert (b / 100.0 - a / 100.0) * c >= 0.0;
    } else {
      assert (a / 100.0 - b / 100.0) * c > 0.0;
    }
    QuotientOrder(x, y, s.efficiency);
  }

  lemma QuotientOrder(x: real, y: real, e: real)
    requires e > 0.0
    ensures x <= y <==> x / e <= y / e
  {
    assert x / e * e == x && y / e * e == y;
  }

  lemma RequiredFromEstimate(s: Session, targetPct: real, delivered: real)
    requires s.Valid() && delivered >= 0.0
    ensures RequiredAfter(s, targetPct, delivered)
      == Max(0.0, GridKWh(s, Max(0.0, targetPct - Min(100.0, s.anchorSoc + AddedPct(s, delivered)))))
  {
    hide EstimateSocSinceAnchor, AddedPct;
    EstimateIsClamped(s, delivered);
  }

  lemma EstimateIsClamped(s: Session, delivered: real)
    requires s.Valid() && delivered >= 0.0
    ensures ContextAfter(s, delivered).estimatedSocPct == Some(Min(100.0, s.anchorSoc + AddedPct(s, delivered)))
  {
    assert s.base.sessionEnergyKWh + delivered - s.base.sessionEnergyKWh == delivered;
  }

  /** Up to a target of 100 % the clamps never show: what is required is the initial need less what was
      delivered, or nothing. */
  lemma RequiredUnclamped(s: Session, targetPct: real, delivered: real)
    requires s.Valid() && targetPct <= 100.0 && delivered >= 0.0
    ensures RequiredAfter(s, targetPct, delivered) == Max(0.0, GridKWh(s, targetPct - s.anchorSoc) - delivered)
  {
    hide RequiredAfter, AddedPct, GridKWh;
    var added := AddedPct(s, delivered);
    RequiredFromEstimate(s, targetPct, delivered);
    DeliveryInPercent(s, delivered);
    GridKWhIsLinear(s, targetPct - s.anchorSoc, added);
    GridKWhIsLinear(s, 0.0, 0.0);
    GridKWhIsLinear(s, 0.0, targetPct - s.anchorSoc - added);
  }

  /** Every kWh delivered lowers the requirement by exactly one kWh, until it is 0. */
  ghost predicate FallsFrom(s: Session, targetPct: real, before: real, more: real)
    requires s.Valid()
  {
    before >= 0.0 && more >= 0.0 ==>
      RequiredAfter(s, targetPct, before + more) == Max(0.0, RequiredAfter(s, targetPct, before) - more)
  }

  ghost predicate FallsWithDelivery(s: Session, targetPct: real)
    requires s.Valid()
  {
    forall before: real, more: real :: FallsFrom(s, targetPct, before, more)
  }

  lemma FallsFromAnywhere(s: Session, targetPct: real, before: real, more: real)
    requires s.Valid() && targetPct <= 100.0
    ensures FallsFrom(s, targetPct, before, more)
  {
    if before >= 0.0 && more >= 0.0 {
      RequiredUnclamped(s, targetPct, before);
      RequiredUnclamped(s, targetPct, before + more);
    }
  }

  lemma FullStaysFull(s: Session, targetPct: real, delivered: real)
    requires s.Valid() && targetPct > 100.0
    requires delivered >= GridKWh(s, 100.0 - s.anchorSoc) && delivered >= 0.0
    ensures RequiredAfter(s, targetPct, delivered) == GridKWh(s, targetPct - 100.0) > 0.0
  {
    hide RequiredAfter, AddedPct, GridKWh;
    RequiredFromEstimate(s, targetPct, delivered);
    DeliveryInPercent(s, delivered);
    GridKWhIsLinear(s, 100.0 - s.anchorSoc, AddedPct(s, delivered));
    GridKWhIsLinear(s, 0.0, 0.0);
    GridKWhIsLinear(s, targetPct - 100.0, 0.0);
  }

  /** The clamp of the estimate at 100 % is harmless for targets up to 100 %, and only for those: a
      higher target leaves a remainder that no delivery removes. */
  lemma FallsIffTargetWithinBattery(s: Session, targetPct: real)
    requires s.Valid()
    ensures FallsWithDelivery(s, targetPct) <==> targetPct <= 100.0
  {
    if targetPct <= 100.0 {
      forall before: real, more: real ensures FallsFrom(s, targetPct, before, more) {
        FallsFromAnywhere(s, targetPct, before, more);
      }
    } else {
      var full := Max(0.0, GridKWh(s, 100.0 - s.anchorSoc));
      FullStaysFull(s, targetPct, full);
      FullStaysFull(s, targetPct, full + 1.0);
      assert !FallsFrom(s, targetPct, full, 1.0);
    }
  }

  /** What the HTTP routes and the schema let through: a percentage up to 100, any range, any energy. */
  predicate Admitted(target: Target) {
    target.unit == Pct ==> target.value <= 100.0
  }

  function RequiredFor(s: Session, target: Target, delivered: real): real
    requires s.Valid()
  {
    ResolveTarget(Some(target), ContextAfter(s, delivered)).requiredKWh
  }

  /** Every admitted percentage or range target is a state of charge of at most 100 %, and once its need has
      been delivered nothing more is required. */
  lemma AdmittedTargetIsMet(s: Session, target: Target, delivered: real)
    requires s.Valid() && Admitted(target) && TargetToSoc(target, s.base.soc, s.base.range).Some?
    ensures var pct := TargetToSoc(target, s.base.soc, s.base.range).value;
      && pct <= 100.0
      && (delivered >= 0.0 ==> RequiredFor(s, target, delivered) == Max(0.0, GridKWh(s, pct - s.anchorSoc) - delivered))
  {
    var pct := TargetToSoc(target, s.base.soc, s.base.range).value;
    if delivered >= 0.0 {
      SamePercent(s, target, delivered);
      hide ResolveTarget, RequiredAfter, RequiredFor, GridKWh;
      RequiredUnclamped(s, pct, delivered);
    }
  }

  lemma SamePercent(s: Session, target: Target, delivered: real)
    requires s.Valid() && TargetToSoc(target, s.base.soc, s.base.range).Some?
    ensures RequiredFor(s, target, delivered)
        == RequiredAfter(s, TargetToSoc(target, s.base.soc, s.base.range).value, delivered)
  {
    hide EstimateSocSinceAnchor;
  }

  /** A kWh-to-add target needs no car data and converges the same way; with no target at all at least
      1 kWh always stays required, so the planner never goes idle on a guess. */
  lemma GuestTargets(value: real, ctx: TargetContext, more: real)
    requires ctx.efficiency.GetOr(DEFAULT_CHARGING_EFFICIENCY) != 0.0 && more >= 0.0
    ensures var later := ctx.(sessionEnergyKWh := ctx.sessionEnergyKWh + more);
      ResolveTarget(Some(Target(Kwh, value)), later).requiredKWh
        == Max(0.0, ResolveTarget(Some(Target(Kwh, value)), ctx).requiredKWh - more)
    ensures ResolveTarget(None, ctx).requiredKWh >= 1.0
  {
  }

  // ---------- targets as states of charge ----------

  /**
   * A range target is the state of charge at which the car, at its own ratio
   * of range to charge, reaches that range, or a full battery if it never does.
   * A percentage is that state itself, and an amount of energy is none.
   */
  lemma TargetIsState(target: Target, soc: Option<real>, range: Option<real>)
    ensures var state := TargetToSoc(target, soc, range);
      var readable := soc.Some? && range.Some? && soc.value > 0.0 && range.value > 0.0;
      && (state.Some? <==> target.unit == Pct || (target.unit == Km && readable))
      && (target.unit == Pct ==> state == Some(target.value))
      && (target.unit == Km && readable ==>
            && state.value <= 100.0
            && state.value * range.value <= target.value * soc.value
            && (state.value * range.value == target.value * soc.value || state.value == 100.0))
  {
    if target.unit == Km && soc.Some? && range.Some? && soc.value > 0.0 && range.value > 0.0 {
      var ratio := range.value / soc.value;
      RatioCancels(target.value, range.value, soc.value);
      CappedProduct(target.value / ratio, range.value);
      hide Min;
      assert TargetToSoc(target, soc, range) == Some(Min(100.0, target.value / ratio));
    }
  }

  lemma CappedProduct(exact: real, range: real)
    requires range > 0.0
    ensures Min(100.0, exact) <= 100.0
    ensures Min(100.0, exact) * range <= exact * range
    ensures Min(100.0, exact) * range == exact * range || Min(100.0, exact) == 100.0
  {
    if exact > 100.0 {
      assert (exact - 100.0) * range >= 0.0;
    }
  }

  lemma RatioCancels(km: real, range: real, soc: real)
    requires range > 0.0 && soc > 0.0
    ensures range / soc > 0.0 && km / (range / soc) * range == km * soc
  {
    var ratio := range / soc;
    assert ratio * soc == range;
    assert ratio > 0.0;
    var pct := km / ratio;
    assert pct * ratio == km;
    assert pct * range == pct * (ratio * soc) == (pct * ratio) * soc;
  }

  /** Delivering what a range target requires brings the estimated range to the target, or the battery to full. */
  lemma RangeIsReached(s: Session, km: real)
    requires s.Valid() && TargetToSoc(Target(Km, km), s.base.soc, s.base.range).Some?
    ensures var soc := ContextAfter(s, RequiredFor(s, Target(Km, km), 0.0)).estimatedSocPct;
      soc.Some? && (soc.value == 100.0 || soc.value * s.base.range.value >= km * s.base.soc.value)
  {
    var target := Target(Km, km);
    var pct := TargetToSoc(target, s.base.soc, s.base.range).value;
    var need := RequiredFor(s, target, 0.0);
    TargetIsState(target, s.base.soc, s.base.range);
    AdmittedTargetIsMet(s, target, 0.0);
    hide RequiredFor, TargetToSoc;
    assert need == Max(0.0, GridKWh(s, pct - s.anchorSoc));
    EstimateIsClamped(s, need);
    NeedReaches(s, pct, need);
    var soc := Min(100.0, s.anchorSoc + AddedPct(s, need));
    hide GridKWh, AddedPct, ContextAfter;
    assert soc >= pct;
    assert soc * s.base.range.value >= pct * s.base.range.value;
  }

  lemma NeedReaches(s: Session, pct: real, need: real)
    requires s.Valid() && need == Max(0.0, GridKWh(s, pct - s.anchorSoc))
    ensures s.anchorSoc + AddedPct(s, need) >= pct
  {
    DeliveryInPercent(s, need);
    GridKWhIsLinear(s, pct - s.anchorSoc, AddedPct(s, need));
  }

  /**
   * Which rung answers: the battery, if its state and size and the target's
   * state are known; else the energy asked for; else a share, 40 % unless
   * configured, of what the hours left could deliver, at least 1 kWh.
   */
  lemma RungIs(target: Option<Target>, ctx: TargetContext)
    requires ctx.efficiency.GetOr(DEFAULT_CHARGING_EFFICIENCY) != 0.0
    ensures var r := ResolveTarget(target, ctx);
      var state := if target.Some? then TargetToSoc(target.value, ctx.soc, ctx.range) else None;
      var sized := ctx.estimatedSocPct.Some? && ctx.capacity.Some? && ctx.capacity.value != 0.0;
      && r.resolvedSoc == state
      && (r.source == SocCapacity <==> sized && state.Some?)
      && (r.source == TargetKWh <==> target.Some? && target.value.unit == Kwh)
      && (r.degraded <==> r.source != SocCapacity)
      && (r.source == DutyCycle ==>
            var watts := 230.0 * ctx.maxCurrentA * ctx.phases as real;
            r.requiredKWh == Max(1.0, ctx.hoursUntilTarget * watts * ctx.dutyCycle.GetOr(0.4) / 1000.0))
  {
    var duty := ctx.dutyCycle.GetOr(0.4);
    var rate := ChargeRateKW(ctx.maxCurrentA, ctx.phases);
    assert 230.0 * ctx.maxCurrentA * ctx.phases as real == ctx.maxCurrentA * ctx.phases as real * 230.0;
    DutyScale(ctx.hoursUntilTarget, ctx.maxCurrentA * ctx.phases as real * 230.0, duty);
  }

  lemma DutyScale(hours: real, watts: real, duty: real)
    ensures hours * (watts / 1000.0) * duty == hours * watts * duty / 1000.0
  {
    assert hours * (watts / 1000.0) == hours * watts / 1000.0;
    assert (hours * watts / 1000.0) * duty == hours * watts * duty / 1000.0;
  }
}
