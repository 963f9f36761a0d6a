/**
  Session completion (src/core/smart-charging/session-complete.ts) wired to the reconciler as in the control
  tick of src/core/lifecycle.ts, and how the one timer pre-empts the other.
 */
module SessionComplete {
  import opened Prelude
  import opened SessionReconciler

  datatype CompleteCfg = CompleteCfg(minKWh: real, drawA: real, settleMs: int)

  const SESSION_COMPLETE := CompleteCfg(0.1, 0.5, 60_000)

  datatype CompleteInput = CompleteInput(
    connected: bool, climateActive: bool, deliveredKWh: real, commandedA: real, drawingA: real,
    requiredKWh: real, pauseOnTarget: bool, zeroDrawSinceMs: Option<int>, now: int)

  datatype CompleteResult = CompleteResult(complete: bool, zeroDrawSinceMs: Option<int>)

  function ResolveSessionComplete(i: CompleteInput, cfg: CompleteCfg): CompleteResult {
    if !i.connected || i.climateActive || i.deliveredKWh <= cfg.minKWh || i.drawingA >= cfg.drawA
    then CompleteResult(false, None)
    else
      var targetComplete := i.requiredKWh <= 0.0 && i.pauseOnTarget;
      var since := if i.commandedA > 0.0 then Some(i.zeroDrawSinceMs.GetOr(i.now)) else None;
      var carStoppedItself := since.Some? && i.now - since.value >= cfg.settleMs;
      CompleteResult(targetComplete || carStoppedItself, since)
  }

  /** What one control tick observes of a loadpoint. */
  datatype Observation = Observation(
    unplugged: bool, connected: bool, climateActive: bool, sessionEnergyKWh: real, commandedA: real, drawingA: real,
    requiredKWh: real, pauseOnTarget: bool, status: Option<Status>, carPluggedIn: Option<bool>,
    carCharging: Option<bool>, carAtTarget: bool, vehicleCanActuate: bool, chargerCanRemoteStart: bool,
    chargerCanClearProfile: bool, chargerCanReset: bool, now: int)

  /** What the control loop keeps per loadpoint between ticks. */
  datatype Watch = Watch(session: State, zeroDrawSinceMs: Option<int>, deliveredKWh: real)

  const FRESH := Watch(IDLE, None, 0.0)

  datatype Outcome = Outcome(watch: Watch, complete: bool, action: Action)

  /** A genuine unplug clears the delivered energy and the settle timer; otherwise delivery is peak-held. */
  function Delivered(w: Watch, o: Observation): real {
    Max(if o.unplugged then 0.0 else w.deliveredKWh, o.sessionEnergyKWh)
  }

  function Tick(w: Watch, o: Observation, complete: CompleteCfg, cfg: Cfg): Outcome {
    var delivered := Delivered(w, o);
    var result := ResolveSessionComplete(
      CompleteInput(o.connected, o.climateActive, delivered, o.commandedA, o.drawingA, o.requiredKWh,
                    o.pauseOnTarget, if o.unplugged then None else w.zeroDrawSinceMs, o.now), complete);
    var decision := DecideSession(w.session, ReconcilerInput(o, result.complete), cfg);
    Outcome(Watch(decision.next, result.zeroDrawSinceMs, delivered), result.complete, decision.action)
  }

  function ReconcilerInput(o: Observation, complete: bool): Input {
    Input(o.commandedA > 0.0, o.status, o.drawingA, o.carPluggedIn, o.carCharging, o.carAtTarget, complete,
          o.vehicleCanActuate, o.chargerCanRemoteStart, o.chargerCanClearProfile, o.chargerCanReset, o.now)
  }

  /** The two timers and the peak-held energy as the control loop keeps them, updated in place. */
  class LoadpointWatch {
    var session: State
    var zeroDrawSinceMs: Option<int>
    var deliveredKWh: real

    constructor ()
      ensures View() == FRESH
    {
      session, zeroDrawSinceMs, deliveredKWh := IDLE, None, 0.0;
    }

    function View(): Watch
      reads this
    {
      Watch(session, zeroDrawSinceMs, deliveredKWh)
    }

    method ControlTick(o: Observation) returns (complete: bool, action: Action)
      modifies this
      ensures Outcome(View(), complete, action) == Tick(old(View()), o, SESSION_COMPLETE, SESSION_RECONCILE)
    {
      if o.unplugged {
        deliveredKWh := 0.0;
        zeroDrawSinceMs := None;
      }
      deliveredKWh := Max(deliveredKWh, o.sessionEnergyKWh);
      var result := ResolveSessionComplete(
        CompleteInput(o.connected, o.climateActive, deliveredKWh, o.commandedA, o.drawingA, o.requiredKWh,
                      o.pauseOnTarget, zeroDrawSinceMs, o.now), SESSION_COMPLETE);
      complete := result.complete;
      zeroDrawSinceMs := result.zeroDrawSinceMs;
      var decision := DecideSession(session, ReconcilerInput(o, complete), SESSION_RECONCILE);
      session := decision.next;
      action := decision.action;
    }
  }

  // ---------- completion pre-empts recovery ----------

  function Run(w: Watch, obs: seq<Observation>, complete: CompleteCfg, cfg: Cfg): Watch {
    if obs == [] then w
    else Tick(Run(w, obs[..|obs| - 1], complete, cfg), obs[|obs| - 1], complete, cfg).watch
  }

  function ActionTaken(w: Watch, obs: seq<Observation>, complete: CompleteCfg, cfg: Cfg, k: nat): Action
    requires k < |obs|
  {
    Tick(Run(w, obs[..k], complete, cfg), obs[k], complete, cfg).action
  }

  /** A plugged-in, not climatising car in a session that has already delivered something. */
  ghost predicate SessionUnderWay(w: Watch, obs: seq<Observation>, complete: CompleteCfg) {
    && w.deliveredKWh > complete.minKWh
    && (forall k :: 0 <= k < |obs| ==> obs[k].connected && !obs[k].climateActive && !obs[k].unplugged)
    && (forall i, j :: 0 <= i <= j < |obs| ==> obs[i].now <= obs[j].now)
  }

  /** A draw the completion check takes for charging but the reconciler does not. */
  predicate InBlindBand(drawingA: real, complete: CompleteCfg, cfg: Cfg) {
    complete.drawA <= drawingA < cfg.minDrawA
  }

  /** While the reconciler counts a stall, the settle timer has been running at least as long. */
  ghost predicate SettleLeads(w: Watch, complete: CompleteCfg) {
    && w.deliveredKWh > complete.minKWh
    && (w.session.stalledSinceMs.Some? ==>
         w.zeroDrawSinceMs.Some? && w.zeroDrawSinceMs.value <= w.session.stalledSinceMs.value)
  }

  lemma {:induction false} SettleKeepsLeading(w: Watch, obs: seq<Observation>, complete: CompleteCfg, cfg: Cfg)
    requires w.session == IDLE && w.zeroDrawSinceMs.None? && SessionUnderWay(w, obs, complete)
    requires complete.settleMs <= cfg.graceMs
    requires forall k :: 0 <= k < |obs| ==> !InBlindBand(obs[k].drawingA, complete, cfg)
    ensures var end := Run(w, obs, complete, cfg);
      && SettleLeads(end, complete)
      && (end.zeroDrawSinceMs.Some? ==> obs != [] && end.zeroDrawSinceMs.value <= obs[|obs| - 1].now)
    ensures forall k :: 0 <= k < |obs| ==> ActionTaken(w, obs, complete, cfg, k).NoAction?
  {
    if obs != [] {
      var last := |obs| - 1;
      SettleKeepsLeading(w, obs[..last], complete, cfg);
      forall k | 0 <= k < last ensures ActionTaken(w, obs, complete, cfg, k).NoAction? {
        assert obs[..last][..k] == obs[..k];
        assert ActionTaken(w, obs[..last], complete, cfg, k).NoAction?;
      }
    }
  }

  /** Over a whole session in which the draw stays out of the blind band, completion always comes first and
      the reconciler never acts. */
  lemma CompletionPreemptsRecovery(w: Watch, obs: seq<Observation>, complete: CompleteCfg, cfg: Cfg, k: nat)
    requires w.session == IDLE && w.zeroDrawSinceMs.None? && SessionUnderWay(w, obs, complete)
    requires complete.settleMs <= cfg.graceMs && k < |obs|
    requires forall j :: 0 <= j < |obs| ==> !InBlindBand(obs[j].drawingA, complete, cfg)
    ensures ActionTaken(w, obs, complete, cfg, k).NoAction?
  {
    SettleKeepsLeading(w, obs, complete, cfg);
  }

  ghost predicate SafeDraw(drawingA: real, complete: CompleteCfg, cfg: Cfg) {
    forall w: Watch, obs: seq<Observation>, k: nat ::
      (&& w.session == IDLE && w.zeroDrawSinceMs.None? && SessionUnderWay(w, obs, complete)
       && k < |obs| && forall j :: 0 <= j < |obs| ==> obs[j].drawingA == drawingA)
      ==> ActionTaken(w, obs, complete, cfg, k).NoAction?
  }

  function Trickle(drawingA: real, now: int): Observation {
    Observation(false, true, false, 0.0, 16.0, drawingA, 1.0, true, Some(SuspendedEV), None, None, false,
                false, true, true, true, now)
  }

  /** A car that trickles inside the band is "drawing" to one check and "stalled" to the other: after the
      grace time its session is restarted. */
  lemma TrickleIsRestarted(drawingA: real, complete: CompleteCfg, cfg: Cfg)
    requires InBlindBand(drawingA, complete, cfg) && cfg.maxActions > 0 && cfg.graceMs >= 0
    ensures !SafeDraw(drawingA, complete, cfg)
  {
    var w := Watch(IDLE, None, complete.minKWh + 1.0);
    var obs := [Trickle(drawingA, 0), Trickle(drawingA, cfg.graceMs)];
    assert obs[..1] == [obs[0]] && obs[..1][..0] == [];
    var first := Run(w, obs[..1], complete, cfg);
    assert first == Tick(Run(w, [], complete, cfg), obs[0], complete, cfg).watch;
    if cfg.graceMs > 0 {
      assert first.session.stalledSinceMs == Some(0) && first.session.lastActionMs.None?;
      assert !ActionTaken(w, obs, complete, cfg, 1).NoAction?;
    } else {
      assert obs[..0] == [];
      assert !ActionTaken(w, obs, complete, cfg, 0).NoAction?;
    }
  }

  /** Exactly the constant draws outside the band are safe; with the shipped thresholds the band is
      [0.5 A, 1 A). */
  lemma SafeDrawIff(drawingA: real, complete: CompleteCfg, cfg: Cfg)
    requires cfg.maxActions > 0 && 0 <= cfg.graceMs && complete.settleMs <= cfg.graceMs
    ensures SafeDraw(drawingA, complete, cfg) <==> !InBlindBand(drawingA, complete, cfg)
  {
    if InBlindBand(drawingA, complete, cfg) {
      TrickleIsRestarted(drawingA, complete, cfg);
    } else {
      forall w: Watch, obs: seq<Observation>, k: nat |
        && w.session == IDLE && w.zeroDrawSinceMs.None? && SessionUnderWay(w, obs, complete)
        && k < |obs| && forall j :: 0 <= j < |obs| ==> obs[j].drawingA == drawingA
        ensures ActionTaken(w, obs, complete, cfg, k).NoAction?
      {
        CompletionPreemptsRecovery(w, obs, complete, cfg, k);
      }
    }
  }
}
