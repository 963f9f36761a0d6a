/**
  Completion against recovery when the charger drops out in between. A gap drops the settle timer of
  src/core/smart-charging/session-complete.ts, while the reconciler of src/core/session-reconciler.ts keeps its
  stall.
 */
module SessionGaps {
  import opened Prelude
  import opened SessionReconciler
  import opened SessionComplete

  /** The reconciler sees the connector: it is neither out of order nor silent. */
  predicate Visible(o: Observation) {
    o.status.Some? && o.status != Some(Unavailable)
  }

  /** A car that is offered current and draws none, with nothing else to say that it is well. */
  predicate Refuses(o: Observation, complete: CompleteCfg, cfg: Cfg) {
    && !o.unplugged && !o.climateActive && o.commandedA > 0.0
    && o.drawingA < complete.drawA && o.drawingA < cfg.minDrawA
    && !(o.requiredKWh <= 0.0 && o.pauseOnTarget)
    && o.carCharging != Some(true) && !o.carAtTarget
    && !(o.status == Some(Available) && o.carPluggedIn != Some(true))
    && o.chargerCanReset
  }

  /** A refusing car over a whole session in which the connection may come and go. */
  ghost predicate RefusingSession(w: Watch, obs: seq<Observation>, complete: CompleteCfg, cfg: Cfg) {
    && w.deliveredKWh > complete.minKWh
    && (forall k :: 0 <= k < |obs| ==> Refuses(obs[k], complete, cfg))
    && (forall i, j :: 0 <= i <= j < |obs| ==> obs[i].now <= obs[j].now)
  }

  // ---------- the two clocks, told by the connection alone ----------

  /** When the connection that still holds after the last tick began. */
  function ConnectedSince(obs: seq<Observation>): Option<int> {
    if obs == [] then None
    else
      var last := obs[|obs| - 1];
      if !last.connected then None
      else Some(ConnectedSince(obs[..|obs| - 1]).GetOr(last.now))
  }

  /** The last tick finds the car connected for the settle time. */
  predicate Settles(obs: seq<Observation>, settleMs: int)
    requires obs != []
  {
    var since, last := ConnectedSince(obs), obs[|obs| - 1];
    since.Some? && last.now - since.value >= settleMs
  }

  /** When the reconciler first saw the car since it last settled. */
  function SeenSince(obs: seq<Observation>, settleMs: int): Option<int> {
    if obs == [] then None
    else
      var before, last := SeenSince(obs[..|obs| - 1], settleMs), obs[|obs| - 1];
      if Settles(obs, settleMs) then None
      else if !Visible(last) then before
      else Some(before.GetOr(last.now))
  }

  /** The last tick sees a car it has seen for the grace time, across whatever gaps, but that has not settled
      since the last of them. */
  predicate Exposed(obs: seq<Observation>, complete: CompleteCfg, cfg: Cfg)
    requires obs != []
  {
    var last, seen := obs[|obs| - 1], SeenSince(obs, complete.settleMs);
    Visible(last) && !Settles(obs, complete.settleMs) && seen.Some? && last.now - seen.value >= cfg.graceMs
  }

  // ---------- exactly when recovery comes first ----------

  /** As long as no action has been taken, the two timers are the two clocks. */
  ghost predicate InStep(w: Watch, obs: seq<Observation>, complete: CompleteCfg, cfg: Cfg) {
    var end := Run(w, obs, complete, cfg);
    && end.deliveredKWh > complete.minKWh
    && end.zeroDrawSinceMs == ConnectedSince(obs)
    && end.session.stalledSinceMs == SeenSince(obs, complete.settleMs)
    && end.session.lastActionMs.None? && end.session.totalActions == 0
  }

  lemma LadderEndsInReset(i: Input, phase: Phase, attempt: nat)
    requires i.chargerCanReset
    ensures !ChooseAction(i, phase, attempt).NoAction?
  {
    var ladder := Ladder(i, phase);
    assert ladder[|ladder| - 1] == Reset;
    assert forall k :: 0 <= k < |ladder| ==> !ladder[k].NoAction?;
  }

  /** What the completion check says of a refusing car. */
  lemma RefusingCompletes(w: Watch, o: Observation, since: Option<int>, complete: CompleteCfg, cfg: Cfg)
    requires Refuses(o, complete, cfg) && w.deliveredKWh > complete.minKWh && w.zeroDrawSinceMs == since
    ensures var next := if o.connected then Some(since.GetOr(o.now)) else None;
      var outcome := Tick(w, o, complete, cfg);
      && outcome.watch.zeroDrawSinceMs == next
      && outcome.watch.deliveredKWh > complete.minKWh
      && (outcome.complete <==> next.Some? && o.now - next.value >= complete.settleMs)
  {
    hide DecideSession;
  }

  /** What the reconciler does with one that has not been acted upon yet. */
  lemma RefusingDecision(w: Watch, o: Observation, complete: CompleteCfg, cfg: Cfg)
    requires Refuses(o, complete, cfg) && cfg.maxActions > 0
    requires w.session.lastActionMs.None? && w.session.totalActions == 0
    ensures var outcome := Tick(w, o, complete, cfg);
      var since := w.session.stalledSinceMs.GetOr(o.now);
      var acts := !outcome.complete && Visible(o) && o.now - since >= cfg.graceMs;
      && (!outcome.action.NoAction? <==> acts)
      && (!acts ==>
            && outcome.watch.session.lastActionMs.None? && outcome.watch.session.totalActions == 0
            && outcome.watch.session.stalledSinceMs
                 == if outcome.complete then None else if Visible(o) then Some(since) else w.session.stalledSinceMs)
  {
    hide ResolveSessionComplete, ChooseAction;
    var outcome := Tick(w, o, complete, cfg);
    var i := ReconcilerInput(o, outcome.complete);
    var phase := PhaseOf(o.status);
    LadderEndsInReset(i, phase, if w.session.phase == Some(phase) then w.session.phaseAttempts else 0);
  }

  lemma StaysInStep(w: Watch, obs: seq<Observation>, complete: CompleteCfg, cfg: Cfg)
    requires obs != [] && RefusingSession(w, obs, complete, cfg) && cfg.maxActions > 0
    requires InStep(w, obs[..|obs| - 1], complete, cfg)
    ensures !ActionTaken(w, obs, complete, cfg, |obs| - 1).NoAction? <==> Exposed(obs, complete, cfg)
    ensures !Exposed(obs, complete, cfg) ==> InStep(w, obs, complete, cfg)
  {
    hide Tick, Refuses;
    var front, last := obs[..|obs| - 1], obs[|obs| - 1];
    var before := Run(w, front, complete, cfg);
    RefusingCompletes(before, last, ConnectedSince(front), complete, cfg);
    RefusingDecision(before, last, complete, cfg);
  }

  lemma {:induction false} UnexposedRun(w: Watch, obs: seq<Observation>, complete: CompleteCfg, cfg: Cfg)
    requires RefusingSession(w, obs, complete, cfg) && cfg.maxActions > 0
    requires w.session == IDLE && w.zeroDrawSinceMs.None?
    requires forall k :: 0 < k <= |obs| ==> !Exposed(obs[..k], complete, cfg)
    ensures InStep(w, obs, complete, cfg)
    ensures forall k :: 0 <= k < |obs| ==> ActionTaken(w, obs, complete, cfg, k).NoAction?
  {
    hide Exposed, Tick, Refuses, InStep;
    if obs != [] {
      var last := |obs| - 1;
      var front := obs[..last];
      assert obs[..|obs|] == obs;
      forall k | 0 < k <= |front| ensures front[..k] == obs[..k] {
      }
      UnexposedRun(w, front, complete, cfg);
      StaysInStep(w, obs, complete, cfg);
      forall k | 0 <= k < last ensures ActionTaken(w, obs, complete, cfg, k).NoAction? {
        assert front[..k] == obs[..k];
        assert ActionTaken(w, front, complete, cfg, k).NoAction?;
      }
    } else {
      NothingYet(w, complete, cfg);
    }
  }

  lemma NothingYet(w: Watch, complete: CompleteCfg, cfg: Cfg)
    requires w.deliveredKWh > complete.minKWh && w.session == IDLE && w.zeroDrawSinceMs.None?
    ensures InStep(w, [], complete, cfg)
  {
  }

  /** The first exposed tick of a run. */
  lemma {:induction false} FirstExposed(obs: seq<Observation>, complete: CompleteCfg, cfg: Cfg, k: nat) returns (j: nat)
    requires 0 < k <= |obs| && Exposed(obs[..k], complete, cfg)
    ensures 0 < j <= k && Exposed(obs[..j], complete, cfg)
    ensures forall i :: 0 < i < j ==> !Exposed(obs[..i], complete, cfg)
  {
    hide Exposed;
    if i :| 0 < i < k && Exposed(obs[..i], complete, cfg) {
      j := FirstExposed(obs, complete, cfg, i);
    } else {
      j := k;
    }
  }

  /**
   * In a session of a car that refuses current, whatever gaps the connection
   * has, recovery never acts exactly if no tick is exposed: seen for the grace
   * time, and connected for less than the settle time.
   */
  lemma RecoveryStaysOutIff(w: Watch, obs: seq<Observation>, complete: CompleteCfg, cfg: Cfg)
    requires RefusingSession(w, obs, complete, cfg) && cfg.maxActions > 0
    requires w.session == IDLE && w.zeroDrawSinceMs.None?
    ensures (forall k :: 0 <= k < |obs| ==> ActionTaken(w, obs, complete, cfg, k).NoAction?)
       <==> (forall k :: 0 < k <= |obs| ==> !Exposed(obs[..k], complete, cfg))
  {
    hide Exposed, Tick, Refuses, InStep;
    if k :| 0 < k <= |obs| && Exposed(obs[..k], complete, cfg) {
      var j := FirstExposed(obs, complete, cfg, k);
      var front, upTo := obs[..j - 1], obs[..j];
      forall i | 0 < i <= |front| ensures front[..i] == obs[..i] {
      }
      UnexposedRun(w, front, complete, cfg);
      assert upTo[..|upTo| - 1] == front;
      StaysInStep(w, upTo, complete, cfg);
      assert obs[..j - 1] == upTo[..j - 1];
      assert !ActionTaken(w, obs, complete, cfg, j - 1).NoAction?;
    } else {
      UnexposedRun(w, obs, complete, cfg);
    }
  }

  // ---------- the shipped thresholds ----------

  function FullCar(connected: bool, status: Status, now: int): Observation {
    Observation(false, connected, false, 0.0, 16.0, 0.0, 1.0, true, Some(status), None, None, false,
                false, true, true, true, now)
  }

  /** A full car that drops out once, half a minute into its refusal. */
  const DROP_OUT := [FullCar(true, SuspendedEV, 0), FullCar(false, Unavailable, 30_000),
                     FullCar(true, SuspendedEV, 60_000), FullCar(true, SuspendedEV, 90_000)]

  /** After a minute and a half its session is restarted, although it is done. */
  lemma DropOutIsRestarted(w: Watch)
    requires w.session == IDLE && w.zeroDrawSinceMs.None? && w.deliveredKWh > SESSION_COMPLETE.minKWh
    ensures RefusingSession(w, DROP_OUT, SESSION_COMPLETE, SESSION_RECONCILE)
    ensures ActionTaken(w, DROP_OUT, SESSION_COMPLETE, SESSION_RECONCILE, 3) == Resume
  {
    var obs := DROP_OUT;
    assert obs[..3][..2] == obs[..2] && obs[..2][..1] == obs[..1] && obs[..1][..0] == [];
    var w1 := Tick(w, obs[0], SESSION_COMPLETE, SESSION_RECONCILE).watch;
    var w2 := Tick(w1, obs[1], SESSION_COMPLETE, SESSION_RECONCILE).watch;
    var w3 := Tick(w2, obs[2], SESSION_COMPLETE, SESSION_RECONCILE).watch;
    RunOfThree(w, obs);
    hide Run;
    assert w1.session == State(Some(0), None, 0, 0, Some(SessionOpen)) && w1.deliveredKWh == w.deliveredKWh;
    assert w2.session == w1.session && w2.zeroDrawSinceMs.None?;
    assert w3.session == w1.session && w3.zeroDrawSinceMs == Some(60_000);
  }

  lemma RunOfThree(w: Watch, obs: seq<Observation>)
    requires |obs| >= 3
    ensures Run(w, obs[..3], SESSION_COMPLETE, SESSION_RECONCILE)
         == var w1 := Tick(w, obs[0], SESSION_COMPLETE, SESSION_RECONCILE).watch;
            var w2 := Tick(w1, obs[1], SESSION_COMPLETE, SESSION_RECONCILE).watch;
            Tick(w2, obs[2], SESSION_COMPLETE, SESSION_RECONCILE).watch
  {
    hide Tick;
    assert obs[..3][..2] == obs[..2] && obs[..2][..1] == obs[..1] && obs[..1][..0] == [];
    assert Run(w, obs[..1], SESSION_COMPLETE, SESSION_RECONCILE)
        == Tick(w, obs[0], SESSION_COMPLETE, SESSION_RECONCILE).watch;
  }
}
