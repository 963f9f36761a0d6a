/** The charging-session reconciler's decision core: src/core/session-reconciler.ts. */
module SessionReconciler {
  import opened Prelude

  datatype Status = Available | Preparing | Charging | SuspendedEVSE | SuspendedEV | Finishing | Reserved
                  | Unavailable | Faulted

  datatype Action = NoAction | RemoteStart | Resume | WakeCar | ClearProfile | Reset

  datatype Phase = NoSession | SessionOpen | PhaseFaulted

  datatype State = State(stalledSinceMs: Option<int>, lastActionMs: Option<int>, phaseAttempts: nat, totalActions: nat,
                         phase: Option<Phase>)

  const IDLE := State(None, None, 0, 0, None)

  datatype Cfg = Cfg(minDrawA: real, graceMs: int, cooldownMs: int, maxActions: nat)

  const SESSION_RECONCILE := Cfg(1.0, 90_000, 180_000, 6)

  datatype Input = Input(
    wantsCharge: bool, status: Option<Status>, drawingA: real, carPluggedIn: Option<bool>, carCharging: Option<bool>,
    carAtTarget: bool, sessionComplete: bool, vehicleCanActuate: bool, chargerCanRemoteStart: bool,
    chargerCanClearProfile: bool, chargerCanReset: bool, now: int)

  datatype Decision = Decision(action: Action, next: State)

  function PhaseOf(status: Option<Status>): Phase {
    match status
    case Some(Charging) => SessionOpen
    case Some(SuspendedEV) => SessionOpen
    case Some(SuspendedEVSE) => SessionOpen
    case Some(Faulted) => PhaseFaulted
    case _ => NoSession
  }

  function Rung(available: bool, action: Action): seq<Action> {
    if available then [action] else []
  }

  /** The levers the hardware can pull in a phase, mildest first. */
  function Ladder(i: Input, phase: Phase): seq<Action> {
    match phase
    case PhaseFaulted => Rung(i.chargerCanReset, Reset)
    case NoSession => Rung(i.chargerCanRemoteStart, RemoteStart) + Rung(i.chargerCanReset, Reset)
    case SessionOpen =>
      var wake, resume := Rung(i.vehicleCanActuate, WakeCar), Rung(i.chargerCanRemoteStart, Resume);
      (if i.carCharging == Some(false) then wake + resume else resume + wake)
      + Rung(i.chargerCanClearProfile, ClearProfile) + Rung(i.chargerCanReset, Reset)
  }

  function ChooseAction(i: Input, phase: Phase, attempt: nat): Action {
    var ladder := Ladder(i, phase);
    if ladder == [] then NoAction else ladder[if attempt < |ladder| then attempt else |ladder| - 1]
  }

  /** Nothing to recover: the episode is over. */
  predicate EndsEpisode(i: Input, cfg: Cfg) {
    || !i.wantsCharge
    || i.drawingA >= cfg.minDrawA
    || i.carCharging == Some(true)
    || i.carAtTarget
    || i.sessionComplete
    || (i.status == Some(Available) && i.carPluggedIn != Some(true))
  }

  function DecideSession(state: State, i: Input, cfg: Cfg): Decision {
    if EndsEpisode(i, cfg) then Decision(NoAction, IDLE)
    else if i.status == Some(Unavailable) || i.status.None? then Decision(NoAction, state)
    else
      var stalledSince := state.stalledSinceMs.GetOr(i.now);
      var phase := PhaseOf(i.status);
      var attempts := if state.phase == Some(phase) then state.phaseAttempts else 0;
      var base := state.(stalledSinceMs := Some(stalledSince), phase := Some(phase), phaseAttempts := attempts);
      if i.now - stalledSince < cfg.graceMs then Decision(NoAction, base)
      else if state.totalActions >= cfg.maxActions then Decision(NoAction, base)
      else if state.lastActionMs.Some? && i.now - state.lastActionMs.value < cfg.cooldownMs then
        Decision(NoAction, base)
      else
        var action := ChooseAction(i, phase, attempts);
        if action.NoAction? then Decision(NoAction, base)
        else Decision(action, State(Some(stalledSince), Some(i.now), attempts + 1, state.totalActions + 1, Some(phase)))
  }

  // ---------- runs ----------

  /** The state after a run of ticks. */
  function After(state: State, inputs: seq<Input>, cfg: Cfg): State {
    if inputs == [] then state
    else DecideSession(After(state, inputs[..|inputs| - 1], cfg), inputs[|inputs| - 1], cfg).next
  }

  /** What tick `k` of a run does. */
  function ActionAt(state: State, inputs: seq<Input>, cfg: Cfg, k: nat): Action
    requires k < |inputs|
  {
    DecideSession(After(state, inputs[..k], cfg), inputs[k], cfg).action
  }

  function Actions(state: State, inputs: seq<Input>, cfg: Cfg): nat {
    if inputs == [] then 0
    else
      var last := |inputs| - 1;
      Actions(state, inputs[..last], cfg) + if ActionAt(state, inputs, cfg, last).NoAction? then 0 else 1
  }

  ghost predicate TimeAdvances(inputs: seq<Input>) {
    forall i, j :: 0 <= i <= j < |inputs| ==> inputs[i].now <= inputs[j].now
  }

  ghost predicate NoReset(inputs: seq<Input>, cfg: Cfg) {
    forall i :: 0 <= i < |inputs| ==> !EndsEpisode(inputs[i], cfg)
  }

  ghost predicate Bounded(s: State, cfg: Cfg) {
    s.phaseAttempts <= s.totalActions <= cfg.maxActions
  }

  /** Attempts in the phase never exceed the actions of the episode, nor those the cap. */
  lemma {:induction false} CountersStayBounded(state: State, inputs: seq<Input>, cfg: Cfg)
    requires Bounded(state, cfg)
    ensures Bounded(After(state, inputs, cfg), cfg)
  {
    if inputs != [] {
      CountersStayBounded(state, inputs[..|inputs| - 1], cfg);
    }
  }

  /** The counter is the number of actions since the episode began. */
  lemma {:induction false} CounterCountsActions(state: State, inputs: seq<Input>, cfg: Cfg)
    requires NoReset(inputs, cfg)
    ensures After(state, inputs, cfg).totalActions == state.totalActions + Actions(state, inputs, cfg)
  {
    if inputs != [] {
      var last := |inputs| - 1;
      CounterCountsActions(state, inputs[..last], cfg);
    }
  }

  /** Between two episode resets at most `maxActions` actions are taken, whatever phases and Unavailable gaps
      the run goes through. */
  lemma EpisodeIsCapped(inputs: seq<Input>, cfg: Cfg, from: nat, to: nat)
    requires from <= to <= |inputs| && NoReset(inputs[from..to], cfg)
    ensures Actions(After(IDLE, inputs[..from], cfg), inputs[from..to], cfg) <= cfg.maxActions
  {
    CountersStayBounded(IDLE, inputs[..from], cfg);
    var start := After(IDLE, inputs[..from], cfg);
    CounterCountsActions(start, inputs[from..to], cfg);
    CountersStayBounded(start, inputs[from..to], cfg);
  }

  /** The last action is remembered, or the current stall began after it. */
  ghost predicate Remembers(s: State, lastAction: int) {
    if s.lastActionMs.Some? then s.lastActionMs.value == lastAction
    else s.stalledSinceMs.Some? ==> lastAction <= s.stalledSinceMs.value
  }

  lemma {:induction false} ActionIsRemembered(state: State, inputs: seq<Input>, cfg: Cfg, k: nat)
    requires TimeAdvances(inputs) && k < |inputs|
    requires !ActionAt(state, inputs, cfg, k).NoAction?
    requires forall j :: k < j < |inputs| ==> ActionAt(state, inputs, cfg, j).NoAction?
    ensures Remembers(After(state, inputs, cfg), inputs[k].now)
  {
    var last := |inputs| - 1;
    if k < last {
      forall j | 0 <= j < last ensures ActionAt(state, inputs[..last], cfg, j) == ActionAt(state, inputs, cfg, j) {
        assert inputs[..last][..j] == inputs[..j];
      }
      ActionIsRemembered(state, inputs[..last], cfg, k);
      assert ActionAt(state, inputs, cfg, last).NoAction?;
    }
  }

  function Smaller(a: int, b: int): int {
    if a <= b then a else b
  }

  /** Consecutive actions, even of different episodes, keep the smaller of grace and cooldown apart. */
  lemma NextActionIsSpaced(state: State, inputs: seq<Input>, cfg: Cfg, a: nat, b: nat)
    requires TimeAdvances(inputs) && a < b < |inputs|
    requires !ActionAt(state, inputs, cfg, a).NoAction? && !ActionAt(state, inputs, cfg, b).NoAction?
    requires forall j :: a < j < b ==> ActionAt(state, inputs, cfg, j).NoAction?
    ensures inputs[b].now - inputs[a].now >= Smaller(cfg.graceMs, cfg.cooldownMs)
  {
    var before := inputs[..b];
    forall j | 0 <= j < b ensures ActionAt(state, before, cfg, j) == ActionAt(state, inputs, cfg, j) {
      assert before[..j] == inputs[..j];
    }
    ActionIsRemembered(state, before, cfg, a);
  }

  /** So do any two actions of a run. */
  lemma {:induction false} ActionsAreSpaced(state: State, inputs: seq<Input>, cfg: Cfg, a: nat, b: nat)
    requires TimeAdvances(inputs) && a < b < |inputs|
    requires !ActionAt(state, inputs, cfg, a).NoAction? && !ActionAt(state, inputs, cfg, b).NoAction?
    ensures inputs[b].now - inputs[a].now >= Smaller(cfg.graceMs, cfg.cooldownMs)
    decreases b - a
  {
    if j :| a < j < b && !ActionAt(state, inputs, cfg, j).NoAction? {
      ActionsAreSpaced(state, inputs, cfg, a, j);
    } else {
      NextActionIsSpaced(state, inputs, cfg, a, b);
    }
  }

  // ---------- the escalation ----------

  /** Every tick of the run has the same levers and the same car signal, and sees `phase` or no charger. */
  ghost predicate SamePhase(inputs: seq<Input>, cfg: Cfg, phase: Phase, ladder: seq<Action>) {
    && NoReset(inputs, cfg)
    && (forall i :: 0 <= i < |inputs| ==> Ladder(inputs[i], phase) == ladder)
    && (forall i :: 0 <= i < |inputs| ==>
         inputs[i].status == Some(Unavailable) || inputs[i].status.None? || PhaseOf(inputs[i].status) == phase)
  }

  lemma {:induction false} AttemptsCountActions(state: State, inputs: seq<Input>, cfg: Cfg, phase: Phase,
                                                ladder: seq<Action>)
    requires SamePhase(inputs, cfg, phase, ladder) && (state.phase == Some(phase) ==> state.phaseAttempts == 0)
    ensures var s := After(state, inputs, cfg);
      if s.phase == Some(phase)
      then s.phaseAttempts == Actions(state, inputs, cfg)
      else Actions(state, inputs, cfg) == 0
  {
    if inputs != [] {
      var last := |inputs| - 1;
      AttemptsCountActions(state, inputs[..last], cfg, phase, ladder);
      assert !EndsEpisode(inputs[last], cfg);
    }
  }

  /** While the phase lasts, the action after `j` others is rung `j` of the ladder, or its last rung. */
  lemma ActionsClimbTheLadder(state: State, inputs: seq<Input>, cfg: Cfg, phase: Phase, ladder: seq<Action>, k: nat)
    requires SamePhase(inputs, cfg, phase, ladder) && (state.phase == Some(phase) ==> state.phaseAttempts == 0)
    requires k < |inputs| && !ActionAt(state, inputs, cfg, k).NoAction?
    ensures var j := Actions(state, inputs[..k], cfg);
      ladder != [] && ActionAt(state, inputs, cfg, k) == ladder[if j < |ladder| then j else |ladder| - 1]
  {
    AttemptsCountActions(state, inputs[..k], cfg, phase, ladder);
    assert !EndsEpisode(inputs[k], cfg);
  }
}
