/**
  When a session is complete and when recovery acts, told by what the ticks of a run observe: the decisions of
  src/core/smart-charging/session-complete.ts and src/core/session-reconciler.ts without their timers and counters.
 */
module Recovery {
  import opened Prelude
  import opened SessionReconciler
  import opened SessionComplete
  import SessionGaps

  ghost predicate TimePasses(obs: seq<Observation>) {
    forall i, j :: 0 <= i <= j < |obs| ==> obs[i].now <= obs[j].now
  }

  // ---------- completion ----------

  /** Tick `k` has its car deliver something, in this plug-in, above the threshold. */
  ghost predicate HasDelivered(obs: seq<Observation>, complete: CompleteCfg, k: nat)
    requires k < |obs|
  {
    exists j :: 0 <= j <= k && DeliversFrom(obs, complete, j, k)
  }

  ghost predicate DeliversFrom(obs: seq<Observation>, complete: CompleteCfg, j: nat, k: nat)
    requires j <= k < |obs|
  {
    obs[j].sessionEnergyKWh > complete.minKWh && forall i :: j < i <= k ==> !obs[i].unplugged
  }

  /** A plugged-in car that is not climatising, has been charged and does not draw. */
  ghost predicate MayBeDone(obs: seq<Observation>, complete: CompleteCfg, k: nat)
    requires k < |obs|
  {
    obs[k].connected && !obs[k].climateActive && obs[k].drawingA < complete.drawA && HasDelivered(obs, complete, k)
  }

  /** From tick `j` to tick `k` the car refused what it was offered, without being unplugged. */
  ghost predicate Refuses(obs: seq<Observation>, complete: CompleteCfg, j: nat, k: nat)
    requires j <= k < |obs|
  {
    && (forall i :: j <= i <= k ==> MayBeDone(obs, complete, i) && obs[i].commandedA > 0.0)
    && (forall i :: j < i <= k ==> !obs[i].unplugged)
  }

  /** What the watch holds after a run from a fresh one. */
  ghost predicate Watches(obs: seq<Observation>, complete: CompleteCfg, w: Watch) {
    if obs == [] then w.deliveredKWh == 0.0 && w.zeroDrawSinceMs.None?
    else
      var k := |obs| - 1;
      && (w.deliveredKWh > complete.minKWh <==> HasDelivered(obs, complete, k))
      && (match w.zeroDrawSinceMs
          case None => forall j :: 0 <= j <= k ==> !Refuses(obs, complete, j, k)
          case Some(since) =>
            && (exists j :: 0 <= j <= k && Refuses(obs, complete, j, k) && obs[j].now == since)
            && (forall j :: 0 <= j <= k && Refuses(obs, complete, j, k) ==> since <= obs[j].now))
  }

  ghost predicate Completes(obs: seq<Observation>, complete: CompleteCfg, k: nat)
    requires k < |obs|
  {
    && MayBeDone(obs, complete, k)
    && (|| (obs[k].requiredKWh <= 0.0 && obs[k].pauseOnTarget)
        || exists j :: 0 <= j <= k && Refuses(obs, complete, j, k) && obs[k].now - obs[j].now >= complete.settleMs)
  }

  lemma DeliveredStep(obs: seq<Observation>, complete: CompleteCfg, w: Watch)
    requires obs != [] && complete.minKWh >= 0.0 && Watches(obs[..|obs| - 1], complete, w)
    ensures Delivered(w, obs[|obs| - 1]) > complete.minKWh <==> HasDelivered(obs, complete, |obs| - 1)
  {
    hide MayBeDone, Refuses;
    var k, front := |obs| - 1, obs[..|obs| - 1];
    if Delivered(w, obs[k]) > complete.minKWh {
      if obs[k].sessionEnergyKWh > complete.minKWh {
        assert DeliversFrom(obs, complete, k, k);
      } else {
        var j :| 0 <= j <= k - 1 && DeliversFrom(front, complete, j, k - 1);
        assert DeliversFrom(obs, complete, j, k);
      }
    }
    if j :| 0 <= j <= k && DeliversFrom(obs, complete, j, k) && j < k {
      assert DeliversFrom(front, complete, j, k - 1);
    }
  }

  lemma {:induction false} EarlierStays(obs: seq<Observation>, complete: CompleteCfg, k: nat)
    requires k < |obs| - 1
    ensures HasDelivered(obs[..|obs| - 1], complete, k) <==> HasDelivered(obs, complete, k)
    ensures MayBeDone(obs[..|obs| - 1], complete, k) <==> MayBeDone(obs, complete, k)
  {
    var front := obs[..|obs| - 1];
    forall j | 0 <= j <= k ensures DeliversFrom(front, complete, j, k) <==> DeliversFrom(obs, complete, j, k) {
    }
  }

  lemma RefusesStep(obs: seq<Observation>, complete: CompleteCfg, j: nat)
    requires j < |obs| - 1
    ensures Refuses(obs, complete, j, |obs| - 1)
       <==> Refuses(obs[..|obs| - 1], complete, j, |obs| - 2) && Refuses(obs, complete, |obs| - 1, |obs| - 1)
            && !obs[|obs| - 1].unplugged
  {
    hide MayBeDone;
    var front := obs[..|obs| - 1];
    forall i | j <= i <= |obs| - 2 ensures MayBeDone(front, complete, i) <==> MayBeDone(obs, complete, i) {
      EarlierStays(obs, complete, i);
    }
    assert forall i :: j <= i <= |obs| - 2 ==> front[i] == obs[i];
  }

  /** The result of one tick, in terms of the observation and the two things the watch remembers. */
  lemma TickCompletes(w: Watch, o: Observation, complete: CompleteCfg, cfg: Cfg)
    ensures var out := Tick(w, o, complete, cfg);
      var able := o.connected && !o.climateActive && Delivered(w, o) > complete.minKWh && o.drawingA < complete.drawA;
      var since := if o.unplugged then None else w.zeroDrawSinceMs;
      && out.watch.deliveredKWh == Delivered(w, o)
      && out.watch.zeroDrawSinceMs == (if able && o.commandedA > 0.0 then Some(since.GetOr(o.now)) else None)
      && var refused := o.commandedA > 0.0 && o.now - since.GetOr(o.now) >= complete.settleMs;
         (out.complete <==> able && ((o.requiredKWh <= 0.0 && o.pauseOnTarget) || refused))
  {
    hide DecideSession;
  }

  lemma {:induction false} WatchesRuns(obs: seq<Observation>, complete: CompleteCfg, cfg: Cfg)
    requires TimePasses(obs) && complete.minKWh >= 0.0
    ensures Watches(obs, complete, Run(FRESH, obs, complete, cfg))
  {
    hide Tick, MayBeDone, HasDelivered, Refuses;
    if obs != [] {
      var k, front := |obs| - 1, obs[..|obs| - 1];
      WatchesRuns(front, complete, cfg);
      var before := Run(FRESH, front, complete, cfg);
      WatchStep(obs, complete, cfg, before);
    }
  }

  lemma RefusesLast(obs: seq<Observation>, complete: CompleteCfg)
    requires obs != []
    ensures var k := |obs| - 1;
      Refuses(obs, complete, k, k) <==> MayBeDone(obs, complete, k) && obs[k].commandedA > 0.0
  {
    hide MayBeDone;
  }

  /** One more tick, and what it says of completion. */
  lemma WatchStep(obs: seq<Observation>, complete: CompleteCfg, cfg: Cfg, before: Watch)
    requires obs != [] && TimePasses(obs) && complete.minKWh >= 0.0
    requires Watches(obs[..|obs| - 1], complete, before)
    ensures var out := Tick(before, obs[|obs| - 1], complete, cfg);
      && Watches(obs, complete, out.watch)
      && (out.complete <==> Completes(obs, complete, |obs| - 1))
  {
    hide Tick, HasDelivered, Refuses, Delivered;
    var k, front := |obs| - 1, obs[..|obs| - 1];
    var o := obs[k];
    var out := Tick(before, o, complete, cfg);
    DeliveredStep(obs, complete, before);
    TickCompletes(before, o, complete, cfg);
    RefusesLast(obs, complete);
    forall j | 0 <= j < k
      ensures Refuses(obs, complete, j, k)
         <==> Refuses(front, complete, j, k - 1) && Refuses(obs, complete, k, k) && !o.unplugged
    {
      RefusesStep(obs, complete, j);
    }
    assert forall j :: 0 <= j < k ==> front[j] == obs[j];
    var since := if o.unplugged then None else before.zeroDrawSinceMs;
    if Refuses(obs, complete, k, k) {
      if since.Some? {
        var j :| 0 <= j < k && Refuses(front, complete, j, k - 1) && front[j].now == since.value;
        assert Refuses(obs, complete, j, k) && obs[j].now == since.value;
      } else {
        assert obs[k].now == o.now;
      }
    } else {
      NoneRefuses(obs, complete, k);
    }
  }

  lemma NoneRefuses(obs: seq<Observation>, complete: CompleteCfg, k: nat)
    requires k < |obs| && !Refuses(obs, complete, k, k)
    ensures forall j :: 0 <= j <= k ==> !Refuses(obs, complete, j, k)
  {
    hide MayBeDone;
  }

  lemma CompleteInPrefix(obs: seq<Observation>, complete: CompleteCfg, k: nat)
    requires k < |obs|
    ensures Completes(obs[..k + 1], complete, k) <==> Completes(obs, complete, k)
  {
    var front := obs[..k + 1];
    forall i | 0 <= i <= k ensures MayBeDone(front, complete, i) <==> MayBeDone(obs, complete, i) {
      forall j | 0 <= j <= i ensures DeliversFrom(front, complete, j, i) <==> DeliversFrom(obs, complete, j, i) {
      }
    }
    hide MayBeDone;
    forall j | 0 <= j <= k ensures Refuses(front, complete, j, k) <==> Refuses(obs, complete, j, k) {
    }
  }

  /**
   * A session completes exactly when its car, plugged in and charged before in
   * this plug-in, does not draw and either has reached a target that pauses or
   * has refused what it was offered for the settle time.
   */
  lemma CompletesIff(obs: seq<Observation>, complete: CompleteCfg, cfg: Cfg, k: nat)
    requires TimePasses(obs) && complete.minKWh >= 0.0 && k < |obs|
    ensures Tick(Run(FRESH, obs[..k], complete, cfg), obs[k], complete, cfg).complete <==> Completes(obs, complete, k)
  {
    hide Tick, Completes, Watches;
    var front := obs[..k + 1];
    assert front[..k] == obs[..k];
    WatchesRuns(obs[..k], complete, cfg);
    WatchStep(front, complete, cfg, Run(FRESH, obs[..k], complete, cfg));
    CompleteInPrefix(obs, complete, k);
  }

  // ---------- the levers ----------

  predicate HoldsSession(status: Option<Status>) {
    status == Some(Charging) || status == Some(SuspendedEV) || status == Some(SuspendedEVSE)
  }


  /** The order of escalation, for hardware that can do everything. */
  function Escalation(o: Observation): seq<Action> {
    if o.status == Some(Faulted) then [Reset]
    else if !HoldsSession(o.status) then [RemoteStart, Reset]
    else if o.carCharging == Some(false) then [WakeCar, Resume, ClearProfile, Reset]
    else [Resume, WakeCar, ClearProfile, Reset]
  }

  predicate CanPull(o: Observation, action: Action) {
    match action
    case NoAction => false
    case RemoteStart => o.chargerCanRemoteStart
    case Resume => o.chargerCanRemoteStart
    case WakeCar => o.vehicleCanActuate
    case ClearProfile => o.chargerCanClearProfile
    case Reset => o.chargerCanReset
  }

  function Pullable(o: Observation, actions: seq<Action>): seq<Action> {
    if actions == [] then []
    else (if CanPull(o, actions[0]) then [actions[0]] else []) + Pullable(o, actions[1..])
  }

  function Levers(o: Observation): seq<Action> {
    Pullable(o, Escalation(o))
  }

  lemma Pull(o: Observation, first: Action, rest: seq<Action>)
    ensures Pullable(o, []) == []
    ensures Pullable(o, [first] + rest) == Rung(CanPull(o, first), first) + Pullable(o, rest)
  {
    assert ([first] + rest)[1..] == rest;
  }

  lemma PullTwo(o: Observation, a: Action, b: Action)
    ensures Pullable(o, [a, b]) == Rung(CanPull(o, a), a) + Rung(CanPull(o, b), b)
  {
    hide Pullable, CanPull;
    Pull(o, b, []);
    Pull(o, a, [b]);
    assert [b] + [] == [b] && [a] + [b] == [a, b];
  }

  lemma PullFour(o: Observation, a: Action, b: Action, c: Action, d: Action)
    ensures Pullable(o, [a, b, c, d])
         == Rung(CanPull(o, a), a) + Rung(CanPull(o, b), b) + Rung(CanPull(o, c), c) + Rung(CanPull(o, d), d)
  {
    hide Pullable, CanPull, Rung;
    PullTwo(o, c, d);
    Pull(o, b, [c, d]);
    Pull(o, a, [b, c, d]);
    assert [b] + [c, d] == [b, c, d] && [a] + [b, c, d] == [a, b, c, d];
  }

  /** The ladder is the order of escalation without what the hardware cannot do. */
  lemma LadderIs(o: Observation, complete: bool)
    ensures Ladder(ReconcilerInput(o, complete), PhaseOf(o.status)) == Levers(o)
  {
    hide Pullable, Rung;
    Pull(o, Reset, []);
    assert [Reset] + [] == [Reset];
    assert Pullable(o, [Reset]) == Rung(o.chargerCanReset, Reset);
    PullTwo(o, RemoteStart, Reset);
    PullFour(o, WakeCar, Resume, ClearProfile, Reset);
    PullFour(o, Resume, WakeCar, ClearProfile, Reset);
  }

  lemma {:induction false} LeversAct(o: Observation, actions: seq<Action>)
    ensures forall k :: 0 <= k < |Pullable(o, actions)| ==> !Pullable(o, actions)[k].NoAction?
  {
    if actions != [] {
      LeversAct(o, actions[1..]);
    }
  }

  // ---------- the log of a run ----------

  /** What matters of a tick: whether nothing needs recovery, what the charger said, whether an action was taken. */
  datatype Note = Note(well: bool, status: Option<Status>, acted: bool, now: int) {
    predicate Seen() {
      status.Some? && status != Some(Unavailable)
    }
  }

  /** Tick `k` shows one of the six signs that there is nothing to recover. */
  ghost predicate Well(obs: seq<Observation>, complete: CompleteCfg, cfg: Cfg, k: nat)
    requires k < |obs|
  {
    || obs[k].commandedA <= 0.0
    || obs[k].drawingA >= cfg.minDrawA
    || obs[k].carCharging == Some(true)
    || obs[k].carAtTarget
    || Completes(obs, complete, k)
    || (obs[k].status == Some(Available) && obs[k].carPluggedIn != Some(true))
  }

  ghost function Log(obs: seq<Observation>, complete: CompleteCfg, cfg: Cfg): (log: seq<Note>)
    ensures |log| == |obs|
    ensures forall k :: 0 <= k < |obs| ==> log[k] == NoteOf(obs, complete, cfg, k)
  {
    seq(|obs|, k requires 0 <= k < |obs| => NoteOf(obs, complete, cfg, k))
  }

  ghost function NoteOf(obs: seq<Observation>, complete: CompleteCfg, cfg: Cfg, k: nat): Note
    requires k < |obs|
  {
    Note(Well(obs, complete, cfg, k), obs[k].status, !ActionTaken(FRESH, obs, complete, cfg, k).NoAction?, obs[k].now)
  }

  /** From tick `i` to tick `k` there was something to recover. */
  ghost predicate Lasts(log: seq<Note>, i: nat, k: nat)
    requires i <= k < |log|
  {
    forall m :: i <= m <= k ==> !log[m].well
  }

  /** The actions taken before tick `n` since there was last nothing to recover, as of tick `k`. */
  ghost function Acts(log: seq<Note>, n: nat, k: nat): set<int>
    requires n <= k + 1 <= |log|
  {
    set i | 0 <= i < n && log[i].acted && Lasts(log, i, k)
  }

  /** Those since when the charger was in the same phase, as far as it was in sight. */
  ghost function PhaseActs(log: seq<Note>, n: nat, k: nat): set<int>
    requires n <= k + 1 <= |log|
  {
    set i | i in Acts(log, n, k) && InPhase(log, i, k, PhaseOf(log[k].status))
  }

  ghost predicate InPhase(log: seq<Note>, i: nat, k: nat, phase: Phase)
    requires i <= k < |log|
  {
    forall m :: i <= m <= k && log[m].Seen() ==> PhaseOf(log[m].status) == phase
  }

  ghost predicate Increasing(log: seq<Note>) {
    forall i, j :: 0 <= i <= j < |log| ==> log[i].now <= log[j].now
  }

  // ---------- what the reconciler remembers of it ----------

  /** The stall began when the charger was first in sight. */
  ghost predicate TellsStall(log: seq<Note>, s: State)
    requires log != []
  {
    var k := |log| - 1;
    match s.stalledSinceMs
    case None => forall i :: 0 <= i <= k && Lasts(log, i, k) ==> !log[i].Seen()
    case Some(since) =>
      && (exists i :: 0 <= i <= k && Lasts(log, i, k) && log[i].Seen() && log[i].now == since)
      && (forall i :: 0 <= i <= k && Lasts(log, i, k) && log[i].Seen() ==> since <= log[i].now)
  }

  /** The state counts these actions, and remembers when the last of them was. */
  ghost predicate Counts(log: seq<Note>, acts: set<int>, s: State)
    requires forall i :: i in acts ==> 0 <= i < |log|
  {
    && s.totalActions == |acts|
    && match s.lastActionMs
       case None => acts == {}
       case Some(at) => (exists i :: i in acts && log[i].now == at) && forall i :: i in acts ==> log[i].now <= at
  }

  ghost predicate TellsActs(log: seq<Note>, s: State)
    requires log != []
  {
    var acts := Acts(log, |log|, |log| - 1);
    Counts(log, acts, s)
  }

  ghost function ActsInPhase(log: seq<Note>, k: nat, phase: Phase): set<int>
    requires k < |log|
  {
    set i | i in Acts(log, k + 1, k) && InPhase(log, i, k, phase)
  }

  /** The phase is that of the last tick in sight. */
  ghost predicate TellsPhase(log: seq<Note>, s: State)
    requires log != []
  {
    var k := |log| - 1;
    match s.phase
    case None => s.phaseAttempts == 0 && forall i :: 0 <= i <= k && Lasts(log, i, k) ==> !log[i].Seen()
    case Some(phase) =>
      && s.phaseAttempts == |ActsInPhase(log, |log| - 1, phase)|
      && exists i :: 0 <= i <= k && Lasts(log, i, k) && LastSeen(log, i) && PhaseOf(log[i].status) == phase
  }

  ghost predicate LastSeen(log: seq<Note>, i: nat)
    requires i < |log|
  {
    log[i].Seen() && forall m :: i < m < |log| ==> !log[m].Seen()
  }

  ghost predicate Tells(log: seq<Note>, s: State) {
    if log == [] then s == IDLE else TellsStall(log, s) && TellsActs(log, s) && TellsPhase(log, s)
  }

  /** Ticks that are acted upon have the charger in sight. */
  ghost predicate ActsOnSight(log: seq<Note>) {
    forall i :: 0 <= i < |log| && log[i].acted ==> log[i].Seen() && !log[i].well
  }

  /** A tick with nothing to recover starts afresh. */
  lemma WellTells(log: seq<Note>)
    requires log != [] && log[|log| - 1].well
    ensures Tells(log, IDLE)
  {
    var k := |log| - 1;
    assert forall i :: 0 <= i <= k ==> !Lasts(log, i, k);
    assert Acts(log, |log|, k) == {};
  }

  lemma LastsStep(log: seq<Note>, i: nat)
    requires |log| >= 2 && i < |log| - 1 && !log[|log| - 1].well
    ensures Lasts(log, i, |log| - 1) <==> Lasts(log[..|log| - 1], i, |log| - 2)
  {
    assert forall m :: 0 <= m < |log| - 1 ==> log[..|log| - 1][m] == log[m];
  }

  lemma ActsStep(log: seq<Note>)
    requires log != [] && !log[|log| - 1].well
    ensures Acts(log, |log| - 1, |log| - 1) == if |log| == 1 then {} else Acts(log[..|log| - 1], |log| - 1, |log| - 2)
    ensures Acts(log, |log|, |log| - 1)
         == Acts(log, |log| - 1, |log| - 1) + if log[|log| - 1].acted then {|log| - 1} else {}
  {
    var front := log[..|log| - 1];
    var k := |log| - 1;
    forall i | 0 <= i < k ensures Lasts(log, i, k) <==> Lasts(front, i, k - 1) {
      LastsStep(log, i);
    }
    assert Lasts(log, k, k);
  }

  lemma ActsRange(log: seq<Note>, n: nat, k: nat)
    requires n <= k + 1 <= |log|
    ensures forall i :: i in Acts(log, n, k) ==> 0 <= i < n && log[i].acted
  {
    hide Lasts;
  }

  lemma StallStep(log: seq<Note>, s: State, next: State)
    requires log != [] && Increasing(log) && !log[|log| - 1].well && Tells(log[..|log| - 1], s)
    requires next.stalledSinceMs
          == if log[|log| - 1].Seen() then Some(s.stalledSinceMs.GetOr(log[|log| - 1].now)) else s.stalledSinceMs
    ensures TellsStall(log, next)
  {
    hide Lasts, TellsActs, TellsPhase;
    var k, front := |log| - 1, log[..|log| - 1];
    forall i | 0 <= i < k ensures Lasts(log, i, k) <==> Lasts(front, i, k - 1) {
      LastsStep(log, i);
    }
    LastsAlone(log, k);
    assert forall i :: 0 <= i < k ==> front[i] == log[i];
    if front != [] && s.stalledSinceMs.Some? {
      var i :| 0 <= i <= k - 1 && Lasts(front, i, k - 1) && front[i].Seen() && front[i].now == s.stalledSinceMs.value;
      assert Lasts(log, i, k) && log[i].Seen();
    }
  }

  lemma LastsAlone(log: seq<Note>, k: nat)
    requires k < |log|
    ensures Lasts(log, k, k) <==> !log[k].well
  {
  }

  lemma CountsStep(log: seq<Note>, before: set<int>, k: nat, s: State, next: State)
    requires k < |log| && Increasing(log) && (forall i :: i in before ==> 0 <= i < k) && Counts(log, before, s)
    requires log[k].acted ==> next.lastActionMs == Some(log[k].now) && next.totalActions == s.totalActions + 1
    requires !log[k].acted ==> next.lastActionMs == s.lastActionMs && next.totalActions == s.totalActions
    ensures Counts(log, before + if log[k].acted then {k} else {}, next)
  {
    if log[k].acted {
      var after := before + {k};
      assert |after| == |before| + 1;
      assert k in after;
    } else {
      assert before + {} == before;
    }
  }

  lemma LastActStep(log: seq<Note>, s: State, next: State)
    requires log != [] && Increasing(log) && !log[|log| - 1].well && Tells(log[..|log| - 1], s)
    requires log[|log| - 1].acted ==>
      next.lastActionMs == Some(log[|log| - 1].now) && next.totalActions == s.totalActions + 1
    requires !log[|log| - 1].acted ==> next.lastActionMs == s.lastActionMs && next.totalActions == s.totalActions
    ensures TellsActs(log, next)
  {
    hide TellsStall, TellsPhase, Lasts, Counts, Increasing;
    var k, front := |log| - 1, log[..|log| - 1];
    ActsStep(log);
    ActsRange(log, k, k);
    ActsRange(log, k + 1, k);
    CountsBefore(log, s);
    hide Acts, Tells;
    CountsStep(log, Acts(log, k, k), k, s, next);
    TellsActsIs(log, next);
  }

  lemma TellsActsIs(log: seq<Note>, s: State)
    requires log != []
    ensures var acts := Acts(log, |log|, |log| - 1);
      && (forall i :: i in acts ==> 0 <= i < |log|)
      && (TellsActs(log, s) <==> Counts(log, acts, s))
  {
    hide Lasts;
  }

  lemma CountsBefore(log: seq<Note>, s: State)
    requires log != [] && !log[|log| - 1].well && Tells(log[..|log| - 1], s)
    ensures var acts := Acts(log, |log| - 1, |log| - 1);
      && (forall i :: i in acts ==> 0 <= i < |log| - 1)
      && Counts(log, acts, s)
  {
    hide TellsStall, TellsPhase, Lasts;
    var k, front := |log| - 1, log[..|log| - 1];
    ActsStep(log);
    ActsRange(log, k, k);
    assert forall i :: 0 <= i < k ==> front[i] == log[i];
    if front != [] {
      TellsActsIs(front, s);
      hide Acts, TellsActs;
      var acts := Acts(front, k, k - 1);
      assert Counts(front, acts, s);
      if s.lastActionMs.Some? {
        var i :| i in acts && front[i].now == s.lastActionMs.value;
        assert i in acts && log[i].now == s.lastActionMs.value;
      }
    }
  }

  lemma InPhaseStep(log: seq<Note>, i: nat, phase: Phase)
    requires |log| >= 2 && i < |log| - 1
    ensures InPhase(log, i, |log| - 1, phase)
       <==> InPhase(log[..|log| - 1], i, |log| - 2, phase)
            && (log[|log| - 1].Seen() ==> PhaseOf(log[|log| - 1].status) == phase)
  {
    var front := log[..|log| - 1];
    assert forall m :: 0 <= m < |log| - 1 ==> front[m] == log[m];
  }

  /** In sight: the attempts of the phase go on, or start again in another one. */
  lemma PhaseGoesOn(log: seq<Note>, s: State, phase: Phase)
    requires log != [] && ActsOnSight(log) && !log[|log| - 1].well && Tells(log[..|log| - 1], s)
    requires log[|log| - 1].Seen() && phase == PhaseOf(log[|log| - 1].status)
    ensures |PhaseActs(log, |log| - 1, |log| - 1)| == if s.phase == Some(phase) then s.phaseAttempts else 0
    ensures ActsInPhase(log, |log| - 1, phase)
         == PhaseActs(log, |log| - 1, |log| - 1) + if log[|log| - 1].acted then {|log| - 1} else {}
  {
    hide TellsStall, TellsActs, Lasts;
    var k, front := |log| - 1, log[..|log| - 1];
    ActsStep(log);
    AloneInPhase(log, k, phase);
    if front != [] {
      forall i | 0 <= i < k ensures InPhase(log, i, k, phase) <==> InPhase(front, i, k - 1, phase) {
        InPhaseStep(log, i, phase);
      }
      ActsRange(log, k, k);
      ActsRange(log, k + 1, k);
      hide InPhase, Acts, TellsPhase;
      assert PhaseActs(log, k, k) == ActsInPhase(front, k - 1, phase);
      FrontInPhase(front, s, phase);
    } else {
      assert PhaseActs(log, k, k) == {};
    }
  }

  lemma AloneInPhase(log: seq<Note>, k: nat, phase: Phase)
    requires k < |log| && phase == PhaseOf(log[k].status)
    ensures InPhase(log, k, k, phase)
  {
  }

  lemma FrontInPhase(log: seq<Note>, s: State, phase: Phase)
    requires log != [] && ActsOnSight(log) && TellsPhase(log, s)
    ensures |ActsInPhase(log, |log| - 1, phase)| == if s.phase == Some(phase) then s.phaseAttempts else 0
  {
    hide Lasts;
    if s.phase != Some(phase) {
      var k := |log| - 1;
      ActsRange(log, k + 1, k);
      forall i | i in Acts(log, k + 1, k) ensures !InPhase(log, i, k, phase) {
        if s.phase.Some? {
          var last :| 0 <= last <= k && LastSeen(log, last) && PhaseOf(log[last].status) == s.phase.value;
          SeenNotAfter(log, i, last);
        }
      }
      assert ActsInPhase(log, k, phase) == {};
    }
  }

  lemma SeenNotAfter(log: seq<Note>, i: nat, last: nat)
    requires i < |log| && last < |log| && log[i].Seen() && LastSeen(log, last)
    ensures i <= last
  {
  }

  lemma PhaseStep(log: seq<Note>, s: State, next: State)
    requires log != [] && ActsOnSight(log) && !log[|log| - 1].well && Tells(log[..|log| - 1], s)
    requires log[|log| - 1].Seen() ==>
      var phase := PhaseOf(log[|log| - 1].status);
      && next.phase == Some(phase)
      && next.phaseAttempts
           == (if s.phase == Some(phase) then s.phaseAttempts else 0) + (if log[|log| - 1].acted then 1 else 0)
    requires !log[|log| - 1].Seen() ==> next.phase == s.phase && next.phaseAttempts == s.phaseAttempts
    ensures TellsPhase(log, next)
  {
    hide TellsStall, TellsActs, Lasts;
    var k, front := |log| - 1, log[..|log| - 1];
    LastsAlone(log, k);
    if log[k].Seen() {
      var phase := PhaseOf(log[k].status);
      PhaseGoesOn(log, s, phase);
      assert LastSeen(log, k);
      assert k !in PhaseActs(log, k, k);
    } else {
      PhaseStands(log, s, next);
    }
  }

  /** Out of sight nothing is remembered anew. */
  lemma PhaseStands(log: seq<Note>, s: State, next: State)
    requires log != [] && ActsOnSight(log) && !log[|log| - 1].well && Tells(log[..|log| - 1], s)
    requires !log[|log| - 1].Seen() && next.phase == s.phase && next.phaseAttempts == s.phaseAttempts
    ensures TellsPhase(log, next)
  {
    hide TellsStall, TellsActs, Lasts;
    var k, front := |log| - 1, log[..|log| - 1];
    assert forall i :: 0 <= i < k ==> front[i] == log[i];
    forall i | 0 <= i < k ensures Lasts(log, i, k) <==> Lasts(front, i, k - 1) {
      LastsStep(log, i);
    }
    if s.phase.Some? {
      var phase := s.phase.value;
      var i :| 0 <= i <= k - 1 && Lasts(front, i, k - 1) && LastSeen(front, i) && PhaseOf(front[i].status) == phase;
      assert Lasts(log, i, k) && LastSeen(log, i);
      ActsStep(log);
      forall j | 0 <= j < k ensures InPhase(log, j, k, phase) <==> InPhase(front, j, k - 1, phase) {
        InPhaseStep(log, j, phase);
      }
      hide InPhase;
      assert ActsInPhase(log, |log| - 1, phase) == ActsInPhase(front, k - 1, phase);
    }
  }

  // ---------- exactly when recovery acts ----------

  /** One decision, with its six signs written out. */
  lemma DecisionIs(s: State, i: Input, cfg: Cfg)
    ensures var d := DecideSession(s, i, cfg);
      var well := !i.wantsCharge || i.drawingA >= cfg.minDrawA || i.carCharging == Some(true) || i.carAtTarget
        || i.sessionComplete || (i.status == Some(Available) && i.carPluggedIn != Some(true));
      var seen := i.status.Some? && i.status != Some(Unavailable);
      var phase := PhaseOf(i.status);
      var since := s.stalledSinceMs.GetOr(i.now);
      var attempts := if s.phase == Some(phase) then s.phaseAttempts else 0;
      var acts := !well && seen && i.now - since >= cfg.graceMs && s.totalActions < cfg.maxActions
        && (s.lastActionMs.Some? ==> i.now - s.lastActionMs.value >= cfg.cooldownMs) && Ladder(i, phase) != [];
      && (well ==> d.next == IDLE)
      && (!well && !seen ==> d.next == s)
      && (!well && seen ==>
            && d.next.stalledSinceMs == Some(since) && d.next.phase == Some(phase)
            && d.next.phaseAttempts == attempts + (if acts then 1 else 0)
            && d.next.totalActions == s.totalActions + (if acts then 1 else 0)
            && d.next.lastActionMs == if acts then Some(i.now) else s.lastActionMs)
      && (!d.action.NoAction? <==> acts)
      && (acts ==> d.action == ChooseAction(i, phase, attempts))
  {
    var phase := PhaseOf(i.status);
    var attempts := if s.phase == Some(phase) then s.phaseAttempts else 0;
    RungActs(i, phase, attempts);
    hide Ladder, ChooseAction;
  }

  lemma RungActs(i: Input, phase: Phase, attempts: nat)
    ensures ChooseAction(i, phase, attempts).NoAction? <==> Ladder(i, phase) == []
  {
    var ladder := Ladder(i, phase);
    assert forall k :: 0 <= k < |ladder| ==> !ladder[k].NoAction?;
  }

  /** Every condition under which tick `k` may act, told by the log up to it. */
  ghost predicate Due(log: seq<Note>, cfg: Cfg, k: nat)
    requires k < |log|
  {
    && log[k].Seen() && !log[k].well
    && (exists i :: 0 <= i <= k && Lasts(log, i, k) && log[i].Seen() && log[k].now - log[i].now >= cfg.graceMs)
    && |Acts(log, k, k)| < cfg.maxActions
    && (forall i :: 0 <= i < k && log[i].acted && Lasts(log, i, k) ==> log[k].now - log[i].now >= cfg.cooldownMs)
  }

  /** The reconciler's guards are those conditions. */
  lemma GuardsAreDue(log: seq<Note>, cfg: Cfg, s: State)
    requires log != [] && Increasing(log) && Tells(log[..|log| - 1], s)
    requires log[|log| - 1].Seen() && !log[|log| - 1].well
    ensures var k := |log| - 1;
      Due(log, cfg, k) <==>
        (&& log[k].now - s.stalledSinceMs.GetOr(log[k].now) >= cfg.graceMs
         && s.totalActions < cfg.maxActions
         && (s.lastActionMs.Some? ==> log[k].now - s.lastActionMs.value >= cfg.cooldownMs))
  {
    hide TellsActs, TellsPhase, Lasts;
    var k := |log| - 1;
    var next := s.(stalledSinceMs := Some(s.stalledSinceMs.GetOr(log[k].now)));
    StallStep(log, s, next);
    CountsBefore(log, s);
    hide Tells;
    var acts := Acts(log, k, k);
    assert forall i :: i in acts <==> 0 <= i < k && log[i].acted && Lasts(log, i, k);
    assert forall i :: 0 <= i <= k ==> log[i].now <= log[k].now;
  }

  /** The log of a prefix is a prefix of the log. */
  lemma LogPrefix(obs: seq<Observation>, complete: CompleteCfg, cfg: Cfg, n: nat)
    requires n <= |obs|
    ensures Log(obs[..n], complete, cfg) == Log(obs, complete, cfg)[..n]
  {
    hide Completes, ActionTaken;
    var front := obs[..n];
    forall k | 0 <= k < n ensures NoteOf(front, complete, cfg, k) == NoteOf(obs, complete, cfg, k) {
      assert front[..k + 1] == obs[..k + 1];
      CompleteInPrefix(front, complete, k);
      CompleteInPrefix(obs, complete, k);
      SameAction(obs, complete, cfg, n, k);
    }
  }

  lemma SameAction(obs: seq<Observation>, complete: CompleteCfg, cfg: Cfg, n: nat, k: nat)
    requires k < n <= |obs|
    ensures ActionTaken(FRESH, obs[..n], complete, cfg, k) == ActionTaken(FRESH, obs, complete, cfg, k)
  {
    hide Tick;
    assert obs[..n][..k] == obs[..k];
  }

  /** A tick of a run hands the reconciler what was observed. */
  lemma TickDecides(obs: seq<Observation>, complete: CompleteCfg, cfg: Cfg)
    requires obs != [] && TimePasses(obs) && complete.minKWh >= 0.0
    ensures var k, before := |obs| - 1, Run(FRESH, obs[..|obs| - 1], complete, cfg);
      exists done: bool :: (done <==> Completes(obs, complete, k)) &&
        var d := DecideSession(before.session, ReconcilerInput(obs[k], done), cfg);
        ActionTaken(FRESH, obs, complete, cfg, k) == d.action && Run(FRESH, obs, complete, cfg).session == d.next
  {
    hide DecideSession, Completes, ResolveSessionComplete;
    var k, before := |obs| - 1, Run(FRESH, obs[..|obs| - 1], complete, cfg);
    CompletesIff(obs, complete, cfg, k);
    var done := Tick(before, obs[k], complete, cfg).complete;
    var d := DecideSession(before.session, ReconcilerInput(obs[k], done), cfg);
    assert ActionTaken(FRESH, obs, complete, cfg, k) == d.action;
  }

  lemma WellIs(obs: seq<Observation>, complete: CompleteCfg, cfg: Cfg, k: nat, done: bool)
    requires k < |obs| && (done <==> Completes(obs, complete, k))
    ensures var i := ReconcilerInput(obs[k], done);
      Well(obs, complete, cfg, k) <==>
        (!i.wantsCharge || i.drawingA >= cfg.minDrawA || i.carCharging == Some(true) || i.carAtTarget
         || i.sessionComplete || (i.status == Some(Available) && i.carPluggedIn != Some(true)))
    ensures ReconcilerInput(obs[k], done).status == obs[k].status && ReconcilerInput(obs[k], done).now == obs[k].now
  {
    hide Completes;
  }

  /** What the last tick of a run does, and what it leaves behind. */
  lemma LastTick(obs: seq<Observation>, complete: CompleteCfg, cfg: Cfg)
    requires obs != [] && TimePasses(obs) && complete.minKWh >= 0.0
    requires Tells(Log(obs, complete, cfg)[..|obs| - 1], Run(FRESH, obs[..|obs| - 1], complete, cfg).session)
    requires ActsOnSight(Log(obs, complete, cfg)[..|obs| - 1])
    ensures var log, k := Log(obs, complete, cfg), |obs| - 1;
      var action := ActionTaken(FRESH, obs, complete, cfg, k);
      var levers, tries := Levers(obs[k]), |PhaseActs(log, k, k)|;
      && Tells(log, Run(FRESH, obs, complete, cfg).session) && ActsOnSight(log)
      && (log[k].well ==> Run(FRESH, obs, complete, cfg).session == IDLE)
      && (!action.NoAction? <==> Due(log, cfg, k) && levers != [])
      && (!action.NoAction? ==> action == levers[if tries < |levers| then tries else |levers| - 1])
  {
    hide *;
    hide Due, Log, Tells, ActsOnSight;
    var k := |obs| - 1;
    var log, s := Log(obs, complete, cfg), Run(FRESH, obs[..k], complete, cfg).session;
    TickDecides(obs, complete, cfg);
    var done: bool :| (done <==> Completes(obs, complete, k)) &&
      var d := DecideSession(s, ReconcilerInput(obs[k], done), cfg);
      ActionTaken(FRESH, obs, complete, cfg, k) == d.action && Run(FRESH, obs, complete, cfg).session == d.next;
    var i := ReconcilerInput(obs[k], done);
    DecisionIs(s, i, cfg);
    WellIs(obs, complete, cfg, k, done);
    LadderIs(obs[k], done);
    NoteIs(obs, complete, cfg, k);
    LogIncreases(obs, complete, cfg);
    SeenIs(log[k]);
    DueIs(log, cfg, k);
    if !log[k].well && log[k].Seen() {
      GuardsAreDue(log, cfg, s);
    }
    SightStep(log);
    var next := Run(FRESH, obs, complete, cfg).session;
    if log[k].well {
      WellTells(log);
    } else {
      StallStep(log, s, next);
      LastActStep(log, s, next);
      PhaseStep(log, s, next);
      TellsIs(log, next);
    }
    if !log[k].well && log[k].Seen() {
      PhaseGoesOn(log, s, PhaseOf(log[k].status));
      ChosenRung(i, PhaseOf(i.status), |PhaseActs(log, k, k)|);
    }
  }

  lemma ChosenRung(i: Input, phase: Phase, attempts: nat)
    ensures var ladder := Ladder(i, phase);
      ladder != [] ==>
        ChooseAction(i, phase, attempts) == ladder[if attempts < |ladder| then attempts else |ladder| - 1]
  {
    hide Ladder;
  }

  lemma NoteIs(obs: seq<Observation>, complete: CompleteCfg, cfg: Cfg, k: nat)
    requires k < |obs|
    ensures var note := Log(obs, complete, cfg)[k];
      && (note.well <==> Well(obs, complete, cfg, k)) && note.status == obs[k].status && note.now == obs[k].now
      && (note.acted <==> !ActionTaken(FRESH, obs, complete, cfg, k).NoAction?)
    ensures |Log(obs, complete, cfg)| == |obs|
  {
    hide Well, ActionTaken;
  }

  lemma LogIncreases(obs: seq<Observation>, complete: CompleteCfg, cfg: Cfg)
    requires TimePasses(obs)
    ensures Increasing(Log(obs, complete, cfg))
  {
    hide Well, ActionTaken;
  }

  lemma SeenIs(note: Note)
    ensures note.Seen() <==> note.status.Some? && note.status != Some(Unavailable)
  {
  }

  lemma DueIs(log: seq<Note>, cfg: Cfg, k: nat)
    requires k < |log|
    ensures Due(log, cfg, k) ==> log[k].Seen() && !log[k].well
  {
  }

  lemma SightStep(log: seq<Note>)
    requires log != [] && ActsOnSight(log[..|log| - 1])
    requires log[|log| - 1].acted ==> log[|log| - 1].Seen() && !log[|log| - 1].well
    ensures ActsOnSight(log)
  {
    assert forall i :: 0 <= i < |log| - 1 ==> log[..|log| - 1][i] == log[i];
  }

  lemma TellsIs(log: seq<Note>, s: State)
    requires log != [] && TellsStall(log, s) && TellsActs(log, s) && TellsPhase(log, s)
    ensures Tells(log, s)
  {
    hide TellsStall, TellsActs, TellsPhase;
  }

  lemma {:induction false} RunTells(obs: seq<Observation>, complete: CompleteCfg, cfg: Cfg)
    requires TimePasses(obs) && complete.minKWh >= 0.0
    ensures Tells(Log(obs, complete, cfg), Run(FRESH, obs, complete, cfg).session)
    ensures ActsOnSight(Log(obs, complete, cfg))
  {
    if obs != [] {
      hide Tells, Log, Run, ActsOnSight, Levers, ActionTaken, Due;
      RunTells(obs[..|obs| - 1], complete, cfg);
      LogPrefix(obs, complete, cfg, |obs| - 1);
      LastTick(obs, complete, cfg);
    }
  }

  /**
   * When recovery acts, and how, at any tick of any run. It acts exactly if
   * the charger is in sight with nothing well about the car, it has been so
   * for the grace time since it first came in sight, fewer actions than the cap
   * were taken meanwhile, none of them less than the cooldown ago, and there is
   * a lever. The lever is the next one of the escalation since the phase began,
   * or the last.
   */
  lemma RecoveryIs(obs: seq<Observation>, complete: CompleteCfg, cfg: Cfg, k: nat)
    requires TimePasses(obs) && complete.minKWh >= 0.0 && k < |obs|
    ensures var log, action := Log(obs, complete, cfg), ActionTaken(FRESH, obs, complete, cfg, k);
      var levers, tries := Levers(obs[k]), |PhaseActs(log, k, k)|;
      && (!action.NoAction? <==> Due(log, cfg, k) && levers != [])
      && (!action.NoAction? ==> action == levers[if tries < |levers| then tries else |levers| - 1])
  {
    hide *;
    TickInPrefix(obs, complete, cfg, k);
    SameAction(obs, complete, cfg, k + 1, k);
    LogPrefix(obs, complete, cfg, k + 1);
    DueInPrefix(Log(obs, complete, cfg), cfg, k);
  }

  lemma TickInPrefix(obs: seq<Observation>, complete: CompleteCfg, cfg: Cfg, k: nat)
    requires TimePasses(obs) && complete.minKWh >= 0.0 && k < |obs|
    ensures var front := obs[..k + 1];
      var log, action := Log(front, complete, cfg), ActionTaken(FRESH, front, complete, cfg, k);
      var levers, tries := Levers(obs[k]), |PhaseActs(log, k, k)|;
      && (log[k].well ==> Run(FRESH, front, complete, cfg).session == IDLE)
      && (!action.NoAction? <==> Due(log, cfg, k) && levers != [])
      && (!action.NoAction? ==> action == levers[if tries < |levers| then tries else |levers| - 1])
  {
    hide *;
    var front := obs[..k + 1];
    assert front[..|front| - 1] == obs[..k];
    PrefixPasses(obs, k);
    PrefixPasses(obs, k + 1);
    RunTells(obs[..k], complete, cfg);
    LogPrefix(front, complete, cfg, k);
    LastTick(front, complete, cfg);
  }

  lemma PrefixPasses(obs: seq<Observation>, n: nat)
    requires TimePasses(obs) && n <= |obs|
    ensures TimePasses(obs[..n])
  {
  }

  lemma DueInPrefix(log: seq<Note>, cfg: Cfg, k: nat)
    requires k < |log|
    ensures log[..k + 1][k] == log[k]
    ensures Due(log[..k + 1], cfg, k) <==> Due(log, cfg, k)
    ensures PhaseActs(log[..k + 1], k, k) == PhaseActs(log, k, k)
  {
    var front := log[..k + 1];
    assert forall i :: 0 <= i <= k ==> front[i] == log[i];
    forall i | 0 <= i <= k
      ensures Lasts(front, i, k) <==> Lasts(log, i, k)
      ensures InPhase(front, i, k, PhaseOf(log[k].status)) <==> InPhase(log, i, k, PhaseOf(log[k].status))
    {
    }
    hide Lasts, InPhase;
    assert Acts(front, k, k) == Acts(log, k, k);
  }

  /**
   * A car that is not offered current, draws, says that it charges, has reached
   * its own target, is done, or is not there, is left alone, and whatever was
   * being recovered before is forgotten.
   */
  lemma WellIsLeftAlone(obs: seq<Observation>, complete: CompleteCfg, cfg: Cfg, k: nat)
    requires TimePasses(obs) && complete.minKWh >= 0.0 && k < |obs|
    requires || obs[k].commandedA <= 0.0
             || obs[k].drawingA >= cfg.minDrawA
             || obs[k].carCharging == Some(true)
             || obs[k].carAtTarget
             || Completes(obs, complete, k)
             || (obs[k].status == Some(Available) && obs[k].carPluggedIn != Some(true))
    ensures ActionTaken(FRESH, obs, complete, cfg, k).NoAction?
    ensures Run(FRESH, obs[..k + 1], complete, cfg).session == IDLE
  {
    hide *;
    hide Completes;
    WellHolds(obs, complete, cfg, k);
    TickInPrefix(obs, complete, cfg, k);
    NoteIs(obs, complete, cfg, k);
    LogPrefix(obs, complete, cfg, k + 1);
    RecoveryIs(obs, complete, cfg, k);
    DueIs(Log(obs, complete, cfg), cfg, k);
    DueInPrefix(Log(obs, complete, cfg), cfg, k);
  }

  lemma WellHolds(obs: seq<Observation>, complete: CompleteCfg, cfg: Cfg, k: nat)
    requires k < |obs|
    requires || obs[k].commandedA <= 0.0
             || obs[k].drawingA >= cfg.minDrawA
             || obs[k].carCharging == Some(true)
             || obs[k].carAtTarget
             || Completes(obs, complete, k)
             || (obs[k].status == Some(Available) && obs[k].carPluggedIn != Some(true))
    ensures Well(obs, complete, cfg, k)
  {
    hide Completes;
  }
}
