# Open Smart Charge: a model of the charging controller's decision core

This project models the parts of the controller that decide, as state machines over whole runs, and proves what
their repetition guarantees. `dafny verify dfyconfig.toml` checks everything; one module per component.

- **Planning.** `Planner` and `Selection` model the 15-minute grid and the cheapest-slots plan; `Decide` the
  decision a tick reads from it; `Energy` and `PriceCurve` what feeds it. `Deadline` shows that re-planning every
  tick never loses the deadline, whatever prices each tick is given, and `Replanning` that with fixed prices the
  closed loop realises the first, cheapest plan.
- **Current.** `CircuitBudget`, `Allocator` and `ControlLoop` model the budget ladder, the split with its
  hysteresis and 6 A floor, the deadband and the soft start, with each tick's commands fed into the next.
  `Ceilings` tells the split and every command by modes, flags and ceilings, `Overshoot` bounds the commanded sum over
  every run, `Settling` shows that the loop comes to rest.
- **Sessions.** `SessionReconciler` models the recovery ladder, `SessionComplete` the completion timer and how the
  control tick wires the two, `SessionGaps` what a connection that drops out does to them; `Recovery` says exactly when
  a session is complete and when recovery acts, by what the ticks observed.
- **OCPP 1.6 station.** `OcppPersistence` models the transaction tables, `OcppServer` the handlers (sections 4.8 to
  4.10 and 5.11 of OCPP 1.6), `OcppTraces` what holds over every trace of events, `OcppSessions` what a session is
  reported and recorded to have used.
- **Concurrency.** `TickGuard` models the per-circuit guard, `Debounce` the rate-limited setter with its timer.
- **Configuration.** `Schema` and `ConfigModel` model the configuration schema as a value, with defaults, unknown keys
  and numbers too large to represent; `ConfigOverrides` the stored patches, `ConfigListing` the order they are listed
  in, `ConfigRenames` which of them may be written and `ConfigGuard` what the guard is worth when the configuration in
  memory is not the table's; `ConfigIo` export and import, `ConfigImport` when an import fails half-way, `Redaction`
  the credentials, `ConfigRoundTrip` and `ConfigFixpoint` one round trip and the next, `ConfigKept` what an import
  writes and that an own export loses nothing.
- **Stores.** `Rollup` models the hourly-maximum history, `LogStore` log search and the log capture stream.

Amps, energy and prices are exact reals; times are integer milliseconds in fixed-offset local time. Objects that the
source updates in place are classes whose methods are specified by pure step functions; theorems about runs are
lemmas about those functions.

Where the code does not keep what its comments or documentation promise, the code is modelled as it is and the exact
condition is proved:

- A target that is not on a quarter hour can be missed (`Deadline.OnTimeIffAligned`).
- The current bound holds only for deadbands up to 1 A, while the schema allows any (`Overshoot.SlacksDoNotStackIff`).
- A ceiling lowered by up to 1 A below a standing command is not enforced: the hysteresis holds the command
  (`Ceilings.CeilingHeldIff`). With ceilings that stay, no command exceeds one (`Ceilings.RunWithinCeilings`).
- The soft start's "one tick later the full target applies" fails for steady offers above 6 A up to 7 A, which stay at
  6 A (`Settling.SteadyOfferReachedIff`), and wherever the deadband is wider than the gap
  (`Ceilings.FullOneTickLaterIff`).
- A car drawing between the two configured thresholds is "recovered" (`SessionComplete.SafeDrawIff`), and so is a full
  car drawing nothing whose connection drops out once during its refusal (`SessionGaps.RecoveryStaysOutIff`,
  `SessionGaps.DropOutIsRestarted`).
- A StopTransaction rewrites a row that is already closed, and records a negative energy when its register is below the
  start; nothing else does either (`OcppTraces.ClosedRowStaysIff`, `OcppTraces.StopRewritesClosedRow`,
  `OcppTraces.EnergiesStayNonNegativeIff`).
- A rerun of a circuit tick uses the finishing tick's circuit object (`TickGuard.ServedWithOwnCircuitIff`).
- "Last value wins" fails when a call returns to the written value during the cooldown (`Debounce.LastValueWinsIff`),
  and writes are spaced only if no timer may fire after a call made when it was due (`Debounce.SpacedIffTimersOnTime`).
- Validate-before-persist can leave a table that the next boot rejects, for three inputs. A patch may rename its entity,
  as `PUT /meters/:name` lets through (src/server/api.ts:356). A patch may hold a number too large to represent: with
  `{"deadbandA":1e999}` the schema takes the infinite number, and the table stores it as null
  (src/core/config-overrides.ts:63-68). As long as the configuration in memory is the table's, these two are all:
  exactly the patches that keep the name and every number the schema keeps are safe, besides those that are never
  accepted (`ConfigRenames.SafeIffHarmless`, `ConfigRenames.RenameThenEdit`). And the configuration in memory may be
  stale: an import does not refresh it (src/server/api.ts:1419-1425), so an entity that the import removed can still be
  edited (`ConfigGuard.ImportThenEditBricks`, `ConfigGuard.ImportThenEditHappens`). Accepted edits of the safe kind then
  boot exactly if the table has every entity and every optional section in memory (`ConfigGuard.AcceptedEditsBootIff`),
  and boot as validated exactly if the two configurations are the same (`ConfigGuard.EditsBootAsValidatedIff`).
- An import is all or nothing exactly when the document's log retention is in range and every loadpoint entry can be
  seeded, which is certain only for entries under text names of their own (`ConfigImport.ImportIsTornIff`,
  `ConfigImport.OwnNamesSeed`).
- A target above 100 % never comes to require nothing; every one that the HTTP routes and the schema let through does
  (`Energy.FallsIffTargetWithinBattery`, `Energy.AdmittedTargetIsMet`). One above arrives by the MQTT command
  `cmd/target`, which stores what it is sent (src/server/mqtt-bridge.ts:115-120, src/core/lifecycle.ts:379-395), or by
  an import entry past the schema (`ConfigImport.UncheckedTargetSeeds`).
- An instance with such a target, or any live mode or target outside the schema, refuses its own export; exactly the
  others import it (`ConfigRoundTrip.OwnExportImportsIff`, `ConfigRoundTrip.OverfullTargetShutsOut`).
- Redaction hides more places than restoring visits (`Redaction.RoundTripIffSecretsInPlace`).

## Model

| member | source | states |
|---|---|---|
| Planner.GenerateSlots | src/core/planner.ts:103-119 | the loop over the moving cursor yields exactly the quarters of the grid |
| Planner.SlotsAreTheQuarters | src/core/planner.ts:103-119 | a time starts a slot if and only if it is a quarter hour at or after `from` and before `to` |
| Planner.ChosenByRank | src/core/planner.ts:48-66 | sorting and slicing chooses a slot if and only if fewer than k slots come before it by price, then time, unpriced last |
| Selection.NeedsMoreThan | src/core/planner.ts:28-29 | the rounded-up slot count exceeds j if and only if j slots at the planned rate do not cover the energy |
| Selection.NeededRange | src/core/planner.ts:28-34 | the clamped count lies between 0 and the available slots, and is positive whenever energy is needed and a slot is left |
| Selection.MarksExactlyNeeded | src/core/planner.ts:48-66 | the plan marks exactly k slots, although it goes through a set of start times |
| Selection.CheapestIsCheapest | src/core/planner.ts:48-66 | no other choice of k slots costs less; unpriced slots are charged more than any price |
| Selection.PlansNest | src/core/planner.ts:24-66 | a slot chosen at some rate stays chosen at every lower rate: plans are nested |
| Selection.PlanDeliversJustEnough | src/core/planner.ts:24-41 | what the marked slots deliver at the planned rate covers what is required, unless all slots do not; one fewer would not |
| Selection.WithoutPricesAsLateAsPossible | src/core/planner.ts:36-46 | without prices the plan charges from some slot to the end, and no other choice of as many slots begins later |
| Selection.ChargeRateIsPower | src/core/electrical.ts:16-19 | the rate is what the phases carry at 230 V each |
| Decide.DecisionIsFirstSlot | src/core/smart-charging/decide.ts:32-52 | with energy required, the decision is that of the first planned slot, or to charge when the plan is empty |
| Decide.WaitingLeavesASpareSlot | src/core/smart-charging/decide.ts:32-52 | a decision to wait implies that the slots after the first suffice for what is required |
| Deadline.TickKeepsReach | src/core/smart-charging/decide.ts:32-52 | after one tick and its interval of at most a quarter hour, what is left is still reachable by the deadline |
| Deadline.RunKeepsReach | src/core/smart-charging/decide.ts:32-52 | the same after every run, with prices and planning rate changing arbitrarily at every tick |
| Deadline.DoneByTheQuarter | src/core/planner.ts:24-41 | nothing is missing once the target, rounded up to the quarter, has passed |
| Deadline.UnalignedTargetCanBeMissed | src/core/planner.ts:103-119 | for every target off the quarter grid there is a run, reachable at its start, that is late at the target |
| Deadline.OnTimeIffAligned | src/core/planner.ts:24-41 | every run is on time to the millisecond if and only if the target lies on a quarter hour |
| Replanning.ChoicesOutliveTheFirst | src/core/planner.ts:48-66 | dropping the first slot, and one unit of need if it was chosen, changes no other choice |
| Replanning.NeedFallsByOne | src/core/planner.ts:28-34 | a charged quarter lowers the number of slots needed by exactly one |
| Replanning.PlanAdvances | src/core/planner.ts:24-66 | a tick decides as its plan says, and the next tick's plan is the rest of this one |
| Replanning.ClosedLoopRealisesFirstPlan | src/core/smart-charging/decide.ts:32-52 | with a fixed price per slot, the closed loop charges exactly the slots of the very first plan |
| Replanning.ClosedLoopIsCheapest | src/core/planner.ts:48-66 | so re-planning costs no more than any schedule of equally many slots, chosen with hindsight |
| Energy.DeliveryInPercent | src/core/estimator.ts:6-15 | the percentage the estimator adds for delivered energy converts back to that energy at the grid |
| Energy.RequiredUnclamped | src/core/smart-charging/energy.ts:86-93 | up to a target of 100 % the required energy is the initial need less the delivery, or 0, despite both clamps |
| Energy.FallsIffTargetWithinBattery | src/core/smart-charging/energy.ts:139-159 | every kWh delivered lowers the requirement by one kWh until it is 0, if and only if the target is at most 100 % |
| Energy.AdmittedTargetIsMet | src/core/smart-charging/energy.ts:27-33 | a percentage up to 100 or a range is a state of at most 100 %, and its need falls to 0 with delivery |
| Energy.TargetIsState | src/core/smart-charging/energy.ts:27-33 | a range target is the charge at which the car, at its own ratio, reaches the range, or a full battery; a percentage is itself; there is none otherwise |
| Energy.RangeIsReached | src/core/smart-charging/energy.ts:139-159 | once what a range target requires is delivered, the estimated range is the target or the battery is full |
| Energy.RungIs | src/core/smart-charging/energy.ts:83-110 | which rung answers, and the duty-cycle rung's share of what the hours left could deliver |
| Energy.EstimateKnownIff | src/core/estimator.ts:6-30 | there is an estimate if and only if the battery's size is known; it lies between the reading and 100 %, and is the reading while nothing was delivered since |
| Energy.FullStaysFull | src/core/estimator.ts:21-30 | above 100 % a full battery keeps requiring the excess |
| Energy.GuestTargets | src/core/smart-charging/energy.ts:95-109 | a kWh target falls with delivery in the same way, while the duty-cycle rung never falls below 1 kWh |
| PriceCurve.BuildHourlyCurve | src/core/smart-charging/price.ts:57-67 | the loop yields contiguous hours from the top of the current hour |
| PriceCurve.SyntheticCurveCoversEverySlot | src/core/smart-charging/price.ts:54-67 | every slot of the planner's grid finds a price in the synthetic curve, that of its own hour |
| PriceCurve.CurveNonEmptyIff | src/core/smart-charging/price.ts:32-52 | the curve is non-empty if and only if live prices were given or the current hour starts before the target |
| PriceCurve.FutureTargetIsPriced | src/core/smart-charging/price.ts:25-52 | a target after now always gets a non-empty curve, and a price for every slot of the grid unless the prices are live |
| PriceCurve.NightIs | src/sdk/local-time.ts:74-77 | a time is at night if and only if fewer hours have passed since the window's start than it has, around midnight too |
| PriceCurve.RungIs | src/core/smart-charging/price.ts:31-52 | live prices are used as they come, averages only without them, the night curve only without both |
| PriceCurve.SlotPriceIs | src/core/smart-charging/price.ts:39-52 | each slot of the grid has its hour's average, the day price where there is none, or without averages the night price at night and the day price by day |
| PriceCurve.NightFirst | src/core/smart-charging/price.ts:24-29 | without any price data a plan takes every slot at night before one by day |
| Allocator.ZeroOut | src/modules/balancer-mqtt-circuit/allocator.ts:20-35 | loadpoints that want nothing are given 0, and the wanting smart ones are counted |
| Allocator.ServeFast | src/modules/balancer-mqtt-circuit/allocator.ts:37-49 | fast loadpoints are given what the ones before them left, and the remainder is what all of them left |
| Allocator.Allocate | src/modules/balancer-mqtt-circuit/allocator.ts:14-63 | the split gives every loadpoint, and no other id, its specified allocation |
| Allocator.FastOvershootsByOneAtMost | src/modules/balancer-mqtt-circuit/allocator.ts:40-49 | however many fast loadpoints there are, together they exceed the budget by at most 1 A, and the remainder accounts for all they got |
| Allocator.NothingForSmart | src/modules/balancer-mqtt-circuit/allocator.ts:52-60 | when the fast loadpoints overdraw the budget, the smart ones together get nothing |
| Allocator.SmartWithinSlack | src/modules/balancer-mqtt-circuit/allocator.ts:52-60 | otherwise they exceed the remainder by at most 1 A each |
| Allocator.SplitWithinSlack | src/modules/balancer-mqtt-circuit/allocator.ts:37-60 | a split from commands of 0 or at least 6 A exceeds the budget by at most max(1, number of wanting smart loadpoints) A |
| Allocator.FreshSplitWithinBudget | src/modules/balancer-mqtt-circuit/allocator.ts:37-60 | with no earlier commands a split never exceeds the budget |
| Allocator.NoBudgetSwitchesOff | src/modules/balancer-mqtt-circuit/allocator.ts:37-60 | a budget of 0 switches every loadpoint off |
| Ceilings.SplitIs | src/modules/balancer-mqtt-circuit/allocator.ts:14-63 | who gets nothing, by mode and flags; every other loadpoint is held to the smaller of its ceiling and what the fast ones before it left, or an equal whole share of what all of them left |
| Ceilings.WithinCeiling | src/modules/balancer-mqtt-circuit/allocator.ts:40-59 | no loadpoint, smart or fast, gets more than its ceiling unless its last command is above it by at most 1 A |
| Ceilings.CeilingHeldIff | src/modules/balancer-mqtt-circuit/allocator.ts:40-59 | a loadpoint alone stays within its ceiling for every budget if and only if its last command is not at least 6 A and above the ceiling by at most 1 A |
| ControlLoop.Commander.PlanCircuit | src/core/control-loop.ts:178-196 | every demand gets its target amps, and exactly those that clear the deadband are to be written, with that value |
| ControlLoop.Commander.CircuitTick | src/core/lifecycle.ts:1098-1157 | one tick (split, deadband, soft start, remembered command) leaves exactly the specified next commands |
| ControlLoop.CommittedLookup | src/core/lifecycle.ts:1147-1157 | a charger's next command depends on its own target and last command only |
| ControlLoop.CommittedElsewhere | src/core/lifecycle.ts:1147-1157 | ids outside the circuit keep their commands |
| Ceilings.OffWantsNothing | src/core/control-loop.ts:54-68 | on both kinds of circuit a disabled loadpoint, a smart one told to wait and a fast one pausing at its target want 0 A |
| Ceilings.WantedIs | src/core/lifecycle.ts:1098-1146 | every other wants its circuit's budget or its held share, and at most 6 A while only the climate wants current |
| Ceilings.RunWithinCeilings | src/core/lifecycle.ts:951-971 | with ceilings that stay, no command of any run exceeds its charger's ceiling, nor 6 A while only the climate wants current |
| Ceilings.ResumesAtHalf | src/core/control-loop.ts:73-84 | a command stands within the deadband, resumes from rest at 6 A or half the target rounded down, and is the target otherwise |
| Ceilings.FullOneTickLaterIff | src/core/control-loop.ts:73-84 | the tick after a resume commands a kept target in full if and only if it clears the deadband |
| Overshoot.TickKeepsSane | src/core/control-loop.ts:81-84 | a tick keeps every commanded value 0 or at least 6 A, through hysteresis, deadband and soft start |
| Overshoot.RunKeepsSane | src/core/control-loop.ts:81-84 | so does every run |
| Overshoot.CommandedWithinAllocated | src/core/smart-charging/decide.ts:60-67 | with a deadband of at most 1 A no command exceeds what was just allocated |
| Overshoot.RunWithinSlack | src/core/lifecycle.ts:1147-1157 | after every tick of every run from unset commands the commanded sum is at most budget + max(1, wanting smart loadpoints) |
| Overshoot.WideDeadbandOvershoots | src/core/smart-charging/decide.ts:60-67 | for every deadband above 1 A some run breaks that bound |
| Overshoot.SlacksDoNotStackIff | src/modules/balancer-mqtt-circuit/allocator.ts:37-60 | the bound holds for all runs if and only if the deadband is at most 1 A |
| Overshoot.SmartSlackIsReached | src/modules/balancer-mqtt-circuit/allocator.ts:52-60 | for every m, two ticks of m smart loadpoints exceed the budget by exactly m amps: the bound is tight |
| Overshoot.NoBudgetNoCommand | src/core/lifecycle.ts:1147-1157 | a tick without budget commands 0 A in all |
| Overshoot.BareCommandWithinDeadband | src/core/control-loop.ts:54-68 | on a circuit without a balancer a command exceeds the budget by less than the deadband |
| Settling.SteadyGiveSettles | src/modules/balancer-mqtt-circuit/allocator.ts:40-59 | a constant offer settles: allocation from the second tick, command from the third, then no write |
| Settling.SteadyOfferReachedIff | src/core/control-loop.ts:73-84 | from rest a steady offer is commanded in full by the second tick if and only if it is 6 A or above 7 A; otherwise 6 A stays |
| Settling.SoloReachesBudgetIff | src/core/control-loop.ts:73-84 | the same for a lone fast loadpoint and its budget |
| Settling.RemainingSettles | src/modules/balancer-mqtt-circuit/allocator.ts:37-49 | what is left for a loadpoint is constant once the fast ones before it have had their ticks |
| Settling.GiveSettles | src/modules/balancer-mqtt-circuit/allocator.ts:40-59 | so is the offer to each loadpoint |
| Settling.DemandSettles | src/core/lifecycle.ts:1147-1157 | after (number of fast loadpoints) + 2 ticks a loadpoint's command is fixed and its charger left alone |
| Settling.LoopSettles | src/core/lifecycle.ts:1147-1157 | with constant circumstances the whole command vector is fixed by then and no charger is written again |
| CircuitBudget.BudgetRange | src/core/smart-charging/current.ts:48-80 | every rung yields 0 or between 6 A and the ceiling, and the load-aware rungs no more than what is free below the reserve |
| CircuitBudget.BudgetIsLargest | src/core/smart-charging/current.ts:48-80 | the budget is the largest charge current from the minimum to the ceiling that the fuse leaves room for by the best source there is, and 0 if there is none |
| CircuitBudget.RungIs | src/core/smart-charging/current.ts:53-80 | which source that is: the live meter, else the worst case, else the time of day |
| CircuitBudget.LiveLoadIsTrustworthy | src/core/control-loop.ts:139-149 | there is a live load if and only if the circuit's reader, the named one or the only one, is healthy and has a frame; it is the frame's highest phase |
| CircuitBudget.CreditBackCancelsOwnDraw | src/core/control-loop.ts:118-128 | crediting max(draw, command) back leaves the chargers' own draw out, up to what they were commanded and do not draw |
| CircuitBudget.LiveBudgetIs | src/core/smart-charging/current.ts:53-56 | the live budget is breaker less reserve and house plus the undrawn commands, cut to the breaker, and 0 below 6 A: the chargers' own draw cancels |
| CircuitBudget.NextPhaseWithinBreaker | src/core/lifecycle.ts:951-971 | the next phase current is at most the house load, or breaker less reserve plus the split's slack, the undrawn commands and the change in house load |
| SessionReconciler.CountersStayBounded | src/core/session-reconciler.ts:176-240 | phase attempts ≤ total actions ≤ the cap, over every run |
| SessionReconciler.CounterCountsActions | src/core/session-reconciler.ts:195-239 | between resets the counter counts exactly the actions taken |
| SessionReconciler.EpisodeIsCapped | src/core/session-reconciler.ts:195-239 | in any stretch without a reset, whatever phases and Unavailable gaps it has, at most the cap of actions is taken |
| SessionReconciler.ActionsAreSpaced | src/core/session-reconciler.ts:195-239 | any two actions, across episodes too, are at least min(grace, cooldown) apart |
| SessionReconciler.ActionsClimbTheLadder | src/core/session-reconciler.ts:146-169 | while phase and ladder stay, the j-th action is rung min(j, last) |
| Recovery.LadderIs | src/core/session-reconciler.ts:146-169 | the ladder is reset for a fault; remote start, reset without a session; with one resume, wake the car, clear the profile, reset, waking first if the car says it is not charging; each without the levers the hardware lacks |
| Recovery.RecoveryIs | src/core/session-reconciler.ts:176-240 | at any tick of any run, recovery acts if and only if the charger is in sight, nothing is well, it has been so for the grace time since it came in sight, with fewer actions than the cap, none of them less than the cooldown ago, and there is a lever; it pulls the next one of the phase, or the last |
| Recovery.WellIsLeftAlone | src/core/session-reconciler.ts:195-204 | a tick with no wish to charge, a draw, a car that charges, is at its target, done or not there takes no action and ends the episode |
| Recovery.CompletesIff | src/core/smart-charging/session-complete.ts:68-88 | over any run a session is complete if and only if the car, plugged in, charged in this plug-in and not drawing, is at a target that pauses or has refused what it was offered for the settle time |
| SessionComplete.LoadpointWatch.ControlTick | src/core/lifecycle.ts:1013-1032 | the in-place update of both timers and the peak-held energy is the specified tick |
| SessionComplete.SettleKeepsLeading | src/core/lifecycle.ts:1177-1230 | while a stall is counted the settle timer has been running at least as long |
| SessionComplete.CompletionPreemptsRecovery | src/core/smart-charging/session-complete.ts:68-88 | over any run of a session under way, with no draw in the blind band, the reconciler takes no action |
| SessionComplete.TrickleIsRestarted | src/core/session-reconciler.ts:176-240 | a car drawing inside the blind band is acted upon after the grace |
| SessionComplete.SafeDrawIff | src/core/smart-charging/session-complete.ts:68-88 | in every session that stays connected a steady draw is left alone, if and only if it lies outside the blind band |
| SessionGaps.RecoveryStaysOutIff | src/core/session-reconciler.ts:195-239 | for a car that draws less than both thresholds of what it is offered, with nothing else to say that it is well, and whatever gaps the connection has, recovery never acts if and only if no tick sees it in the reconciler's sight for the grace time, gaps included, and connected for less than the settle time |
| SessionGaps.DropOutIsRestarted | src/core/session-reconciler.ts:205-211 | at the shipped thresholds a full car that drops out once is restarted a minute and a half into its refusal |
| OcppPersistence.FindOpenIsLatest | src/modules/charger-ocpp16/persistence.ts:35-42 | the row a reconnect adopts is open and the newest open one; there is none if and only if no row is open |
| OcppPersistence.ClosingIsSafe | src/modules/charger-ocpp16/persistence.ts:69-79 | closing rewrites no closed row and no other row, and records an energy of at least 0 |
| OcppServer.Handlers.RegisterStation | src/modules/charger-ocpp16/server.ts:124-131 | registering updates the pending flag and that of the live connection, and nothing else |
| OcppServer.Handlers.UnregisterStation | src/modules/charger-ocpp16/server.ts:134-140 | unregistering forgets the station and switches auto-start off on the live connection |
| OcppServer.Handlers.AttachClient | src/modules/charger-ocpp16/server.ts:314-335 | a new socket takes the station over, with its open transaction adopted |
| OcppServer.Handlers.HandleDisconnect | src/modules/charger-ocpp16/server.ts:337-354 | only the registered socket's own disconnect evicts the station |
| OcppServer.Handlers.HandleStatusNotification | src/modules/charger-ocpp16/server.ts:419-485 | Available re-arms auto-start and closes the stale transaction; Preparing starts at most one session |
| OcppServer.Handlers.HandleMeterValues | src/modules/charger-ocpp16/server.ts:487-510 | samples go to the transaction the charger names, or to the remembered one |
| OcppServer.Handlers.HandleStartTransaction | src/modules/charger-ocpp16/server.ts:512-530 | a start takes a new id, inserts its row and remembers it |
| OcppServer.Handlers.HandleStopTransaction | src/modules/charger-ocpp16/server.ts:532-548 | a stop ends the named row and forgets the active id |
| OcppSessions.LatestIsNewest | src/modules/charger-ocpp16/persistence.ts:108-121 | the register read is one of the transaction's with an energy, none of which is newer; there is none if and only if none is stored |
| OcppSessions.RunStores | src/modules/charger-ocpp16/persistence.ts:81-106 | over every run exactly the samples named for a transaction, or sent while it was held, are stored for it, in order |
| OcppSessions.StartStays | src/modules/charger-ocpp16/persistence.ts:15-30 | the row of a start keeps its station, name, tag, time and register over every run; only end and energy change |
| OcppSessions.EnergyFromStart | src/modules/charger-ocpp16/persistence.ts:108-122 | whatever follows a start, its energy is that of the newest of its samples less the start's register, or 0 |
| OcppSessions.SamplesAreReported | src/modules/charger-ocpp16/server.ts:487-510 | meter values of a started transaction are reported with that energy |
| OcppSessions.AvailableRecords | src/modules/charger-ocpp16/server.ts:446-455 | Available records that energy and the end on the row the start made |
| OcppSessions.StopRecords | src/modules/charger-ocpp16/server.ts:532-548 | StopTransaction records its register less the start's on that row |
| OcppSessions.HeldIs | src/modules/charger-ocpp16/server.ts:314-548 | which transaction a connection holds after each event |
| OcppSessions.StatusIsTold | src/modules/charger-ocpp16/status.ts:4-17 | a status is passed on with whether a car is there and whether it has a session |
| OcppSessions.StopIsTold | src/modules/charger-ocpp16/server.ts:539-545 | over every trace the end of a session is reported for the connector last spoken of |
| OcppSessions.GoneIsToldIff | src/modules/charger-ocpp16/server.ts:337-354 | over every trace a disconnect reports the station gone if and only if it is reached by that socket |
| OcppTraces.RegistryTracksNewestSocket | src/modules/charger-ocpp16/server.ts:335-354 | under every interleaving a station maps to a socket if and only if that socket attached last and has not disconnected |
| OcppTraces.AutoStartsOncePerPlugIn | src/modules/charger-ocpp16/status.ts:26-33 | between two Available notifications at most one session is auto-started on a connection |
| OcppTraces.UnplugReArmsAutoStart | src/modules/charger-ocpp16/server.ts:446-482 | after Available the connection holds no transaction and the next plug-in of an enabled charger starts one |
| OcppSessions.AutoStartsIff | src/modules/charger-ocpp16/server.ts:466-482 | over every trace a status starts a session if and only if a car was plugged in, the station's last registration says so, no transaction is held and none was started by itself since it was re-armed |
| OcppTraces.RunKeepsTableValid | src/modules/charger-ocpp16/persistence.ts:5-30 | the counter exceeds every stored id and ids are unique, over every trace |
| OcppTraces.IdsNeverCollide | src/modules/charger-ocpp16/server.ts:512-517 | so no start is ever refused for a duplicate id |
| OcppTraces.ClosedRowStaysIff | src/modules/charger-ocpp16/persistence.ts:44-79 | a step leaves a closed row alone if and only if it is not a StopTransaction of a known socket that names it with another end or energy |
| OcppTraces.ClosedRowSurvives | src/modules/charger-ocpp16/persistence.ts:44-79 | over every run in which no StopTransaction names it, a closed row is unchanged |
| OcppTraces.StopRewritesClosedRow | src/modules/charger-ocpp16/server.ts:532-548 | a StopTransaction that names a closed row at another time rewrites its end |
| OcppTraces.EnergiesStayNonNegativeIff | src/modules/charger-ocpp16/persistence.ts:44-79 | a step keeps every recorded energy at least 0 if and only if it is not a StopTransaction of a known socket for a stored row below its start |
| OcppTraces.RunKeepsEnergiesNonNegative | src/modules/charger-ocpp16/persistence.ts:44-79 | so does every run without such a StopTransaction |
| OcppTraces.StepElsewhere | src/modules/charger-ocpp16/server.ts:419-548 | events of other sockets can only close rows of a station and leave this connection's transaction alone |
| OcppTraces.ReconnectDrainsOne | src/modules/charger-ocpp16/server.ts:333-455 | a reconnect followed by Available strictly reduces the station's open rows, whatever happens elsewhere in between |
| OcppTraces.ReconnectsDrainAll | src/modules/charger-ocpp16/server.ts:333-455 | as many such reconnects as there are open rows leave none |
| OcppTraces.AvailableClosesActive | src/modules/charger-ocpp16/server.ts:446-455 | Available closes the active transaction's row and opens none |
| TickGuard.Guard.Enter | src/core/lifecycle.ts:995-1005 | a request starts a tick, or marks a rerun while one is running |
| TickGuard.Guard.Leave | src/core/lifecycle.ts:1250-1256 | a finish releases the slot and re-enters if a rerun was asked for |
| TickGuard.TicksNeverOverlap | src/core/lifecycle.ts:995-1005 | per id starts exceed finishes by one while a tick runs and not at all otherwise, and never exceed requests |
| TickGuard.EveryRequestIsServed | src/core/lifecycle.ts:1250-1256 | once the circuit is idle, every request was followed by a tick that started at or after it |
| TickGuard.ServedWithOwnCircuitIff | src/core/lifecycle.ts:1250-1256 | that tick runs with the request's own circuit object if and only if none was running or the running one had the same |
| Debounce.DebouncedSetter.Set | src/modules/charger-ocpp16/debounce.ts:25-52 | a call drops, writes or coalesces as specified |
| Debounce.DebouncedSetter.TimerFires | src/modules/charger-ocpp16/debounce.ts:40-51 | the callback writes the pending value unless it is already written |
| Debounce.WritesAreSpaced | src/modules/charger-ocpp16/debounce.ts:4-9 | writes are at least the interval apart and differ, one timer at most is pending and due one interval after the last write, and at rest the last differing argument is written |
| Debounce.WritesAtOnceIff | src/modules/charger-ocpp16/debounce.ts:25-38 | in every trace a call writes at once if and only if it differs from the last write and that is at least the interval ago |
| Debounce.LastValueWinsIff | src/modules/charger-ocpp16/debounce.ts:9-42 | the last argument is what ends up written if and only if it was not dropped as a duplicate while a timer was pending |
| Debounce.SpacedIffTimersOnTime | src/modules/charger-ocpp16/debounce.ts:4-9 | writes are spaced in every trace if and only if a due timer never fires after a later call, by however little |
| Debounce.OverdueTimerBreaksSpacing | src/modules/charger-ocpp16/debounce.ts:28-50 | for every interval: a call at the moment a timer is due, ahead of it, makes two writes follow each other at once, the older value last |
| Rollup.HouseholdLoad.Record | src/core/smart-charging/rollup.ts:10-21 | a sample is folded into its day and hour; negative ones are ignored |
| Rollup.HouseholdLoad.Prune | src/core/smart-charging/rollup.ts:48-56 | rows of days before the cutoff are deleted, no others |
| Rollup.HouseholdLoad.WorstCaseLoadA | src/core/smart-charging/rollup.ts:28-41 | the result is the largest load among the rows of that hour in the window, and null exactly when there are none |
| Rollup.MaxLoadIsLargest | src/core/smart-charging/rollup.ts:35-40 | the folded maximum is that of the matching rows, attained by one of them |
| Rollup.RollupRefinesRawHistory | src/core/lifecycle.ts:224-233 | after any interleaving of samples and prunings that keep the window, the query equals the maximum of the raw samples, and null exactly when there are none |
| Rollup.ShortKeepLosesSamples | src/core/smart-charging/rollup.ts:48-56 | for every shorter retention a pruning loses a sample that counts |
| LogStore.EscapedIsLiteral | src/core/log-store.ts:237 | an escaped text matches itself and nothing else, whatever metacharacters it holds |
| LogStore.SearchIsSubstring | src/core/log-store.ts:236-240 | the search pattern matches if and only if the query occurs in the text, up to the case of ASCII letters |
| LogStore.LogCapture.Write | src/core/log-store.ts:122-136 | a chunk emits exactly the non-blank lines completed by it and leaves the rest |
| LogStore.CutKeepsText | src/core/log-store.ts:126-133 | lines and tail put together are the text |
| LogStore.CutAtNewlines | src/core/log-store.ts:128-131 | no line and no tail holds a newline |
| LogStore.CutIsUnique | src/core/log-store.ts:128-131 | there is no other way to cut a text so |
| LogStore.LinesResume | src/core/log-store.ts:126-133 | cutting may be interrupted anywhere and resumed from the tail |
| LogStore.CaptureIsChunkInvariant | src/core/log-store.ts:122-136 | any chunking of a text emits the same lines and leaves the same tail as the whole |
| Schema.ParseTwice | src/core/config.ts:142-152 | what the schema makes of an object it accepts again, unchanged, for every nested shape |
| Schema.ParseThenPatch | src/core/config.ts:142-152 | patching a parsed object and parsing again is parsing the patched original, acceptance included |
| Schema.RereadAcceptIff | src/core/config-overrides.ts:57-69 | storing a value as JSON text changes nothing of what the type makes of it if no infinite number in it is kept, for an accepted value only then; a rejected value stays rejected |
| Schema.RereadPatchIff | src/core/config-overrides.ts:57-69 | the same for a patch, on whatever object it lands |
| ConfigModel.ParsesByKey | src/core/config.ts:142-152 | a draft parses if and only if what stands under every key does |
| ConfigModel.SameSlotsSameConfig | src/core/config.ts:142-152 | drafts that parse alike under every key give the same configuration up to the order of entities |
| ConfigOverrides.ConfigStore.SetOverride | src/core/config-overrides.ts:57-69 | the patch is merged into the stored row, which is read back as JSON text is; no other row changes |
| ConfigOverrides.ConfigStore.DeleteOverride | src/core/config-overrides.ts:71-76 | exactly that row goes, and the result says whether it was there |
| ConfigOverrides.ConfigStore.GetEffectiveConfig | src/core/config-overrides.ts:147-151 | the loop over the listed rows is their layering, parsed |
| ConfigOverrides.ConfigStore.ApplyConfigOverrides | src/core/config-overrides.ts:95-116 | exactly the rows of runtime-added entities stay, none when pruning, and both reports list what was cleared and kept |
| ConfigOverrides.FileReasserts | src/core/config-overrides.ts:95-116 | afterwards everything the file defines stands as the file has it |
| ConfigOverrides.MergeByKey | src/core/config-overrides.ts:124-140 | merging changes what stands under the row's key, assigning or appending, and nothing else |
| ConfigOverrides.LayerByKey | src/core/config-overrides.ts:124-140 | successive patches compose as one merged patch |
| ConfigOverrides.ListingOrderIsIrrelevant | src/core/config-overrides.ts:78-87 | the order of the rows affects only the order of the entities |
| ConfigOverrides.EntitiesInListingOrder | src/core/config-overrides.ts:78-87 | over the defaults, entities come out in the order the rows are listed |
| ConfigOverrides.SetThenLayer | src/core/config-overrides.ts:57-69 | storing edits and layering the table is layering the table and then the edits as they are read back |
| ConfigOverrides.ValidateThenPersist | src/core/config-overrides.ts:159-163 | the table with the edits stored yields a configuration only if they validated, and if they validated it is the validated one, up to the order of entities, if and only if they put no infinite number where the schema keeps it |
| ConfigOverrides.GuardedWritesNeverBrick | src/core/config-overrides.ts:153-163 | any sequence of guarded writes that lose no number leaves a table the next boot accepts |
| ConfigListing.SomeListing | src/core/config-overrides.ts:78-87 | every table can be listed by kind and name |
| ConfigListing.ListingUnique | src/core/config-overrides.ts:78-87 | in one way only |
| ConfigRenames.ActsOnItsKeyIff | src/core/config-overrides.ts:124-140 | a row patches what stands under its own key and leaves everything else if and only if it keeps the entity's name |
| ConfigRenames.BadFieldRejected | src/core/config-overrides.ts:159-163 | a patch with a field the schema does not take is rejected on whatever it lands |
| ConfigRenames.NewcomerIsLost | src/server/api.ts:328-352 | after a rename and a restart, adding an entity under the old name is accepted as a second one, and the next boot has one |
| ConfigRenames.SafeIffHarmless | src/core/config-overrides.ts:57-69 | behind a configuration in memory that is the table's, a row may be written, over every base and table and before any later guarded writes, with every accepted write booting as validated, if and only if it keeps the name and every number the schema keeps, or its own fields are never accepted |
| ConfigRenames.RenameThenEdit | src/server/api.ts:356-376 | after a rename, an edit under the new name is accepted, and the table then boots if and only if the old name sorts before the new one |
| ConfigGuard.AcceptedEditsBootIff | src/core/config-overrides.ts:153-163 | whatever configuration edits are validated against, all accepted ones that keep names and numbers leave a table that boots, if and only if the table has every entity and every optional section of it |
| ConfigGuard.EditsBootAsValidatedIff | src/core/config-overrides.ts:153-163 | and all of them boot as validated, if and only if it is what the table yields, up to the order of entities |
| ConfigGuard.StaleEditBricks | src/server/api.ts:356-376 | an edit of something in memory that the table lacks is accepted, and unless it supplies what the entity cannot do without, the next boot fails |
| ConfigGuard.ImportThenEditBricks | src/server/api.ts:1400-1430 | a replacing import of a document without it leads there, for every entity and optional section in memory |
| ConfigGuard.ImportThenEditHappens | src/server/api.ts:1400-1430 | for every entity: boot with it alone, import a blank document, label it under its name; the label is accepted and the next boot fails |
| ConfigIo.BuildConfigExport | src/core/config-io.ts:124-172 | the document is assembled section by section as specified, redacted unless secrets are asked for |
| ConfigIo.DocToOverrideRows | src/core/config-io.ts:209-229 | the loops yield the rows a document stands for, in section order |
| ConfigIo.DefaultsParse | src/core/config-io.ts:33-35 | the schema accepts the empty document and what it makes of it |
| ConfigIo.ConfigDb.ApplyConfigToLoadpoints | src/core/loadpoint.ts:178-200 | the entries up to the first that does not bind overwrite their rows, others stay, and it throws if there is one |
| ConfigIo.ConfigDb.ImportConfig | src/core/config-io.ts:309-361 | the import changes the tables exactly as its outcome says; a rejected or dry run changes nothing |
| ConfigIo.ValidatedZone | src/core/config-io.ts:334-343 | a document that validates carries an acceptable timezone, so setting it never throws |
| ConfigIo.ImportIsSound | src/core/config-io.ts:302-328 | what is written boots only if it validated, and then as the validated candidate if and only if the document puts no infinite number where the schema keeps it |
| ConfigKept.ImportWrites | src/core/config-io.ts:324-343 | a completed import leaves each section and entity of the document merged or alone, by the document's names, and its timezone and retention, or the old or default ones |
| ConfigKept.ImportSeeds | src/core/config-io.ts:345-358 | and each loadpoint with the mode and targets of the last entry that names it, the others left alone or gone |
| ConfigImport.ImportIsTornIff | src/core/config-io.ts:302-361 | the import throws with overrides already written if and only if the document passes and its log retention is not accepted or a loadpoint entry cannot be seeded; it completes if and only if it passes and neither is the case |
| ConfigImport.OwnNamesSeed | src/core/config-io.ts:209-229 | in a document that passes, loadpoint entries under text names of their own can all be seeded |
| ConfigImport.NamelessEntryTears | src/core/loadpoint.ts:190-199 | a replacing import of nothing but nameless loadpoint entries passes whatever they hold, and if one cannot be bound it ends with the tables blanked |
| ConfigImport.UncheckedTargetSeeds | src/core/config-io.ts:340-358 | an entry whose number for a name reads like another's name gives that loadpoint any target, unchecked |
| ConfigRoundTrip.LoadpointReturns | src/core/config-io.ts:150-166 | an exported loadpoint is valid, and exporting it again after import gives the same object |
| ConfigRoundTrip.OwnExportImportsIff | src/core/config-io.ts:302-361 | an instance's own full export imports into any instance if and only if the live mode and targets of each of its loadpoints fit the schema; otherwise it is refused |
| ConfigRoundTrip.OverfullTargetShutsOut | src/server/mqtt-bridge.ts:115-120 | one live target above 100 %, as the MQTT command stores it, gets the instance's own export refused |
| ConfigRoundTrip.ExportImportExport | src/core/config-io.ts:124-361 | where it imports: export, replacing import into any instance, boot, export: every step succeeds and the document is the same up to the order of its arrays |
| ConfigKept.OwnExportLosesNothing | src/core/config-io.ts:124-361 | the instance rebooted from its own export has the same sections, entities, timezone and retention, and every loadpoint its bindings, mode and targets |
| ConfigKept.DefaultsAreOmitted | src/core/config-io.ts:60-69 | a document carries of the site, smart charging and logs exactly what differs from the defaults |
| ConfigFixpoint.ConfigParsesTwice | src/core/config.ts:142-152 | what the schema makes of a draft it accepts again, unchanged |
| ConfigFixpoint.RebootedByName | src/core/config-overrides.ts:78-87 | after the round trip the entities stand in the order of their names |
| ConfigFixpoint.SecondRoundTripIsExact | src/core/config-io.ts:124-361 | a second round trip exports the very same document |
| ConfigFixpoint.BootsInUse | src/core/config-overrides.ts:147-151 | every configuration that a table of named rows boots to is one the round trip applies to |
| ConfigRoundTrip.FreshInstanceQualifies | src/core/config-io.ts:33-35 | the round trip applies to a fresh instance: its defaults are in use and hold no placeholder |
| ConfigRoundTrip.OwnSecretsHeld | src/core/config-io.ts:124-172 | a configuration holds the secrets of the document exported from it |
| ConfigRoundTrip.RedactedImportIsFull | src/core/config-io.ts:231-282 | importing the redacted export back acts as the full one, when every credential sits where restoring looks |
| Redaction.RedactSecrets | src/core/config-io.ts:102-116 | the recursion and the loop over the vehicles yield the redacted document |
| Redaction.DeRedact | src/core/config-io.ts:236-282 | the three visits yield the restored document |
| Redaction.CleanIffUnchanged | src/core/config-io.ts:78-88 | redaction leaves a value alone if and only if no password in it holds anything but the placeholder |
| Redaction.RoundTripIffSecretsInPlace | src/core/config-io.ts:231-282 | restoring a redacted document against a configuration with the same secrets returns it if and only if every credential sits in a visited place |
| Redaction.StrayPasswordIsLost | src/core/config-io.ts:78-88 | a password one level deeper in a meter reader comes back as the placeholder |
| Redaction.RedactionHidesSecrets | src/core/config-io.ts:102-116 | vehicles that differ only in a secret field are the same once redacted |
| Redaction.NothingLeaks | src/core/config-io.ts:78-116 | a redacted document holds no password at any depth and no secret its vehicles' modules declare |
| Redaction.NoPlaceholderStored | src/core/config-io.ts:231-260 | restoring leaves no placeholder for the bridge's password or a vehicle's secret, unless the current configuration holds one |
| Redaction.RestoreTouchesOnlyPlaceholders | src/core/config-io.ts:236-282 | a document without placeholders in the visited places is left as it is |

## Left out

- Time zones and DST: slot and hour boundaries are those of a fixed offset; `Rollup` uses any monotone local-day function.
- Floating point: amps, energy and prices are exact reals.
- HTTP API, SSE, MQTT bridge, Home Assistant discovery, user interface, vehicle, tariff and meter clients: plumbing around the decisions; their results are inputs.
- SQLite: tables are sequences or maps with the few statements used; the override listing may come in any order.
- `buildPlanSeries` (src/core/planner.ts:84-101): presentation. Its comment that equal-priced sub-slots are selected together is not assumed.
- Failed charger writes: the source records a command even when the write rejects; the model does the same and does not say what the charger then does.
- Plan selection, vehicle identification, climate and minimum-SoC forcing (src/core/lifecycle.ts:1033-1096): one-branch rules whose outcome enters as an input of a demand.
- Module reconcile and reload, plugin loading, health sweep, shutdown, first-boot materialisation: sequencing of effects.
- Session actions' effects (src/core/session-reconciler.ts:271-308): calls to the charger and the car; the model ends at the decision.
- OcppTraces.RegistryTracksNewestSocket: sockets are numbers attached at most once, standing for client objects.
- OcppPersistence.ClosingIsSafe: covers `closeOpenTransaction`; which energy that is, and what `finishTransaction` records, is in `OcppSessions.AvailableRecords` and `OcppSessions.StopRecords`, what it does to closed rows and energies in `OcppTraces.ClosedRowStaysIff` and `OcppTraces.EnergiesStayNonNegativeIff`.
- Recovery.RecoveryIs: runs start with a fresh watch and nothing delivered, as after a boot.
- Ceilings.RunWithinCeilings: stated for ceilings and climate flags that stay; `Ceilings.CeilingHeldIff` says what one that is lowered does.
- OcppSessions.RunStores: only a sample's time and energy are kept; units and measurands are parsed before (src/modules/charger-ocpp16/meter-parser.ts).
- SessionGaps.RecoveryStaysOutIff: starts with neither timer running and the minimum energy delivered; chargers that can be reset, so that the ladder always has a last rung.
- OcppPersistence: timestamps are integers; of several meter values with the latest timestamp the first stored one is taken, where SQLite leaves it open.
- Overshoot, Settling: loadpoint ids of a circuit are pairwise different, as the lifecycle keys its maps by them.
- CircuitBudget.NextPhaseWithinBreaker: one phase stands for the maximum over the phases, and chargers draw at most what they are commanded.
- LogStore.CaptureIsChunkInvariant: chunks are strings; a chunk boundary inside a UTF-8 sequence is not modelled.
- LogStore.SearchIsSubstring: case folding is ASCII only, as in SQLite's LIKE without extensions.
- ConfigModel: zod's error messages, YAML and its not-a-number; documents are JSON values, finite numbers reals, `undefined` members and a member called `__proto__` absent, and objects compare without regard to key order.
- ConfigOverrides.ValidateThenPersist: rows keep the name of their entity, singleton rows carry their kind's name, and edits are validated against what the table yields; `ConfigRenames.SafeIffHarmless` and `ConfigGuard.EditsBootAsValidatedIff` show these to be the exact conditions.
- ConfigOverrides.GuardedWritesNeverBrick: stated for writes that keep the name and lose no number, behind a configuration in memory that is the table's; `ConfigRenames.SafeIffHarmless` and `ConfigGuard.AcceptedEditsBootIff` say what happens otherwise.
- ConfigOverrides.ListingOrderIsIrrelevant: stated for tables whose rows keep the name; `ConfigRenames.RenameThenEditAny` has two rows that boot in one order only.
- ConfigOverrides.MergeByKey: stated for rows that keep the name, exactly the ones it holds of (`ConfigRenames.ActsOnItsKeyIff`).
- ConfigOverrides.LayerByKey: the same, for several rows.
- ConfigOverrides.SetThenLayer: the same, for rows and edits.
- ConfigOverrides.FileReasserts: the same; a kept row that renames its entity stands under the new name.
- ConfigOverrides.EntitiesInListingOrder: the same; a renamed entity stands at its row's place, under the new name.
- ConfigIo.ImportIsSound: a merging import starts from a table whose rows keep the name and from the configuration it yields, a replacing one from any; for a merge into a stale configuration its rows are the edits of `ConfigGuard.EditsBootAsValidatedIff`.
- ConfigIo.ConfigDb.ImportConfig: how JavaScript writes a number as a text is a parameter (`Host.numberText`).
- ConfigIo.ConfigDb.ApplyConfigToLoadpoints: column affinity is left out: a number bound as a mode is kept as a number, a text bound as a target as a text. Neither passes the schema: they come from import entries the validation has not seen, and a text target also from the MQTT command.
- ConfigRoundTrip.LoadpointReturns: stated for live states that fit the schema, exactly those whose export the schema takes (`ConfigRoundTrip.OwnExportImportsIff`).
- ConfigRoundTrip.ExportImportExport: stated where the instance's own export imports, exactly as `ConfigRoundTrip.OwnExportImportsIff` says; no secret equals the redaction placeholder itself, and entity names are unique and not empty.
- ConfigFixpoint.SecondRoundTripIsExact: the same.
- Redaction.RoundTripIffSecretsInPlace: no vehicle module declares its `name` or `type` secret.
