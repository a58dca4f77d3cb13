# Formal model of the ARES mission backend and habitat simulator

The project models four parts of the repository and proves what each is for.

**The habitat simulator** (`Simulator/`). `Scenario` holds configuration, plan and
state; `MathUtils`, `HabitatAir`, `CrewPhysiology`, `Resources`, `EvaMachine`,
`Actions` and `Evaluation` specify the parts of one step as functions, and
`SimulationRun` puts them together: a run is a sequence of steps, each made from the
state the one before it left. `HabitatState` is the simulation state as one object
that every model updates in place, `Simulator` the run loop and `Validator` the
validation scans; all their methods are proved against those functions. About every
run the project proves the EVA return bound (`EvaReturn`, `EvaBound`, `EvaOverrun`,
`EvaRun`, `OverrunRun` with `QuietHabitat`), the full repair time (`EvaRepair`,
`EvaRun`), the mass ledger (`LedgerRun`), the rolling CO2 hour (`Co2Run`), the stabilization streak
(`StabilizationRun`), the action records (`ActionRun`), the rover reservation
(`RoverRun`), whom a repair sends out (`RepairCrew`), that a run goes on to its end
(`Completion`), and that a result is a reading of its history (`RunResult`).
`CrewComparison` compares two crews in different air.

**Replay and session lifecycle** (`backend/`). `ReplayClock`, `Mission`,
`SessionStore`, `Lifecycle` and `TelemetryReplay` model the services; stored state
changes in place in the store class, and the services are classes over it.
`MissionProtocol` interleaves their locked segments with polls, streams, crashes,
cancellations, damaged records and the passing of time, and `ExactlyOnce` proves
delivery on top of it. `Sse` is the stream loop and its capacity gate.

**Evidence selection** (`CoverageSelection`, `ProcedureRetrieval`) and the **manual
chunker** (`TextLines`, `GreedyPacking`, `MarkdownBlocks`, `ManualSections`,
`FencedBlocks`, `ProcedureCorpus`).

Conventions. Doubles are real numbers and an infinite forecast is `None`. Instants are
integer microseconds. Text is a sequence of characters and the regular expressions of
the chunker are uninterpreted classifiers of lines. A run needs strict severity
thresholds, which validation does not demand (`Scenario.StrictLimits`): with equal
ones the severities divide by zero. The comparison of two crews needs rates, gains
and weights that are not negative (`CrewComparison.Directed`), the mass ledger
profiles that do not absorb CO2, the EVA results one repair action, minute steps and
a crew that is inside at first (`EvaRun.OneWalk`). The return bound, and only that,
also needs the condition under which it is exact (`EvaRun.MustReturnInTime`).

Where the code does not do what one would expect of it, the model follows the code
and a member states exactly when the expectation holds:

- A low rover restarts the ingress in every step, so an ingress of two minutes or more
  never ends once the rover is low, and an ingress of no minutes begins one minute
  late. Which configurations nevertheless keep every EVA out of its reserve depends on
  how long a walker the health rules still allow can take for the work:
  `EvaOverrun.ReturnsExactly` for the EVA by itself, `OverrunRun.RunsReturnExactly` for
  whole runs, `OverrunRun.OverrunInRun` for a run that overruns.
- A repair that starts in the minute a rover delay is over passes validation and fails
  to start, because the release comes later in that step:
  `RoverRun.ValidationMissesTheLastMinute`, `RoverRun.HeldRoverFailsRepair`.
- An action whose start is off the grid of simulated minutes never starts:
  `ActionRun.RecordsInRun`.
- With steps longer than an hour the CO2 window is empty and its limit cannot fail a
  run: `Co2Run.LimitIsOnTheAverage`.
- Repair work of zero minutes repairs nothing: `EvaRepair.RepairTakesFullTime`.
- With a replay start in the future, waiting the reported delay does not reach the next
  sample: `ReplayClock.DelayAdvancesByOne`.
- A replay start under a clock that has gone backwards stores a record that no longer
  parses, and so does every other edit: `Lifecycle.ReplayStartNeedsForwardClock`,
  `Mission.EditsNeedForwardClock`.
- Superscript digits in a Last-Event-ID count as digits there and escape as an uncaught
  conversion error: `TelemetryReplay.ParseIsExact`.
- Headings are recognised inside fences and cut them: `FencedBlocks.FenceStaysWholeExactly`.
- Validation and the executor resolve the EVA crew member of a repair in different
  orders, so a valid plan can fail to send anyone: `RepairCrew.ResolversAgreeExactly`,
  `RepairCrew.ValidPlanSendsTheWrongMember`.

## Model

| member | source | states |
|---|---|---|
| EvaOverrun.ReturnsExactly | Simulator/src/ResourceModel.cpp:327-459 | for every course of health, rover availability and performance that the health rules allow (above the abort fraction in all minutes but the last) the EVA is back before its reserve time if and only if the configuration and the abort fraction meet a condition on the ingress, the longest time the work can take, and the rover energy |
| OverrunRun.RunsReturnExactly | Simulator/src/Simulation.cpp:464-573 | the same condition decides it for whole runs: with this EVA and this abort fraction every run of every valid plan for every valid scenario, with minute steps and one repair, is back in time if and only if the condition holds |
| OverrunRun.OverrunInRun | Simulator/src/Simulation.cpp:464-573 | where the condition fails, a valid plan of one repair for a valid scenario with this EVA has a run that goes on until the walker has touched the reserve |
| EvaOverrun.SteadyCourseOverruns | Simulator/src/ResourceModel.cpp:369-388 | where the condition fails a walker in full health, with the rover at hand and at one constant performance above the abort fraction, touches the reserve |
| EvaOverrun.SlowWalker | Simulator/src/ResourceModel.cpp:423-435 | such a performance exists: the work can be kept from being done before the latest turn |
| EvaOverrun.IdleIsWorst | Simulator/src/ResourceModel.cpp:423-435 | the condition for walkers who may do no work at all implies the condition for every abort fraction |
| EvaBound.MinuteIsBounded | Simulator/src/ResourceModel.cpp:327-451 | one minute keeps the account of a walker at most the longest work away from turning back; at or below the abort fraction it still ends in time |
| EvaReturn.IdleReturnsExactly | Simulator/src/ResourceModel.cpp:327-459 | the bound under arbitrary performance, no work at all included, which the health rules do not allow for long: the condition is on ingress and rover energy alone |
| EvaReturn.CourseStaysInTime | Simulator/src/ResourceModel.cpp:327-451 | the invariant behind the bound under arbitrary performance: outward phases leave room for the ingress, an ingress for the rest of itself, and the rover battery is a function of the time spent |
| EvaMachine.MinuteStaysInTime | Simulator/src/ResourceModel.cpp:327-451 | one minute keeps the return invariant whatever the inputs |
| EvaMachine.ReserveMet | Simulator/src/ResourceModel.cpp:374-382 | the rover falls below its reserve exactly when the share of the maximum duration still left is worth less than the reserve |
| EvaMachine.AbortStaysInTime | Simulator/src/Simulation.cpp:135-159 | the abort rule of the evaluation keeps the return invariant |
| EvaRepair.RepairTakesFullTime | Simulator/src/ResourceModel.cpp:405-449 | a step restores the array only after preparation, egress, repair work and ingress have had their full time, and never without repair work |
| EvaRepair.FullTimeIsReached | Simulator/src/ResourceModel.cpp:405-449 | when nothing goes wrong the repaired EVA is over after exactly the time of all phases, so the lower bound is the best there is |
| EvaRepair.ProgressIsSlow | Simulator/src/ResourceModel.cpp:423-435 | a minute earns at most a minute of work, because performance does not exceed one |
| EvaRun.EvaReturnsInRun | Simulator/src/Simulation.cpp:464-573 | over whole runs with minute steps and one repair action, where the condition of the return bound holds, no step ends with the reserve touched, no walker is outward with a negative margin, and the reason eva_safe_return_negative never occurs |
| EvaRun.RepairsTakeFullTimeInRun | Simulator/src/ResourceModel.cpp:405-449 | in a run with minute steps and one repair action, whether or not the return bound holds, the solar fault factor changes only to its repaired value, only after an EVA of full length, and in the step that ends that EVA with its work complete |
| EvaRun.CrewStageMovesNobody | Simulator/src/CrewPhysiologyModel.cpp:390-420 | the physiology leaves performance in [0, 1] and moves nobody |
| HabitatAir.StepLedger | Simulator/src/ResourceModel.cpp:32-77 | masses stay non-negative, inert gas only leaves, and the balance of the step holds from below, with equality exactly when no clamp fires |
| HabitatAir.LeakKeepsRatios | Simulator/src/ResourceModel.cpp:40-52 | a leak without clamping preserves the ratio of every pair of gases |
| HabitatAir.WindowIsLastHour | Simulator/src/ResourceModel.cpp:90-96 | pushing samples one by one leaves exactly the latest ones, as many as one hour holds |
| LedgerRun.MassLedger | Simulator/src/Simulation.cpp:505-523 | over any run total mass is at least initial plus produced minus consumed, leaked and scrubbed, with equality exactly when no inventory was ever clamped at zero |
| LedgerRun.InertOnlyLeaves | Simulator/src/ResourceModel.cpp:40-61 | inert gas never increases from one step to the next |
| Co2Run.AverageIsHourly | Simulator/src/ResourceModel.cpp:190-196 | in every step of a run the reported average is that of the last measurements, as many as fit into an hour |
| Co2Run.LimitIsOnTheAverage | Simulator/src/Simulation.cpp:289-291 | the CO2 hard limit fails a step exactly when the hourly average reaches it; with steps longer than an hour the window is empty and the limit never fails a run |
| Resources.ForecastMeetsReserve | Simulator/src/ResourceModel.cpp:285-294 | draining at the present margin for the forecast hours leaves precisely the battery reserve |
| Resources.BatteryFollowsMargin | Simulator/src/ResourceModel.cpp:112-129 | stored energy stays between empty and full, never falls on a surplus and never rises on a deficit |
| Resources.TemperatureFollowsHeat | Simulator/src/ResourceModel.cpp:131-152 | the cabin warms exactly when more heat comes in than can be rejected and cools exactly when heat is drawn out |
| Resources.ForecastsMeetLimits | Simulator/src/ResourceModel.cpp:198-266 | the oxygen, pressure and CO2 forecasts are the times at which a quantity that keeps its present trend reaches its limit, and are absent exactly when the trend leads away |
| Evaluation.DeadlineIsSoonest | Simulator/src/Simulation.cpp:206-213 | the resource deadline is the soonest of the forecasts that are finite and not negative, and exists exactly when one is |
| CrewComparison.WorseAirNeverHelps | Simulator/src/CrewPhysiologyModel.cpp:505-538 | two runs of the same schedule: with pointwise worse air, after any number of steps exposures, fatigue, heart and breathing rate are no lower, saturation and performance no higher, alarms a superset and health no better |
| CrewComparison.StepWorsens | Simulator/src/CrewPhysiologyModel.cpp:505-538 | the one-step comparison, including that both profile lookups fail or succeed together |
| CrewPhysiology.FindProfile | Simulator/src/CrewPhysiologyModel.cpp:129-149 | the lookup succeeds exactly when one profile has the activity, and tells a missing from a duplicate profile |
| CrewPhysiology.StepBounds | Simulator/src/CrewPhysiologyModel.cpp:390-503 | after a step performance and fatigue lie in [0, 1], exposures are not negative, schedule fields are untouched, and Nominal means no alarm |
| CrewPhysiology.AlarmsAreRaised | Simulator/src/CrewPhysiologyModel.cpp:427-461 | an alarm is listed exactly when its condition holds |
| MathUtils.LowSideMeaning | Simulator/src/MathUtils.cpp:20-24 | the severity is 0 exactly at or above safe, 1 exactly at or below critical, and never rises with the value |
| MathUtils.HighSideMeaning | Simulator/src/MathUtils.cpp:26-30 | the mirrored statement for the high side |
| StabilizationRun.StabilizedExactly | Simulator/src/Simulation.cpp:264-418 | a run is stabilized exactly at the first step at which the last steps, as many as the hold time needs, all met the conditions, with no hard failure in any step so far; it fails exactly at the first step with a hard failure |
| StabilizationRun.TimerIsStreak | Simulator/src/Simulation.cpp:384-411 | the stabilization timer is the step length times the present unbroken streak |
| StabilizationRun.StreakIsWindow | Simulator/src/Simulation.cpp:384-411 | a streak of m steps is: the last m steps were all good |
| ActionRun.RecordsInRun | Simulator/src/ActionExecutor.cpp:108-152 | each action has at most one record, truly told and with progress in [0, 1]; it has one exactly when its start lies on the grid of simulated minutes and has been reached |
| ActionRun.RecordsOnlyMoveForward | Simulator/src/ActionExecutor.cpp:457-527 | records are never removed; one that is no longer active never changes, an active one never fails |
| ActionRun.MinuteStepsMissNothing | Simulator/src/ActionExecutor.cpp:114-122 | with steps of less than two minutes an action has a record exactly when its start has been reached |
| Actions.StartContained | Simulator/src/ActionExecutor.cpp:108-455 | a start logs exactly one record of its action, touches neither physics nor a body, and only a repair that starts changes the EVA side |
| RoverRun.RoverIsHeldExactly | Simulator/src/ActionExecutor.cpp:392-424 | with one delay the rover is out of reach of action k exactly from the turn of the delay through the minute at which it is over |
| RoverRun.ValidationMissesTheLastMinute | Simulator/src/Validator.cpp:370-388 | among validated repairs the rover is held exactly for those that start when the delay is over |
| RoverRun.HeldRoverFailsRepair | Simulator/src/ActionExecutor.cpp:354-362 | such a repair fails to start although its plan is valid |
| RepairCrew.ResolversAgreeExactly | Simulator/src/ActionExecutor.cpp:53-64 | validation and the executor send the same member if and only if the EVA field is set, one of the two other sources is empty, or both name the same member |
| RepairCrew.ValidPlanSendsTheWrongMember | Simulator/src/Validator.cpp:314-335 | a valid plan whose repair fails at every start: the validated member is qualified, the assigned one is not or is unknown |
| RepairCrew.ValidatedIsSendable | Simulator/src/Validator.cpp:314-335 | a validated repair names a member who can be sent, and the executor sends that member wherever the two orders agree |
| RepairCrew.UnsendableNeverStarts | Simulator/src/ActionExecutor.cpp:306-335 | a repair whose member by the order of the executor is unknown or not qualified fails to start in every state |
| RepairCrew.WrongMemberFailsInRun | Simulator/src/ActionExecutor.cpp:306-335 | in every run of a plan of such repairs every record is a failed one |
| RunResult.MetricsReadHistory | Simulator/src/Simulation.cpp:420-454 | every minimum and maximum bounds all samples and is attained by one (maxima start from zero); the flags tell whether any sample shows the event |
| RunResult.SampleTimes | Simulator/src/Simulation.cpp:495-568 | sample k was taken at k whole steps |
| RunResult.RunIsShort | Simulator/src/Simulation.cpp:559-568 | a run has at most maximum duration divided by step, plus two, samples |
| RunResult.TimelineIsOrdered | Simulator/src/Simulation.cpp:549-549 | the timeline, the concatenation of the step events, is in order of time |
| RunResult.RunIsUnique | Simulator/src/Simulation.cpp:464-573 | a scenario and a plan have one run: two histories that have ended are the same |
| RunResult.EndTellsWhy | Simulator/src/Simulation.cpp:551-563 | a run succeeds exactly when stabilized, fails with the reasons of its last step exactly when there are any, and fails for its duration exactly when neither holds |
| Completion.StepBreaksExactly | Simulator/src/CrewPhysiologyModel.cpp:129-149 | a step breaks off exactly when, after the scheduled actions, some member needs a profile that is missing or not the only one |
| Completion.EndIsReached | Simulator/src/Simulation.cpp:499-569 | with one profile for each activity every run, from any point on, has a continuation that ends |
| Completion.RunGoesOn | Simulator/src/Simulation.cpp:499-569 | with one profile for each activity every run that has not ended has a next step |
| Simulator.RunInternal | Simulator/src/Simulation.cpp:464-573 | rejects exactly the inputs validation rejects; otherwise returns a reading of the one ended history, or the lookup error at which it breaks off, which one profile for each activity excludes |
| Simulator.Loop | Simulator/src/Simulation.cpp:499-569 | the run loop: every step extends the history, metrics, timeline and samples follow it, and the loop ends |
| Simulator.StepOnce | Simulator/src/Simulation.cpp:500-535 | one pass of the loop is exactly one specified step, error included |
| Simulator.UpdateExtrema | Simulator/src/Simulation.cpp:420-454 | updates every metric from the sample |
| Simulator.InitializeCrew | Simulator/src/CrewPhysiologyModel.cpp:35-75 | initial crew states, or the lookup error of the first member without one profile |
| Validator.ValidateScenario | Simulator/src/Validator.cpp:54-253 | valid exactly when every scenario rule holds |
| Validator.ValidatePlan | Simulator/src/Validator.cpp:255-391 | valid exactly when every action rule holds and no repair starts while a delay reserves the rover |
| HabitatState.SimulationState.constructor | Simulator/src/Simulation.cpp:26-76 | the initial state of a run |
| HabitatState.SimulationState.UpdateAtmosphere | Simulator/src/ResourceModel.cpp:32-62 | consumption, proportional leak, clamp at zero, in place |
| HabitatState.SimulationState.UpdateCarbonDioxide | Simulator/src/ResourceModel.cpp:64-98 | production, limited scrubbing, and the sample window trimmed to one hour |
| HabitatState.SimulationState.UpdateElectricalPower | Simulator/src/ResourceModel.cpp:112-129 | battery charge or discharge with its efficiency, clamped to the capacity |
| HabitatState.SimulationState.UpdateThermalState | Simulator/src/ResourceModel.cpp:131-152 | temperature from heat input and limited rejection |
| HabitatState.SimulationState.AggregateCrewLoads | Simulator/src/CrewPhysiologyModel.cpp:541-563 | sums over the crew without the walkers |
| HabitatState.SimulationState.UpdateAllCrew | Simulator/src/CrewPhysiologyModel.cpp:566-591 | every roster member, found by id, has one physiology step; a failed lookup is reported |
| HabitatState.SimulationState.UpdateEvaAndRepair | Simulator/src/ResourceModel.cpp:327-451 | the first walker advances: rover energy, time, forced returns, phase, repair |
| HabitatState.SimulationState.ApplyScheduledActions | Simulator/src/ActionExecutor.cpp:108-152 | due actions start in plan order, each once |
| HabitatState.SimulationState.StartReducePowerLoad | Simulator/src/ActionExecutor.cpp:154-226 | groups are shed in order; a group that may not be shed fails the action and keeps what was shed |
| HabitatState.SimulationState.StartIsolateModule | Simulator/src/ActionExecutor.cpp:228-264 | fails with crew inside, else shrinks the volume and scales the leak |
| HabitatState.SimulationState.StartOxygenRationing | Simulator/src/ActionExecutor.cpp:266-304 | targets are rationed in order; an unknown one fails the action and keeps the earlier ones |
| HabitatState.SimulationState.StartRepairSolarArray | Simulator/src/ActionExecutor.cpp:306-390 | the conditions of a repair start, and the reset of the EVA counters |
| HabitatState.SimulationState.StartDelayRoverUse | Simulator/src/ActionExecutor.cpp:392-424 | reserves the rover, or fails without a positive duration |
| HabitatState.SimulationState.StartSendEmergencyPacket | Simulator/src/ActionExecutor.cpp:426-455 | starts a transmission in an open window, once |
| HabitatState.SimulationState.UpdateActiveActions | Simulator/src/ActionExecutor.cpp:457-527 | active records advance, complete, release the rover, send the packet, follow the EVA |
| HabitatState.SimulationState.ApplyCrewAbortRules | Simulator/src/Simulation.cpp:135-159 | critical walkers are called back |
| HabitatState.SimulationState.CollectReasons | Simulator/src/Simulation.cpp:280-334 | the list of hard failures in order of report |
| HabitatState.SimulationState.ConditionsMet | Simulator/src/Simulation.cpp:215-262 | decides whether the stabilization conditions hold |
| HabitatState.SimulationState.EvaluateMissionState | Simulator/src/Simulation.cpp:264-418 | the new state, mission telemetry, verdict and events of the evaluation |
| ReplayClock.IndexIsGreatestDue | backend/app/services/replay_clock.py:51-69 | the index is the greatest due sample, and complete holds exactly at the last one |
| ReplayClock.DelayIsTight | backend/app/services/replay_clock.py:51-69 | before completion the delay lies in 1..interval milliseconds and is the least that makes the next sample due |
| ReplayClock.DelayAdvancesByOne | backend/app/services/replay_clock.py:51-69 | waiting the delay advances the index by exactly one if and only if the start is not in the future |
| ReplayClock.PositionIsMonotone | backend/app/services/replay_clock.py:87-94 | later instants never report an earlier sample nor undo completion |
| TelemetryReplay.ParseIsExact | backend/app/services/telemetry_replay_service.py:399-428 | exactly the canonical decimals of 0..count are accepted; some digit characters escape as an uncaught error |
| TelemetryReplay.DecimalRoundTrip | backend/app/api/sse.py:77-86 | an event id written to the wire parses back to its sequence number |
| TelemetryReplay.BuildEventBatch | backend/app/services/telemetry_replay_service.py:299-372 | a batch is the slice of the whole stream from the resume point to the last due event |
| TelemetryReplay.LoadedContextIsValid | backend/app/services/telemetry_replay_service.py:122-181 | a loaded context carries a replayable session, its linked result and a position within it |
| TelemetryReplay.TelemetryReplayService.LoadReplayContext | backend/app/services/telemetry_replay_service.py:122-181 | reads, verifies and, at the end, completes the session under its lock |
| TelemetryReplay.TelemetryReplayService.GetCurrentTelemetry | backend/app/services/telemetry_replay_service.py:90-104 | serves the greatest due sample, or the last after completion |
| TelemetryReplay.TelemetryReplayService.GetDueEvents | backend/app/services/telemetry_replay_service.py:106-120 | one batch request as one atomic step |
| ExactlyOnce.DeliveredExactlyOnce | backend/app/services/telemetry_replay_service.py:299-372 | in any interleaving without a restart a client has received a gap-free, duplicate-free run of the stream from its resume point |
| ExactlyOnce.ReceivedMeansOnce | backend/app/services/telemetry_replay_service.py:299-372 | telemetry k carries sample k, none is early, and the complete event comes once and last |
| ExactlyOnce.StepKeepsEpoch | backend/app/services/mission_lifecycle_service.py:350-421 | only a replay start moves a session out of its epoch |
| ExactlyOnce.FetchedBatchContinues | backend/app/services/telemetry_replay_service.py:299-372 | a batch continues the stream right after the cursor and holds only due events |
| ExactlyOnce.JoinedClientIsOk | backend/app/services/telemetry_replay_service.py:399-428 | a client that joins with a valid header meets the premise of exactly-once delivery |
| Sse.StreamReplay | backend/app/api/sse.py:89-198 | one stream always ends; what it sends is a consecutive run of the stream; it ends as terminal only after the complete event, and does so unless a poll fails or the client leaves |
| Sse.ServeStream | backend/app/api/routes/missions.py:194-246 | a request is refused exactly when every slot is taken; otherwise it is one stream, and its slot is given back however the stream ended |
| Sse.StreamLoop | backend/app/api/sse.py:114-150 | the loop with its cursor, by a measure on unsent events and time to the final sample |
| Sse.SendBatch | backend/app/api/sse.py:119-125 | events are sent in order with a connection check before each |
| Sse.Wait | backend/app/api/sse.py:131-144 | sleeps are cut to one heartbeat and make time advance |
| Sse.PollAnswers | backend/app/services/telemetry_replay_service.py:106-120 | a poll in the epoch answers the next due stretch, the end, or a positive delay |
| Sse.ReplayStreamLimiter.TryAcquire | backend/app/api/sse.py:62-67 | a lease is given exactly while slots are free |
| Sse.StreamLease.Release | backend/app/api/sse.py:38-42 | a slot is given back once |
| SessionStore.SessionStore.CreateSession | backend/app/services/session_store.py:137-191 | creation refuses an existing id and stores the record |
| SessionStore.SessionStore.ReadSession | backend/app/services/session_store.py:194-282 | a record that is missing, damaged or inconsistent does not parse |
| SessionStore.SessionStore.ReplaceSession | backend/app/services/session_store.py:285-370 | compare-and-swap on status and update time, with the unknown outcome of a failed re-read |
| SessionStore.SwapAfterRead | backend/app/services/session_store.py:285-370 | a swap based on a record just read under the lock is never refused as stale |
| Lifecycle.MissionLifecycleService.CreateSession | backend/app/services/mission_lifecycle_service.py:100-126 | creates a READY session, or refuses an unknown scenario and stores nothing |
| Lifecycle.MissionLifecycleService.TriggerAccident | backend/app/services/mission_lifecycle_service.py:231-347 | marks the session, invokes the simulator once, links the result or stores the error |
| Lifecycle.MissionLifecycleService.PersistTriggerError | backend/app/services/mission_lifecycle_service.py:431-483 | stores the error state, or reports the store failure |
| Lifecycle.MissionLifecycleService.StartReplay | backend/app/services/mission_lifecycle_service.py:350-421 | starts or restarts a replay of a linked baseline |
| Lifecycle.MissionLifecycleService.ReconcileInterruptedSessions | backend/app/services/mission_lifecycle_service.py:133-228 | the startup sweep with its counters |
| Lifecycle.SweepSettles | backend/app/services/mission_lifecycle_service.py:133-228 | the five counters partition the sessions, no swap conflicts, and after a normal return no readable session is TRIGGERING |
| Lifecycle.ReconcileOneSettles | backend/app/services/mission_lifecycle_service.py:143-201 | one session is settled or left as it was |
| Lifecycle.ReplayStartNeedsForwardClock | backend/app/services/mission_lifecycle_service.py:392-406 | a replay start writes a record that parses exactly when the clock has not gone backwards |
| Mission.EditsNeedForwardClock | backend/app/schemas/mission.py:138-217 | every edit made from its own status leaves a record that parses if and only if the clock is not behind the creation of the session or, for a replay start, behind its trigger |
| MissionProtocol.RunsStaySound | backend/app/services/mission_lifecycle_service.py:231-421 | over every interleaving with crashes all records parse, READY is never re-entered, baseline links never change, and the simulator is invoked at most once per session |
| MissionProtocol.StepKeepsSystem | backend/app/services/mission_lifecycle_service.py:231-421 | one atomic step keeps the invariant, makes only legal changes and raises no conflict |
| MissionProtocol.BeginTriggerIsLegal | backend/app/services/mission_lifecycle_service.py:231-254 | what the first locked segment of a trigger stores is one READY to TRIGGERING edge on one record, or nothing, and never a stale swap |
| MissionProtocol.FinishTriggerIsLegal | backend/app/services/mission_lifecycle_service.py:275-347 | what the second segment stores is an edge from TRIGGERING to a linked baseline or an error, or nothing |
| MissionProtocol.StartReplayIsLegal | backend/app/services/mission_lifecycle_service.py:350-421 | what a replay start stores is an edge to REPLAYING that keeps the baseline link, or nothing |
| MissionProtocol.ReconcileIsLegal | backend/app/services/mission_lifecycle_service.py:133-228 | what recovery stores is an edge from TRIGGERING to ERROR, or nothing |
| MissionProtocol.LoadContextIsLegal | backend/app/services/telemetry_replay_service.py:273-290 | loading a context stores at most the edge from REPLAYING to COMPLETED, and only once the last sample is due |
| CoverageSelection.GreedyIsOptimal | backend/app/services/procedure_retrieval.py:229-263 | within every prefix of the score order the greedy selection keeps at least as many items as any selection of that size and coverage |
| CoverageSelection.GreedyCompetes | backend/app/services/procedure_retrieval.py:229-263 | it has min(top_k, n) items and covers min(top_k, number of procedures) procedures |
| CoverageSelection.GreedyMaximizesTotal | backend/app/services/procedure_retrieval.py:229-263 | it has the greatest total score for every scoring in that order |
| ProcedureRetrieval.SelectWithProcedureCoverage | backend/app/services/procedure_retrieval.py:229-263 | returns exactly the greedy selection, in score order |
| ProcedureRetrieval.KeepRepresentatives | backend/app/services/procedure_retrieval.py:239-251 | the first pass keeps the best item of each procedure |
| ProcedureRetrieval.FillByScore | backend/app/services/procedure_retrieval.py:252-260 | the second pass fills with the best of the rest |
| ProcedureRetrieval.Retrieve | backend/app/services/procedure_retrieval.py:133-227 | the answer is the greedy selection among the reranked candidates of the similarity cut |
| ProcedureRetrieval.CandidatesAreBest | backend/app/services/procedure_retrieval.py:147-162 | whatever the cut leaves out comes after every candidate |
| ProcedureRetrieval.SortRanks | backend/app/services/procedure_retrieval.py:194-199 | sorting by score, similarity and position is a strict ranking of the same items |
| GreedyPacking.PackIsMinimal | backend/app/services/procedure_corpus.py:528-555 | no admissible contiguous grouping of the blocks has fewer groups |
| GreedyPacking.PackGroups | backend/app/services/procedure_corpus.py:528-555 | every group is one block or within the limit, and together they are the blocks |
| GreedyPacking.SplitSectionContent | backend/app/services/procedure_corpus.py:528-555 | the contents of a section are the joined groups of the greedy packing |
| GreedyPacking.JoinGroups | backend/app/services/procedure_corpus.py:528-555 | joining the groups gives back the joined section |
| MarkdownBlocks.TokenizeBlocks | backend/app/services/procedure_corpus.py:600-721 | the tokenizer by its scans |
| MarkdownBlocks.TokensKeepContent | backend/app/services/procedure_corpus.py:600-721 | the blocks show exactly the non-blank lines, in order and once |
| MarkdownBlocks.TokensHaveContent | backend/app/services/procedure_corpus.py:600-721 | no block is without content |
| ManualSections.OpenIsEnclosing | backend/app/services/procedure_corpus.py:450-469 | the heading stack holds exactly the enclosing headings, outermost first, with strictly increasing levels |
| ManualSections.PopToKeepsLower | backend/app/services/procedure_corpus.py:462-465 | popping keeps exactly the headings of smaller level |
| ManualSections.ParseSections | backend/app/services/procedure_corpus.py:409-470 | sections show exactly the retained lines, each under the path of its enclosing headings; an empty heading is the only error |
| ManualSections.Flush | backend/app/services/procedure_corpus.py:423-448 | ends a section; metadata sections and empty ones are dropped |
| ManualSections.RetainedStretch | backend/app/services/procedure_corpus.py:423-448 | a stretch without headings contributes its non-blank lines under one path |
| ProcedureCorpus.ChunkManual | backend/app/services/procedure_corpus.py:409-555 | manual to chunks is lossless: every retained non-blank line comes out once, in order, in a chunk under its heading path |
| ProcedureCorpus.ChunksKeepContent | backend/app/services/procedure_corpus.py:472-526 | chunking the sections keeps their lines |
| ProcedureCorpus.ChunkDocument | backend/app/services/procedure_corpus.py:472-526 | chunks are numbered from zero through the document |
| FencedBlocks.FenceStaysWholeExactly | backend/app/services/procedure_corpus.py:450-469 | in every manual the fence that a line of an operational section opens comes out as one block of that section, up to its closing line, if and only if no line after the opening one reads as a heading; otherwise the block ends at the first such line |
| FencedBlocks.ShowsWholeFence | backend/app/services/procedure_corpus.py:600-632 | what that block shows are exactly the non-blank lines of the whole fence if and only if no line of it after the first reads as a heading |
| FencedBlocks.FencedCommentCutsSection | backend/app/services/procedure_corpus.py:450-469 | a closed fence of three lines around a comment that reads as a heading comes out as its opening line alone |
| TextLines.SplitJoin | backend/app/services/procedure_corpus.py:415-415 | splitting undoes joining |
| TextLines.ContentOfStripped | backend/app/services/procedure_corpus.py:626-630 | stripping trailing newlines loses no content |

## Left out

- Simulator.RunInternal: does not model scenarios with equal warning and failure thresholds, which validation accepts, because their severities divide by zero and may not be numbers.
- Validator.ValidateScenario: does not check the rules on fields that are left out (see below).
- Validator.ValidatePlan: does not check that the plan has an id.
- Sse.StreamReplay: does not model cancellation, which ends a stream where it waits, as a disconnect does; the release of the slot is in Sse.ServeStream.
- Lifecycle.MissionLifecycleService.CreateSession: does not model the scenario registry; whether the scenario resolves is an input.
- ProcedureRetrieval.Retrieve: does not check the query, the model names and the vectors; scores are given numbers.
- OverrunRun.RunsReturnExactly: does not model an abort fraction of one, at which nobody survives the first minute; EvaOverrun.ReturnsExactly includes it.
- Solar trigonometry: healthy generation is a given power that the fault factor scales.
- IEEE floating point: rounding, NaN and infinities; sums and products are exact.
- Scenario and plan fields that no modelled step reads, with their validation rules (ids of scenario and plan, body mass, humidity, nominal oxygen, high pressure limit, solar array geometry).
- Validation errors and event messages: only the verdict, and events without their text and severity.
- Telemetry that nothing in a step reads back (oxygen fraction, solar percent, thermal power, next communication window, display names).
- Crew members and action records are values in sequences that the state object replaces element by element; pointers to them are not modelled.
- Records keep one crew id, not the list of assigned ids, and no failure text.
- Several EVAs at once and overlapping rover delays share single counters in the code: the model runs them, the EVA and reservation theorems are for one of each.
- A closed loop in the comparison of two crews: lower performance lowers metabolic draw, so the result is for given air sequences.
- JSON input and output of the simulator, process launching, the run store.
- File system, atomic writes, path checks and identifier parsing: the store is a map with one replacing step, and failures are inputs.
- The lock dictionary of the store: locked segments are atomic steps of the protocol.
- Naive datetimes and settings; instants carry no zone.
- Last-Event-ID headers with characters beyond Latin-1 and numbers of more than 4300 digits.
- The metrics and failure reasons repeated in the complete event.
- Embedding, rerank calls, vector checks and hashes: scores are given numbers.
- Manual normalisation, metadata extraction, chunk ids and embedding text.
- Planner, planning stores, guards, HTTP routes, error classes and logging.
