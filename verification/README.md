# Loadify: a verified model

Loadify is a distributed load-testing system. A coordinator admits, queues, dispatches and ends
test runs; workers drive virtual users (VUs) along a sliced ramp, record every result and flush
one batch per second; the coordinator merges the batches, emits one finished second at a time to
the store and to live listeners, and watches the error rate. This project models that core and
proves what it is for.

| module | what it covers |
|---|---|
| `LoadShape`, `Pacer`, `VuPool` | slicing a ramp over workers, interpolating it, pacing arrivals, growing and shrinking the VU pool |
| `Rendezvous` | the rendezvous barrier with its generations and late timers |
| `Registry` | worker registration, teardown and eligibility |
| `Coordinator`, `CoordinatorService`, `CoordinatorSafety`, `CoordinatorProgress` | the run lifecycle: what each critical section computes, the mutable service that does it, invariants over every history, and what each step achieves |
| `Metrics`, `Sampler`, `Aggregator`, `AggregatorLaws`, `Pipeline` | recording, flushing, merging, per-second finalization, and the whole cluster against one central recorder |
| `Series` | the stored time series, its summary and the live view |
| `Breakers`, `Alert` | the automatic stop and the alert, against a recomputation from history, and against each other |
| `RateLimiter` | the self-pruning login limiter |
| `EndToEnd` | whole runs, from the workers' results to the watchers and the readers of the store |
| `Collections` | worker ids, options, distinctness, sums over sequences and maps |

How the model is built:

- Code that mutates state is a class; each method's postcondition names the new state as a
  function of the old one (`Abs() == Step(old(Abs()), ...)`). The promises are lemmas about those
  functions over whole histories, so they hold of the methods.
- Coordinator events are single critical sections of the service's mutex. The registry and the
  send channels have locks of their own, so what they answer while the mutex is held is an input
  (`Poll`, `World`), different for every dispatch of a drain. A stop's timer and the reaper's
  forced endings are later `Force` events; the breaker's callback is `Trip` followed by `Stop`.
- A history is any sequence of events with any clock readings (`Trace`). `NoOverlap` excludes one
  thing: a worker registering an active run whose id is still in the queue (and a breaker
  callback for a run that was never dispatched, which has no aggregator to call it).
  `OrderlyIffNoOverlap` proves that no weaker assumption would do.
- A histogram is the multiset of its clamped latencies, merging is multiset sum. `float64` is
  `real`. Go's truncating division is written out (`TruncDiv`, `TruncMod`).

What came out false of the code is stated exactly:

- `splitEven` promises that the shares add up to the total; they do if and only if the total is
  non-negative or divisible by the number of workers (`LoadShape.SplitExactIff`).
- A run rehydrated while it is still queued is started a second time and leaks a slot
  (`CoordinatorSafety.OverlapStartsTwice`, a whole history); a step keeps the books in order if and
  only if it is not of that kind (`CoordinatorSafety.OrderlyIffNoOverlap`).
- Stopping a run ends it for good if and only if it is dispatched when the stop's timer fires
  (`CoordinatorSafety.StopEndsIffDispatched`); if it still waits then, a later start leaves no trace of
  the stop (`CoordinatorProgress.LaunchForgetsTheWait`).
- A worker whose send buffer is full is skipped and its slice is not re-dealt, so the requested
  load arrives if and only if it was due none (`CoordinatorProgress.DeliveredIffNothingSkipped`).
- Finished messages are counted without asking who sent them. When a run turns COMPLETED, its
  finished workers are its assigned ones if and only if everybody who ever reported it is assigned
  to it (`CoordinatorProgress.CompletionIsRealIff`; `CompletionStep` says the same of one step from
  any state). Otherwise strangers can complete it (`StrangersCompleteARun`, a whole history).
- Second 0 doubles as "nothing emitted yet". A step keeps emission exactly-once and in order if and
  only if it is not the arrival of a second <= 0 after second 0 was emitted
  (`AggregatorLaws.OrderedIffNoRelapse`); replaying a batch of second 0 is such a run
  (`AggregatorLaws.ReplayIsHarmlessIffNonzero`).
- The watchdog is sound in every history (`CoordinatorProgress.CondemnedOnlyWhenLost`), but prompt only
  for the streak since a run was last started (`WatchdogIsExact`): a run started twice can stay lost
  longer (`SecondStartForgetsTheStreak`).
- The alert does not warn before the breaker trips for every pair of settings. With equal windows it
  does if and only if it is at least as sensitive or the breaker, at 100 percent or more, cannot trip
  (`Alert.WarnsIffSensitive`). With a longer window than the breaker's it never does, below 100 percent
  (`Alert.LongerWindowNeverWarns`); with a shorter one that divides the breaker's it does if its threshold
  is no higher and one request is volume enough (`Alert.DividingWindowWarns`).
- A stage of zero duration hides all later stages (`LoadShape.ZeroStageHidesTheRest`), so a ramp that
  is over holds its last target if and only if its first stage of zero duration, if there is one, has
  that very target (`LoadShape.HoldsLastTargetIff`). Stages that all last are passed in full
  (`LoadShape.LastingStagesPass`).
- A teardown removes only the id its stream registered last. It leaves an entry behind if and only if
  the stream still keeps another id (`Registry.TeardownLeaksIff`), and an id maps to the stream that
  registered it last until that stream goes if and only if it was not left behind so
  (`Registry.ReconnectSafeIff`); a stream that registers two ids does that (`Registry.SecondIdLeaks`).

The comment on `Flush` says that it returns nil when nothing was recorded; the code returns a
heartbeat batch, and so does the model (internal/worker/sampler/sampler.go:109-130).

`dafny verify dfyconfig.toml` checks the whole project.

## Model

| member | source | states |
|---|---|---|
| LoadShape.SplitEven | internal/coordinator/scheduler/scheduler.go:35-49 | The loop fills in the share of each index: the truncated quotient, plus one below the remainder. |
| LoadShape.SplitExactIff | internal/coordinator/scheduler/scheduler.go:33-49 | The shares sum to the total if and only if the total is non-negative or divisible by the number of workers. |
| LoadShape.SplitIsEven | internal/coordinator/scheduler/scheduler.go:8-10 | Any two shares differ by at most one, the larger one first; shares of a non-negative total are non-negative. |
| LoadShape.SliceRamp | internal/coordinator/scheduler/scheduler.go:11-31 | One ramp per worker, with every stage's duration kept and both targets split; none for n <= 0. |
| LoadShape.PickWorkers | internal/coordinator/scheduler/scheduler.go:51-58 | A prefix of the candidates: as many as desired, or all if that is not positive or too many. |
| LoadShape.RateAt | internal/worker/executor/ramp.go:54-77 | The loop computes the interpolated level of the rate curve. |
| LoadShape.TargetAt | internal/worker/executor/ramp.go:80-105 | The loop computes the rounded level of the VU curve, truncating as Go does. |
| LoadShape.FirstStageIsStraight | internal/worker/executor/ramp.go:67-71 | Before a stage starts the level is the previous target; from then on (level - previous) * duration = elapsed * (target - previous). |
| LoadShape.StageIsStraight | internal/worker/executor/ramp.go:60-98 | Inside any stage of a ramp the level has covered the way between the two targets in proportion to the time elapsed, and the VU target is that level rounded to the nearest whole number. |
| LoadShape.PeakRps | internal/worker/executor/ramp.go:41-49 | The largest target rate, or 0 if none is positive. |
| LoadShape.LevelsAddUp | internal/worker/executor/ramp.go:58-76 | Interpolation is linear: at every time the slices' levels sum exactly to the level of the whole. |
| LoadShape.RatesAddUp | internal/worker/executor/ramp.go:51-77 | Open model: at every instant the workers' rates on their slices sum exactly to the global rate. |
| LoadShape.LevelNonNegative | internal/worker/executor/ramp.go:63-76 | A curve without negative entries is never at a negative level. |
| LoadShape.RoundedNearLevel | internal/worker/executor/ramp.go:93-104 | Rounding is off by at most one half, exact past the end, and never negative. |
| LoadShape.TargetsStayClose | internal/coordinator/scheduler/scheduler.go:8-31 | Closed model: for n workers the sum of rounded targets is within (n + 1) / 2 of the global rounded target at every time, and equal to it past the end. |
| LoadShape.ZeroStageHidesTheRest | internal/worker/executor/ramp.go:63-92 | Whatever follows a stage of zero duration has no effect at any time, on the rate curve and on the VU curve. |
| LoadShape.LastingStagesPass | internal/worker/executor/ramp.go:60-104 | Once stages that take time are over, both curves are those of the stages that follow, starting at the level reached. |
| LoadShape.OverAfterTotal | internal/worker/executor/ramp.go:18-27 | A ramp without negative durations is over once their sum has elapsed. |
| LoadShape.PastTheEnd | internal/worker/executor/ramp.go:60-104 | Once every stage it reaches is over, a ramp is at the target of its first stage of zero duration, or else of its last stage; negative durations included. |
| LoadShape.HoldsLastTargetIff | internal/worker/executor/ramp.go:76-104 | A ramp that is over holds its last target if and only if its first stage of zero duration, if any, has that target. |
| Pacer.ArrivalExecutor.constructor | internal/worker/executor/arrival.go:48-64 | The pool's size is the requested one, or five times the peak rate plus 100, cut to the ceiling. |
| Pacer.ArrivalExecutor.Tick | internal/worker/executor/arrival.go:102-121 | One tick releases the whole part of the accumulated rate, whatever the workers take meanwhile; every released job is queued or dropped, drops happen only once the channel's room is exceeded, and the pool grows to demand but not above the maximum. |
| Pacer.ReleasesTheFloor | internal/worker/executor/arrival.go:88-105 | Over any schedule of rates, 0 <= acc < 1 and the released total is exactly the floor of the summed rates. |
| Pacer.FleetConserves | internal/worker/executor/arrival.go:102-105 | Across n sharded workers, releases plus carried fractions equal the global schedule. |
| Pacer.FleetTracksSchedule | internal/worker/executor/arrival.go:88-112 | n workers ticking together have released a total in (S - n, S], S being the global sum. |
| VuPool.ClampVUs | internal/worker/executor/limits.go:27-33 | Never above the target nor above a positive ceiling, and equal to one of the two; a ceiling of zero or less is none. |
| VuPool.Executor.SpawnLocked | internal/worker/executor/executor.go:144-151 | Appends a handle with the next id; every id is still held by exactly one live or cancelled handle. |
| VuPool.Executor.CancelLast | internal/worker/executor/executor.go:138-140 | Cancels the youngest handle and keeps the others. |
| VuPool.Executor.GrowTo | internal/worker/executor/executor.go:134-136 | Growing reaches the goal by appending fresh handles and touches nothing if it is already met. |
| VuPool.Executor.ShrinkTo | internal/worker/executor/executor.go:137-141 | Shrinking keeps the oldest handles and cancels the rest, youngest first; it panics exactly for a negative goal. |
| VuPool.Executor.ScaleTo | internal/worker/executor/executor.go:121-142 | Leaves exactly the target alive, the ceiling if that is lower, none once stopped; growing cancels nobody, shrinking cancels youngest first; a negative goal empties the pool and panics. |
| VuPool.HandlesAreDistinct | internal/worker/executor/executor.go:144-151 | From the kept invariant: no id is held twice or both live and cancelled, and the ids are 1 to n. |
| Rendezvous.Barrier.constructor | internal/worker/executor/barrier.go:24-28 | Starts in generation 0 with nobody waiting. |
| Rendezvous.Barrier.EnterWait | internal/worker/executor/barrier.go:30-53 | Entering, up to the first wait: joins the current generation, opens it when the target is reached or the context is done; leaves at once exactly if it opened. |
| Rendezvous.Barrier.TimerFires | internal/worker/executor/barrier.go:40-46 | The watchdog opens the generation it was armed in and otherwise does nothing. |
| Rendezvous.Barrier.WakeUp | internal/worker/executor/barrier.go:47-56 | A woken caller returns exactly if its generation has opened, opening it itself on cancellation. |
| Rendezvous.Barrier.ReleaseAll | internal/worker/executor/barrier.go:60-64 | Opens the current generation and resets the counter. |
| Rendezvous.StepKeeps | internal/worker/executor/barrier.go:30-64 | Each critical section keeps the barrier's invariant. |
| Rendezvous.BarrierSafe | internal/worker/executor/barrier.go:30-64 | In every interleaving: the counter is the number of callers blocked in the current generation and below the target; nobody returned before its generation opened; a generation opened by gathering had exactly `target` participants. |
| Rendezvous.StaleTimerIsHarmless | internal/worker/executor/barrier.go:40-46 | A timer acts only while its own caller is still blocked in the current generation; fired late it changes nothing. |
| Rendezvous.OpensIff | internal/worker/executor/barrier.go:34-54 | In every interleaving a step opens the current generation exactly if it completes the party, finds the context done, or is the timer of a caller still in it. |
| Rendezvous.GetsThroughIff | internal/worker/executor/barrier.go:30-57 | A caller returns exactly if its generation is open at the end of its step, by its own doing or another's; all others stay blocked. |
| Rendezvous.ReleasesAreFinal | internal/worker/executor/barrier.go:60-64 | Once opened, a generation's cause and party never change, and who returned has returned. |
| Registry.WorkerRegistry.constructor | internal/coordinator/registry/registry.go:73-78 | Empty, with six seconds to live unless told otherwise. |
| Registry.WorkerRegistry.Add | internal/coordinator/registry/registry.go:81-97 | Replaces the id's entry by one owned by the given channel; no other entry changes. |
| Registry.WorkerRegistry.Remove | internal/coordinator/registry/registry.go:106-114 | Deletes the entry exactly if it still belongs to the given channel, and says so. |
| Registry.WorkerRegistry.Touch | internal/coordinator/registry/registry.go:117-129 | Refreshes load, traffic and liveness of a known id and never changes ownership. |
| Registry.WorkerRegistry.Available | internal/coordinator/registry/registry.go:175-196 | Returns every eligible worker (healthy, protocol supported, below both thresholds), each once, and no other. |
| Registry.EligibleIff | internal/coordinator/registry/registry.go:41-62 | Eligibility from the fields, divisions multiplied out: seen within the lifetime, protocol supported, CPU below the threshold times the cores, memory below its share of the total, which is waived if none is reported. |
| Registry.EntryIffKept | internal/coordinator/registry/registry.go:81-114 | Over all event sequences, however many ids a stream registers: an id maps to a channel if and only if the channel registered it and since then nobody registered it again and the channel did not tear down with it as its last id. |
| Registry.TeardownIsNoOpIff | internal/coordinator/service.go:137-144 | A teardown changes no entry if and only if its stream has lost the id it registered last, or has none. |
| Registry.TeardownLeaksIff | internal/coordinator/service.go:137-158 | A teardown leaves an entry of its stream behind if and only if the stream still keeps an id other than the last it registered, or the empty one. |
| Registry.ReconnectSafeIff | internal/coordinator/registry/registry.go:99-114 | For any streams, "id maps to c exactly while c made its latest registration and has not gone" holds if and only if c did not leave id behind. |
| Registry.ReconnectSafe | internal/coordinator/registry/registry.go:99-114 | When each stream registers one id of its own, an id maps to the stream of its most recent registration until that very stream tears down, under every interleaving. |
| Registry.SecondIdLeaks | internal/coordinator/service.go:154-158 | A stream that registers any two ids and tears down leaves the first registered. |
| Coordinator.NothingAccepted | internal/coordinator/service.go:553-575 | A dispatch that no worker took has put no assignment on any channel. |
| CoordinatorService.Service.constructor | internal/coordinator/service.go:64-77 | No runs, nothing queued, no slot taken, 64 allowed, both thresholds at 85. |
| CoordinatorService.Service.SetLimits | internal/coordinator/service.go:100-108 | Only a positive limit replaces the old one; both thresholds are replaced. |
| CoordinatorService.Service.SendAll | internal/coordinator/service.go:553-571 | The workers with room get their own slice, in order; the crew is exactly those. |
| CoordinatorService.Service.DispatchLocked | internal/coordinator/service.go:513-581 | Refines the dispatch step with its two failures; a failed dispatch leaves the state as it was. |
| CoordinatorService.Service.DrainLocked | internal/coordinator/service.go:584-601 | The loop refines the drain over the old state, with the head put back on failure. |
| CoordinatorService.Service.FinalizeLocked | internal/coordinator/service.go:287-301 | Ends a run once: verdict, end time, slot freed and the queue drained in the same step. |
| CoordinatorService.Service.OnFinished | internal/coordinator/service.go:251-272 | Refines the Finished event: notes the worker, adds its drops and finalizes once as many have finished as were assigned. |
| CoordinatorService.Service.ForceFinalizeRun | internal/coordinator/service.go:320-337 | Refines the Force event: ends a run that holds a slot, keeping an earlier reason. |
| CoordinatorService.Service.RehydrateRuns | internal/coordinator/service.go:204-232 | The loop refines the Register event: joins a dispatched run or rebuilds an unknown one with a slot. |
| CoordinatorService.Service.OnStartRun | internal/coordinator/service.go:401-439 | Refines StartRun: an empty id is refused, a replay answered from the known run, otherwise dispatched or queued. |
| CoordinatorService.Service.OnStop | internal/coordinator/service.go:604-637 | Refines the Stop event and tells exactly the assigned workers that can be reached; an unknown run is reported. |
| CoordinatorService.Service.TellCrew | internal/coordinator/service.go:621-628 | The loop messages every assigned worker that is registered and has room, and no other. |
| CoordinatorService.Service.OnAutoStop | internal/coordinator/service.go:641-649 | Refines the breaker's verdict followed by an ordinary stop, messages included. |
| CoordinatorService.Service.ScanEntry | internal/coordinator/service.go:351-374 | One run's orphan clock and whether its grace has run out. |
| CoordinatorService.Service.ScanLocked | internal/coordinator/service.go:344-375 | The reaper's loop sets every clock and lists exactly the orphans, each once. |
| CoordinatorService.Service.ReapOnce | internal/coordinator/service.go:344-379 | A scan followed by the forced end of every orphan, when nothing falls between. |
| CoordinatorSafety.StepAccounted | internal/coordinator/service.go:204-649 | Every event whatever keeps: counter >= slots held, RUNNING implies a slot, a slot implies not ended. |
| CoordinatorSafety.SlotsAlwaysCovered | internal/coordinator/service.go:204-649 | In every reachable state, with no assumption on events: counter >= slots held >= 0; RUNNING implies a slot held and not ended. |
| CoordinatorSafety.DrainFit | internal/coordinator/service.go:584-601 | A drain, rewriting the map and queue as it goes, keeps the exact books and only advances runs. |
| CoordinatorSafety.StepFit | internal/coordinator/service.go:204-649 | Every step without overlap keeps the exact books (counter, queue, entries, assignments sent) and only advances runs. |
| CoordinatorSafety.OrderlyIffNoOverlap | internal/coordinator/service.go:211-229 | From orderly books, a step leaves them orderly if and only if it is without overlap. |
| CoordinatorSafety.AlwaysOrderly | internal/coordinator/service.go:204-649 | The exact books hold in every state of every history without overlap. |
| CoordinatorSafety.BooksBalance | internal/coordinator/service.go:401-439 | Without overlap: counter = slots held; a run is QUEUED exactly when it is in the queue, and in the queue exactly when it was not dispatched. |
| CoordinatorSafety.HistoryAdvances | internal/coordinator/service.go:204-649 | Between any two states of a history no run is lost, starts and ends are final, and the send log only grows. |
| CoordinatorSafety.VerdictsOnlyClimb | internal/coordinator/service.go:251-301 | QUEUED < RUNNING < COMPLETED < ABORTED only climbs, ABORTED is absorbing, a dispatched run's end never changes. |
| CoordinatorSafety.DispatchedAtMostOnce | internal/coordinator/service.go:401-439 | After a run is dispatched no assignment for it is ever sent again, replays included, and no worker ever got two for one run. |
| CoordinatorSafety.DispatchSends | internal/coordinator/service.go:553-571 | The assigned workers are exactly those sent a message, one each, and each message carries the slice of that worker's own index. |
| CoordinatorSafety.StartAnswersTruly | internal/coordinator/service.go:401-439 | Every answer of StartRun is true of the new state: so many workers assigned and messaged, last in the queue at that position, already known, or an error after which nothing has changed. |
| CoordinatorSafety.StartDecides | internal/coordinator/service.go:401-446 | Which answer a request gets: queued exactly if all slots are taken or nobody is eligible, started exactly if otherwise a picked worker has room, failed for one of two reasons if none has, and the answers for empty and known ids. |
| CoordinatorSafety.AcceptedLooksLike | internal/coordinator/service.go:426-438 | An accepted request's entry, field by field, with the ramp's durations added up; no other run is touched. |
| CoordinatorSafety.IdsStay | internal/coordinator/service.go:408-418 | No event of any history, overlap or not, makes the coordinator forget a run. |
| CoordinatorSafety.ReplaysChangeNothing | internal/coordinator/service.go:408-418 | StartRun is idempotent: after an accepted request, any later request with its id changes nothing and is answered from the run's state. |
| CoordinatorSafety.ForceEnds | internal/coordinator/service.go:320-337 | Forcing a dispatched run ends it and frees its slot for good, as ABORTED if it was RUNNING, and names the reason only if it has none. |
| CoordinatorSafety.StopMeansAborted | internal/coordinator/service.go:604-618 | A RUNNING run that is stopped is ABORTED, stopped by user, in every later state; any other keeps verdict and reason; the time of the first stop is noted and nothing else changes. |
| CoordinatorSafety.TripMeansAborted | internal/coordinator/service.go:641-648 | After the breaker's callback a run is ABORTED in every later state, with the breaker's reason, and keeps slot and end. |
| CoordinatorSafety.AfterTheStopTimer | internal/coordinator/service.go:604-637 | Once a stop's timer has fired, a dispatched run has ended and holds no slot in every later state; otherwise it was still queued and nothing changed. |
| CoordinatorSafety.StopEndsIffDispatched | internal/coordinator/service.go:604-637 | A stop, its timer, and anything between: the stop only notes the time on a queued run, and the timer ends the run for good if and only if it is dispatched by then, else it changes nothing. |
| CoordinatorSafety.OverlapStartsTwice | internal/coordinator/service.go:211-229 | A history in which a queued run is rehydrated and then started again, leaving the counter one too high. |
| CoordinatorProgress.DrainIsFifo | internal/coordinator/service.go:584-601 | A drain starts exactly the first n queued runs, one slot each, never above the limit, leaves all others alone, and stops only with an empty queue, full slots, no eligible worker or a head that cannot be sent. |
| CoordinatorProgress.DrainOnRun | internal/coordinator/service.go:584-601 | A drain leaves a run exactly as it was or starts it from the queue. |
| CoordinatorProgress.FreedSlotIsOffered | internal/coordinator/service.go:287-301 | Ending a run that holds a slot leaves the queue empty, the slots full, nobody eligible or the head unsendable. |
| CoordinatorProgress.RehydrateIs | internal/coordinator/service.go:204-232 | A reported run that is started gains the worker and nothing else; any other is RUNNING with that worker alone and a slot; runs not reported are untouched. |
| CoordinatorProgress.RehydrateTakesSlots | internal/coordinator/service.go:204-232 | Recovery takes one slot for each reported run that was not started, counted once, and leaves queue, limit and channels alone. |
| CoordinatorProgress.QueueStep | internal/coordinator/service.go:401-439 | From any state, a step takes runs off the queue's front only, each of them started, and adds only at its end. |
| CoordinatorProgress.QueueIsFifo | internal/coordinator/service.go:584-601 | Over every history without overlap, of two queued runs the earlier one is started no later. |
| CoordinatorProgress.LaunchForgetsTheWait | internal/coordinator/service.go:604-637 | A queued run that is finally started is RUNNING with no stop, reason, finished worker or drop left from its wait. |
| CoordinatorProgress.DrainRespectsLimit | internal/coordinator/service.go:584-601 | A drain never takes the counter above the limit. |
| CoordinatorProgress.LimitIsLastSet | internal/coordinator/service.go:100-108 | In every history the limit in force is the last positive one set, else the first; no other event moves it. |
| CoordinatorProgress.AdmissionRespectsLimit | internal/coordinator/service.go:401-439 | No event but a registration takes the counter above the limit. |
| CoordinatorProgress.CompletionStep | internal/coordinator/service.go:251-272 | From any state, a step that turns a run COMPLETED is a Finished message for it, and finished = assigned then holds if and only if the earlier reporters and its sender are assigned. |
| CoordinatorProgress.FinishedOutcome | internal/coordinator/service.go:251-272 | A Finished message adds sender and drops, and ends the run exactly if it has then heard from as many workers as are assigned: COMPLETED if RUNNING, else with the verdict it has. |
| CoordinatorProgress.LastReportEnds | internal/coordinator/service.go:261-265 | When the last assigned worker reports, a RUNNING run is COMPLETED, ended and without a slot. |
| CoordinatorProgress.AllReportedMeansEnded | internal/coordinator/service.go:251-301 | In every history without overlap, once every assigned worker has reported, the run has ended and holds no slot. |
| CoordinatorProgress.RollIsReporters | internal/coordinator/service.go:258-259 | In every history without overlap a dispatched run's finished workers are exactly those who reported it since it was dispatched. |
| CoordinatorProgress.CompletionIsRealIff | internal/coordinator/service.go:251-272 | When a run turns COMPLETED, finished = assigned if and only if everybody who ever reported it is assigned to it. |
| CoordinatorProgress.CompletionIsReal | internal/coordinator/service.go:251-272 | As long as only assigned workers report, overlap or not, finished stays within assigned and a run turning COMPLETED has finished = assigned. |
| CoordinatorProgress.StrangersCompleteARun | internal/coordinator/service.go:251-272 | A whole history in which two unassigned workers complete a run that its own two workers are still on. |
| CoordinatorProgress.ClockIsStreakStart | internal/coordinator/service.go:351-374 | In every history, overlap or not, a run's orphan clock is the time of the first scan of the current unbroken streak of lost sightings since it was last started. |
| CoordinatorProgress.WatchdogIsExact | internal/coordinator/service.go:344-375 | In every history a scan condemns a run if and only if the unbroken streak of scans since its last start that found it RUNNING without any assigned worker spans the grace period. |
| CoordinatorProgress.CondemnedOnlyWhenLost | internal/coordinator/service.go:344-375 | Soundness in every history, overlap or not: a condemned run was found lost at every scan since one that is at least the grace period ago. |
| CoordinatorProgress.WatchdogIsPrompt | internal/coordinator/service.go:344-375 | Without overlap a scan condemns a run if and only if the whole unbroken streak spans the grace period. |
| CoordinatorProgress.SecondStartForgetsTheStreak | internal/coordinator/service.go:211-229 | With overlap promptness fails: a history in which a run is lost at all scans for the grace period and not condemned, since a second start cleared its clock. |
| CoordinatorProgress.ReapEndsExactlyTheOrphans | internal/coordinator/service.go:376-379 | Forcing a list of runs ends each of them as ABORTED and ends no other dispatched run, though every end drains the queue. |
| CoordinatorProgress.ReapOnceIsExact | internal/coordinator/service.go:344-379 | One call of the reaper with nothing in between ends the orphans and, of every other dispatched run, sets only the clock. |
| CoordinatorProgress.CondemnedRunsEnd | internal/coordinator/service.go:375-379 | Whatever happens between the scan and the forced end, a returning worker included: a condemned run ends without a slot, ABORTED if still RUNNING, and no other dispatched run is touched. |
| CoordinatorProgress.DeliveredIffNothingSkipped | internal/coordinator/service.go:553-571 | The slices delivered add up to a stage's target, VUs or rate, if and only if no worker with a full buffer was due a share of it. |
| Metrics.Recorder.constructor | internal/metrics/metrics.go:75-77 | An empty recording. |
| Metrics.Recorder.Record | internal/metrics/metrics.go:80-100 | Adds the result's unit to the bucket of its group and class and changes no other. |
| Metrics.Recorder.Reset | internal/metrics/metrics.go:108-110 | Back to the empty recording. |
| Metrics.RecordIsGroupBy | internal/metrics/metrics.go:80-100 | Incremental recording equals a group-by of all results by their fields: same keys, counts, numbers of results that are not ok or have an error kind, bytes and clamped latencies. |
| Metrics.KeyIsWhereItBelongs | internal/metrics/metrics.go:28-48 | The class from the fields: "5xx" iff status >= 500, "4xx" iff 400 <= status < 500, "err" iff below 400 and failed, "2xx" iff below 400 and not. |
| Metrics.Clamp | internal/metrics/metrics.go:93-98 | A latency in range is kept, one outside is moved to the nearer end. |
| Metrics.ClassLaws | internal/metrics/metrics.go:28-48 | In every bucket errors <= count = number of latencies, all in range; "2xx" has no errors, "err" has nothing else. |
| Metrics.MergeCommutes | internal/metrics/metrics.go:20-25 | Merging recordings commutes. |
| Metrics.MergeAssociates | internal/metrics/metrics.go:20-25 | Merging recordings associates. |
| Metrics.RecordDistributes | internal/metrics/metrics.go:20-25 | Recording in two places and merging is recording in one. |
| Metrics.RecordIgnoresOrder | internal/metrics/metrics.go:80-100 | Any permutation of the results gives the same recording. |
| Sampler.RunSampler.constructor | internal/worker/sampler/sampler.go:55-57 | An empty window. |
| Sampler.RunSampler.Record | internal/worker/sampler/sampler.go:60-65 | Extends the window by the result; recorder and samples stay those of the window. |
| Sampler.RunSampler.MaybeSample | internal/worker/sampler/sampler.go:69-104 | Keeps the samples and both counters those of the window. |
| Sampler.RunSampler.Flush | internal/worker/sampler/sampler.go:111-152 | Hands over the recording of the window, each bucket once, with its samples, and starts an empty window. |
| Sampler.KeepsTheFirst | internal/worker/sampler/sampler.go:67-80 | Of any window, the kept successes are exactly its first 20 and the kept failures exactly its first 40, in order. |
| Sampler.ListSlices | internal/worker/sampler/sampler.go:139-150 | Lists every bucket exactly once, whatever the map's order. |
| Aggregator.RunAggregator.constructor | internal/coordinator/aggregator/aggregator.go:100-113 | Nothing pending, nothing emitted, nothing counted. |
| Aggregator.RunAggregator.IngestBatch | internal/coordinator/aggregator/aggregator.go:116-163 | Refines one arrival: a late batch is only counted, any other is merged into its second with VUs and capped samples. |
| Aggregator.SecOfIs | internal/coordinator/aggregator/aggregator.go:117 | A batch belongs to the second its timestamp lies in. |
| Aggregator.RunAggregator.MergeSlices | internal/coordinator/aggregator/aggregator.go:136-151 | The loop absorbs every slice and adds its count to the total. |
| Aggregator.RunAggregator.FinalizeAt | internal/coordinator/aggregator/aggregator.go:198-236 | Takes exactly the pending seconds that started at least two seconds before now, in ascending order, and yields their emissions, their rows and one tick each. |
| Aggregator.RunAggregator.TakeSecond | internal/coordinator/aggregator/aggregator.go:216-231 | Removes a second from every map and either skips it as past or makes it the last emitted. |
| Aggregator.ReadySeconds | internal/coordinator/aggregator/aggregator.go:201-211 | The pending seconds up to the cutoff, all of them, strictly ascending. |
| Aggregator.Collect | internal/coordinator/aggregator/aggregator.go:337-400 | One row per bucket, and the tick whose rate, error rate and groups are those of the second, transactions excluded from the top line. |
| Aggregator.TickShows | internal/coordinator/aggregator/aggregator.go:381-398 | A tick's rate is the requests outside transactions, its error rate times that is their errors, with the second, VUs, latencies and samples of the emission. |
| Aggregator.TickShowsGroup | internal/coordinator/aggregator/aggregator.go:368-380 | Each group that occurs, and no other, is shown with its own requests and share of errors. |
| Aggregator.TxnIsPrefix | internal/coordinator/aggregator/aggregator.go:360-367 | The transaction groups, kept out of every request-level total, are those whose name starts with "txn:". |
| Aggregator.CollectRows | internal/coordinator/aggregator/aggregator.go:341-367 | The rows list each bucket once; the running total is that of their non-transaction part. |
| Aggregator.CollectGroups | internal/coordinator/aggregator/aggregator.go:368-380 | One entry per group, transactions included, with its own rate and error rate. |
| Aggregator.RowsTotal | internal/coordinator/aggregator/aggregator.go:341-367 | Summing the rows in any order they were written gives the sum over the second's request buckets. |
| AggregatorLaws.EmitAllKeeps | internal/coordinator/aggregator/aggregator.go:215-236 | Each due second is emitted once, with its buckets as they stood: the skip branch is never taken. |
| AggregatorLaws.ExactlyOnceAndConserved | internal/coordinator/aggregator/aggregator.go:116-236 | Over any run without a relapse: emitted seconds strictly increase, pending ones are later than all of them, and totalCount = handed over + pending. |
| AggregatorLaws.OrderedIffNoRelapse | internal/coordinator/aggregator/aggregator.go:122-126 | A step keeps that order and those books if and only if it is not the arrival of a second <= 0 after second 0 was emitted. |
| AggregatorLaws.NonzeroSecondsSuffice | internal/coordinator/aggregator/aggregator.go:117-126 | A run whose batches all avoid second 0 never relapses. |
| AggregatorLaws.LateIffOvertaken | internal/coordinator/aggregator/aggregator.go:119-126 | A batch is turned away exactly if its second or a later one was emitted. |
| AggregatorLaws.LateIsOnlyCounted | internal/coordinator/aggregator/aggregator.go:122-126 | A batch turned away changes one counter and nothing else. |
| AggregatorLaws.EmissionShowsReports | internal/coordinator/aggregator/aggregator.go:127-161 | Over any run without a relapse an emitted second's VUs are the sum of what each worker last reported for it in time, and its samples the first 80 that came for it. |
| AggregatorLaws.DrainLosesNothing | internal/coordinator/aggregator/aggregator.go:180-181 | A finalization whose cutoff covers all pending seconds leaves none and has then handed over everything accepted. |
| AggregatorLaws.ReplayIsHarmlessIffNonzero | internal/coordinator/aggregator/aggregator.go:122-126 | In the run in which a batch is replayed after its second was finalized, emission stays exactly-once if and only if that second is not 0. |
| Pipeline.AbsorbIsMerge | internal/coordinator/aggregator/aggregator.go:136-151 | Absorbing a flushed batch slice by slice is merging the recording it lists. |
| Pipeline.StepKeeps | internal/coordinator/aggregator/aggregator.go:116-236 | Every record, flush, delivery and finalization keeps the ledger: central = accepted + late + travelling, second by second. |
| Pipeline.EmissionPlusMissingIsCentral | internal/coordinator/aggregator/aggregator.go:116-236 | For any workers, flush schedule and arrival order, an emitted second merged with what is late or travelling is the central recorder's. |
| Pipeline.RefinesCentralIffNothingMissing | internal/coordinator/aggregator/aggregator.go:119-126 | An emitted second equals the central recording of that flush second if and only if nothing of it is late or travelling. |
| Pipeline.EmittedBucketsAreLawful | internal/metrics/metrics.go:28-100 | Every bucket ever emitted has errors <= count = number of latencies, none in "2xx", only errors in "err". |
| Series.QuerySeries | internal/store/clickhouse/clickhouse.go:191-236 | The loop with its flushes yields one point per group of consecutive rows, with the group's rate and error rate. |
| Series.BucketStartIs | internal/store/clickhouse/clickhouse.go:179-183 | A second's bucket is the multiple of the width that it is less than a width past. |
| Series.PointIs | internal/store/clickhouse/clickhouse.go:196-214 | A point's rate times the width is its requests, its error rate times those its errors, or 0 without any. |
| Series.OnePassIsGroupBy | internal/store/clickhouse/clickhouse.go:215-235 | Over rows in bucket order the single pass is a true group-by with strictly increasing buckets. |
| Series.SeriesTotalIgnoresResolution | internal/store/clickhouse/clickhouse.go:196-214 | At any resolution the points account for exactly the requests of the rows. |
| Series.SummaryIsTotalOfSelection | internal/store/clickhouse/clickhouse.go:265-274 | The summary is the total of the rows outside the transaction groups. |
| Series.ShowsJoins | internal/coordinator/aggregator/aggregator.go:212-236 | What holds between emissions, rows and ticks of each finalization holds of a run's output as a whole. |
| Series.LiveAndStoredAgree | internal/store/clickhouse/clickhouse.go:162-285 | The live ticks' requests, the stored summary and the combined series at any resolution are the same number. |
| Breakers.AutoStop.constructor | internal/coordinator/aggregator/aggregator.go:79-94 | Armed with its settings and an empty history. |
| Breakers.AutoStop.EvalAutoStop | internal/coordinator/aggregator/aggregator.go:271-333 | Refines one evaluation: guards, stall scan, window, verdict. |
| Breakers.AutoStop.ScanStalls | internal/coordinator/aggregator/aggregator.go:282-299 | The stall loop, stopping at the first tick that reaches the limit. |
| Breakers.AutoStop.Refill | internal/coordinator/aggregator/aggregator.go:304-316 | The window is the last ticks of the old one plus the batch, and the sums are its own. |
| Breakers.AutoStop.Judge | internal/coordinator/aggregator/aggregator.go:317-326 | Trips exactly over the limit with enough requests. |
| Breakers.StallSuffixIsLongest | internal/coordinator/aggregator/aggregator.go:283-288 | The streak is the length of the longest stalled suffix of the history. |
| Breakers.StallSuffixIff | internal/coordinator/aggregator/aggregator.go:283-288 | The streak is at least n exactly if each of the last n ticks has active VUs and no completed request; one with a request resets it. |
| Breakers.StallTripsIff | internal/coordinator/aggregator/aggregator.go:289-297 | The limit is reached within a batch exactly if some tick of it ends a stretch of that many such seconds. |
| Breakers.OverLimitIff | internal/coordinator/aggregator/aggregator.go:317-322 | Over the limit: enough requests, at least one, and 100 * errors above percentage * requests. |
| Breakers.TailIs | internal/coordinator/aggregator/aggregator.go:309-311 | The window is what the history ends with, as long as the window allows. |
| Breakers.EffectiveConfig | internal/plan/plan.go:137-159 | A plan's own positive values are kept, everything else gets 50 percent (30 for the alert), 10 seconds and 20 requests; only an explicit false switches off. |
| Breakers.RoundingIsExact | internal/coordinator/aggregator/aggregator.go:304-308 | Encoding counts as rate and error rate and rounding back loses nothing. |
| Breakers.EmittedTicksAreFaithful | internal/coordinator/aggregator/aggregator.go:382-390 | The tick of a second with lawful buckets decodes to exactly its request and error counts. |
| Breakers.EvalTracks | internal/coordinator/aggregator/aggregator.go:271-333 | One evaluation trips exactly if the condition recomputed from history holds, names a stall exactly if there is one, and otherwise goes on tracking. |
| Breakers.BreakerTracksHistory | internal/coordinator/aggregator/aggregator.go:271-333 | After any batches: fired iff some batch met the history condition; until then streak and window are those of the history. |
| Breakers.FiresAtFirstTrip | internal/coordinator/aggregator/aggregator.go:271-333 | The callback fires at most once, exactly at the first batch where the history condition holds, never when switched off or without a callback; it names a stall exactly if there is one. |
| Alert.AlertEvaluator.constructor | internal/apisrv/alert.go:22-33 | An empty window that has not fired. |
| Alert.AlertEvaluator.OnTick | internal/apisrv/alert.go:37-61 | Refines one observation; when it fires, the rate is the window's. |
| Alert.AlertEvaluator.Push | internal/apisrv/alert.go:42-46 | The window is the last samples of the old one plus the new. |
| Alert.AlertEvaluator.Judge | internal/apisrv/alert.go:52-60 | Crosses exactly at or above a positive threshold with enough requests. |
| Alert.AlertTracksHistory | internal/apisrv/alert.go:37-61 | The alert has fired if and only if it is switched on and some prefix of the stream warranted it, recomputed from history. |
| Alert.AlertFiresOnce | internal/apisrv/alert.go:37-61 | It reports exactly once, at the first tick at which the recomputed window warrants it. |
| Alert.CrossesIff | internal/apisrv/alert.go:52-56 | Crossing: at least one request and enough, a positive threshold, and 100 * errors at or above percentage * requests. |
| Alert.WarnsNoLaterThanTrip | internal/apisrv/alert.go:37-61 | With equal windows and an alert at least as sensitive, an error-rate trip at batch k finds the alert fired by then. |
| Alert.DefaultsWarnFirst | internal/plan/plan.go:137-156 | The defaults of both watchers meet that condition (the alert's are at lines 246-265). |
| Alert.WarnsIffSensitive | internal/apisrv/alert.go:52-60 | With equal windows the alert always warns first if and only if it is at least as sensitive or the breaker's limit is 100 percent or more. |
| Alert.LongerWindowNeverWarns | internal/apisrv/alert.go:43-46 | An alert with a longer window than the breaker's always warns first if and only if the breaker's limit is 100 percent or more. |
| Alert.DividingWindowWarns | internal/apisrv/alert.go:43-60 | An alert whose window divides the breaker's, with a positive threshold no higher and at most one request required, always warns first. |
| Alert.MissedTrip | internal/coordinator/aggregator/aggregator.go:317-326 | For any less sensitive alert there is a second that trips the breaker and not the alert. |
| RateLimiter.Limiter.constructor | internal/apisrv/ratelimit.go:31-33 | No keys yet, with the given maximum and window. |
| RateLimiter.Limiter.AllowKey | internal/apisrv/ratelimit.go:36-56 | Refines one attempt on the pruned table. |
| RateLimiter.Limiter.DropExpired | internal/apisrv/ratelimit.go:44-50 | Removes exactly the expired windows. |
| RateLimiter.PruningIsInvisible | internal/apisrv/ratelimit.go:36-56 | With a monotone clock the pruning limiter answers every call sequence like one that never prunes. |
| RateLimiter.AdmittedIff | internal/apisrv/ratelimit.go:40-56 | Read off the calls alone: an attempt is admitted if and only if it opens its key's window or is among the first max attempts since the call that opened it. |
| RateLimiter.WindowIs | internal/apisrv/ratelimit.go:40-55 | A key's window is the one its last opening call opened, with the attempts since. |
| RateLimiter.WindowBounds | internal/apisrv/ratelimit.go:40-56 | What a key's window says about how much it has admitted, in the window and around it. |
| RateLimiter.AtMostTwiceMax | internal/apisrv/ratelimit.go:36-56 | Any closed interval of one window length admits at most 2 * max attempts per key. |
| EndToEnd.PublishedSoFar | internal/coordinator/aggregator/aggregator.go:212-236 | At every point of a run, all rows written and all ticks sent so far are those of the seconds emitted so far. |
| EndToEnd.WholeRunAgrees | internal/store/clickhouse/clickhouse.go:162-285 | Over any whole run the requests of all live ticks, the stored summary and the combined series at any resolution are the same number. |
| EndToEnd.TicksAreFaithful | internal/coordinator/aggregator/aggregator.go:382-390 | Every tick of every run of the pipeline reports whole numbers of requests and errors, no more errors than requests. |
| EndToEnd.RunWarnsNoLaterThanTrip | internal/apisrv/alert.go:37-61 | In any run of the whole pipeline, with equal windows and a sensitive alert, the alert has fired by the time the breaker trips on the error rate. |

## Left out

- gRPC, HTTP, WebSocket, Prometheus, webhook and Feishu plumbing, the CLI and MCP: I/O around the modelled core.
- HdrHistogram's bucketing, percentiles, gob and protobuf encoding: a histogram is the multiset of its values.
- Script execution, think time, variable generators, authentication, the Postgres lifecycle, worker agent bookkeeping, the assertion evaluators and the web interface.
- Clocks are arguments; `int64` counters and nanosecond times are unbounded integers; `float64` rounding error is not modelled.
- The identity of a run's state object: the run map holds values, so code that goes on using an entry after `rehydrate` has replaced it is not captured.
- The send log holds assignments only; queue positions and estimates, remaining time, peak CPU and capacity reports are read-only views.
- Row buffers, writers and listeners of the aggregator: a finalization's rows and ticks are results; failed writes and full listeners are not modelled.
- The breaker is an object beside the aggregator that is fed its ticks, not a part of it.
- The text of stop reasons beyond which breaker spoke.
- The SQL of the series query: its selected and ordered rows are an assumption on the input.
- Idle retirement of arrival workers, and the remark that one stays warm: checking and leaving are not one atomic step there.
- Alert.DividingWindowWarns: gives a sufficient condition only; for a shorter window in general the answer depends on which rates have which denominators, and has no short form.
- CoordinatorService.Service.ReapOnce: lets nothing fall between the scan and the forced endings; the general case is CondemnedRunsEnd.
- CoordinatorService.Service.OnAutoStop: lets nothing fall between the verdict and the stop; as two events, Trip and Stop, they are covered by every result about histories.
- CoordinatorProgress.ReapOnceIsExact: speaks of one undisturbed call; the general case is CondemnedRunsEnd.
