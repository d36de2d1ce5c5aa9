# Executions, credentials and timers of the n8n CLI package

This project models the parts of `packages/cli` whose behaviour cannot be read off one
function, and proves what they guarantee over every input, every run or every interleaving.

* **Executions and capacity.** `ActiveExecutions.dfy` is one process's registry of active
  executions, cut at its awaits: an `add` that begins, reserves capacity, claims its row and
  registers, and the settle handlers, stops, sweeps and attachments that race with it.
  `ActiveExecutionsService.dfy` is the class with its mutable records, each method proved to
  take exactly one such step. `ActiveExecutionsRuns.dfy` has what holds over every run,
  `ActiveExecutionsRegistry.dfy` who is registered and what a shutdown waits for, and
  `ActiveExecutionsQueue.dfy` who is let through and in which order. `Concurrency.dfy` is the
  queue itself, with the service that holds the two of them. `ExecutionClaims.dfy`
  is one persisted row and everyone who writes its status, start-up recoveries included.
  `Cluster.dfy` puts any number of processes over a table of rows. `WaitTracker.dfy`,
  `Retry.dfy` and `ParentHandover.dfy` are the timers, the retry loop and the hand-over of a
  child's result to its parent.
* **Credentials.** `CredentialTypes.dfy` is the ancestor list that grows while it is iterated,
  `CredentialsOverwrites.dfy` the memoised overwrite resolution, `CredentialRepair.dfy` the
  repair loop with its two caches.
* **Time.** `Deadlines.dfy` and `ActivationQueue.dfy`.

Where the code keeps less than its comments or shape suggest, the project says exactly when
it keeps it, and exhibits the case where it does not:

* An entry marked `waiting` whose promise has not settled yet loses its capacity slot for
  good when it is stopped, swept or replaced (`LostIff`, `LostStays`, `WindowIsReachable`).
  Line 234 of active-executions.ts assumes this cannot happen; `CarefulRunsLoseNothing` shows
  what follows when it does not. An execution resumed between the settlement of its predecessor
  and that predecessor's handler, which deletes by id, is lost too (`StaleHandlerRemovesResumed`).
* `shutdown` disables the concurrency service before it empties its queue, so emptying it does
  nothing, and no row is cancelled (`Sweep`). Exactly three kinds of event ever let a queued
  add go on, and a run has none of them exactly if nobody queued goes on in it (`AdmitsIff`,
  `NobodyGoesOnIff`). With two adds queued the shutdown holds them back in every continuation
  exactly if the cap on evaluation runs was known by then (`ShutdownHoldsBackIff`): a first
  evaluation run enables throttling again, and the next run to finish starts a queued one in
  the middle of the shutdown (`EvaluationReopensQueue`, `ReopeningIsReachable`).
* Removing a queued execution frees a slot it did not hold. Until a shutdown the limit is kept
  throughout exactly if no queued execution is removed while another one waits (`LimitIsKeptIff`,
  `RemoveExceedsIff`, `RemovalExceedsLimit`); removals bound the excess (`AdmissionIsBounded`).
  Adds are let through first come, first served (`FirstComeFirstServed`); the add of a removed
  execution waits for ever (`RemovedNeverGoesOn`), and emptying an enabled queue would let
  every second waiter through (`EmptyingLetsHalfThrough`).
* An execution gets a second runner, or one while it waits, exactly by a claim of a row that is
  still `new` while its creator is merely queued, or by a write from outside that puts it back
  to waiting while somebody runs it (`SecondRunnerIff`, `RecoveryOfLiveRow`,
  `RecoveryUndoesClaim`).
* A start-up recovery writes back what it made of a row it read earlier, whatever the row has
  become since. Waits end in exactly one claim or cancellation save those that such a write
  ended (`ResumeOnce`); recovering a waiting execution ends its wait and then starts another
  one, since the save hook still sees a time to wait for (`RecoveredWait`).
* A cancelled row stays cancelled throughout exactly if neither a runner still alive nor anybody
  from outside writes it unconditionally (`CanceledThroughoutIff`): an execution cancelled between
  its reservation and its `setRunning` comes back to life (`CanceledThenRunning`), one cancelled
  during a recovery ends as crashed (`CanceledThenCrashed`). An ended row nobody runs stays so
  exactly if no write from outside reopens it (`OverThroughoutIff`).
* A child that finishes before its parent's wait is saved wakes nobody, and the parent then
  waits until somebody else claims or cancels it, or a write from outside ends the wait
  (`WakeUpIsLostIff`, `LostWakeUpIsReachable`).
* A change of leadership leaves tracked executions without a timer and invisible to later polls
  (`StopTrackingStrands`, `StrandedStays`), exactly those with no timer but the stored one, and
  nothing else does (`StrandedIff`, `NeverStrandedIff`).
* Activation retries are one at a time, and all stopped by a removal, exactly if a workflow is
  never queued during one of its retries (`OneRetryThroughoutIff`, `TwoLiveTimers`); and a
  queued workflow keeps trying exactly if no early return of `add` ends its last attempt
  (`QueuedKeepsTryingIff`, `AbandonedBySkip`).
* A child without error or data does not even report its usage flags (`AllChildrensFlags`). No
  report is lost exactly if no write falls between another one and its own read
  (`NothingLostIff`, `FlagsSurviveIff`), and a parent that has resumed is not overwritten with
  what it was before exactly if every report written since was also read since
  (`ResumedIsKeptIff`). `OverlapKeepsFlagIff` and `LateWrite` are the shortest failures.
* What is stored for a type, and what `getOverwrites` answers, is complete exactly if the part
  of the chain beyond the first memoised type gives no name of its own (`StoredIsCompleteIff`,
  `ResolveIsCompleteIff`, and `StoredDataDependsOnOrder` for a case), although `get` always is,
  and loading what was stored again does not change it (`ReloadKeepsGet`).
  With two parents `get` and `getOverwrites` disagree (`TwoParentsDisagree`).
* An object-valued overwritten field always reads as managed, because copying makes a new
  object (`ManagedAfterApplied`); a stored field with a reserved name is lost, and an
  overwritten field named like an inherited member of every object is never filled
  (`AppliedPerField`).
* The credential caches show when two dangling references share an id but not a name, or when a
  name or id is that of an `Object.prototype` member (`RepairIsTransparent`). They do not keep
  the loop from asking again for an id the database lacks while its name resolves (`QueriesMade`).
* With a maximum timeout of zero or less the two soft-deadline computations differ
  (`SoftDeadlinesAgree`), although the comment at line 253 of
  workflow-execute-additional-data.ts says the one mirrors the other.

## Model

| member | source | states |
|---|---|---|
| ActiveExecutions.RegistryView | packages/cli/src/active-executions.ts:150-363 | Every event of a process acts on its registry as the registry's own transition says and on nothing else in it |
| ActiveExecutions.NextKeepsInv | packages/cli/src/active-executions.ts:62-184 | Each event keeps: held reservations are exactly those due, queue positions are adds that wait, the queue's capacity accounts for every slot, and releases happen once |
| ActiveExecutions.RunKeepsInv | packages/cli/src/active-executions.ts:62-363 | The same over every interleaving of any number of adds, handlers, stops and sweeps |
| ActiveExecutions.ReleaseKeepsInv | packages/cli/src/concurrency/concurrency-capacity-reservation.ts:30-36 | Releasing a reservation nobody needs any more hands its slot to the next queued add and keeps the accounts |
| ActiveExecutions.RegisterKeepsInv | packages/cli/src/active-executions.ts:150-161 | Registering passes the reservation from the add to its incarnation |
| ActiveExecutions.HandlerKeepsInv | packages/cli/src/active-executions.ts:164-179 | A settle handler gives back the reservation of its own incarnation, once |
| ActiveExecutions.RemoveWaiterKeepsInv | packages/cli/src/concurrency/concurrency-queue.ts:44-54 | Removing a queued add keeps the accounts although it lets another through |
| ActiveExecutionsRuns.CapacityIsConserved | packages/cli/src/active-executions.ts:68-80 | In every reachable state the slots held are those of adds past `reserve` and of incarnations not cleaned up, evaluation aside; until a shutdown the queue's capacity accounts for each; no reservation is released twice, by the catch path or the settle path |
| ActiveExecutionsRuns.AdmissionIsBounded | packages/cli/src/concurrency/concurrency-queue.ts:21-54 | Until a shutdown, production executions let through exceed the limit by at most the number of queue removals |
| ActiveExecutionsRuns.LimitIsKeptIff | packages/cli/src/concurrency/concurrency-queue.ts:21-54 | Until a shutdown, at every point of a run at most the limit is let through exactly if no queued execution is removed while another one waits |
| ActiveExecutionsRuns.LoserTouchesNothing | packages/cli/src/active-executions.ts:136-148 | An add that fails or loses its claim leaves the registry as it was and keeps no slot |
| ActiveExecutionsRuns.EntryEvolves | packages/cli/src/active-executions.ts:150-265 | An existing incarnation keeps id, mode and start, is marked cleaned up only by its own handler, and is out of reach once unregistered |
| ActiveExecutionsRuns.SettlesAsOffered | packages/cli/src/active-executions.ts:216-265 | A promise settles exactly when a stop, finalize or sweep reaches the incarnation, with that outcome, and only the first time |
| ActiveExecutionsRuns.FirstSettlementStands | packages/cli/src/active-executions.ts:163-179 | Settle-once: in every continuation the first outcome stands, and its handler takes effect if it runs |
| ActiveExecutionsRuns.HandlerRunsOnce | packages/cli/src/active-executions.ts:164-179 | The clean-up of each incarnation takes effect at most once |
| ActiveExecutionsRuns.LostStays | packages/cli/src/active-executions.ts:233-237 | An unsettled incarnation that is no longer registered keeps its slot in every continuation |
| ActiveExecutionsRuns.LostIff | packages/cli/src/active-executions.ts:233-241 | Exactly a stop or sweep of a waiting entry, a replacement, or a stale handler loses a registered unsettled incarnation |
| ActiveExecutionsRuns.StaleHandlerRemovesResumed | packages/cli/src/active-executions.ts:171-178 | A reachable run in which the handler of a first incarnation deletes the resumed one, which is then lost |
| ActiveExecutionsRuns.StopInTheWindow | packages/cli/src/active-executions.ts:233-237 | Stopping a waiting entry whose promise has not settled loses its slot, whatever follows |
| ActiveExecutionsRuns.WindowIsReachable | packages/cli/src/active-executions.ts:313-315 | Such an entry is reachable with one webhook execution, and holds the only slot |
| ActiveExecutionsRuns.CarefulStepIsSound | packages/cli/src/active-executions.ts:216-265 | One event that respects the assumption at line 234 loses nothing and leaves no stale handler |
| ActiveExecutionsRuns.HandlerRemovesItself | packages/cli/src/active-executions.ts:171-178 | A handler, which deletes by id, then removes its own incarnation or nothing |
| ActiveExecutionsRuns.CarefulRunsLoseNothing | packages/cli/src/active-executions.ts:150-265 | In runs where waiting entries are stopped, swept or replaced only once settled, every slot belongs to an add in flight or a registered or settled incarnation, and no handler removes another incarnation |
| ActiveExecutionsRuns.HandledEntriesWait | packages/cli/src/active-executions.ts:171-178 | An entry that is still registered after its clean-up is one that waits, as long as only `waiting` is ever set |
| ActiveExecutionsRuns.SweepStartsDraining | packages/cli/src/active-executions.ts:338-349 | After the sweep every entry left will remove itself when its handler runs; with `cancelAll` in regular mode all of them are settled |
| ActiveExecutionsRuns.QuietRunsDrain | packages/cli/src/active-executions.ts:353-362 | Without new adds or waits the registry only shrinks |
| ActiveExecutionsRuns.ShutdownDrains | packages/cli/src/active-executions.ts:330-363 | The shutdown loop ends: the registry is empty once the handlers of what was left have run |
| ActiveExecutionsRuns.CancelAllDrains | packages/cli/src/active-executions.ts:342-344 | With `cancelAll` in regular mode the pending handlers alone empty it |
| ActiveExecutionsRegistry.RegisteredIff | packages/cli/src/active-executions.ts:150-265 | For every event and id: registered by a successful claim only, under its token; kept under the same token unless a stop finds it waiting, a settle handler of that id finds its record not waiting, or a sweep drops it |
| ActiveExecutionsRegistry.SweepKeepsIff | packages/cli/src/active-executions.ts:338-349 | A sweep keeps an execution, under its token, exactly if it is registered, not waiting, and, unless everything is cancelled in regular mode, not new |
| ActiveExecutionsRegistry.ShutdownWaitsForIff | packages/cli/src/active-executions.ts:353-362 | The shutdown loop still waits for an execution exactly if the sweep kept it and no settle handler of that id has ended it since |
| ActiveExecutionsRegistry.RegisterEnrolls | packages/cli/src/active-executions.ts:150-161 | A new incarnation is running and unsettled, with the id and mode of its add; records of others are untouched, and only a predecessor loses its place |
| ActiveExecutionsRegistry.FieldsAfter | packages/cli/src/active-executions.ts:190-199 | Which events change status, response promise and attached run of a record, and to what |
| ActiveExecutionsRegistry.ResponseModesAfter | packages/cli/src/active-executions.ts:233-349 | When a response mode is set and dropped: a shutdown without `cancelAll` leaves it behind |
| ActiveExecutionsRegistry.ResponsePersists | packages/cli/src/active-executions.ts:150-159 | However often an execution is resumed while registered, it has the response promise attached last, by whichever incarnation |
| ActiveExecutionsQueue.ReserveOutcome | packages/cli/src/concurrency/concurrency-control.service.ts:173-178 | An add is held back exactly if its mode is webhook, trigger or chat, the service is enabled with a limit, and no room is left; it then queues last |
| ActiveExecutionsQueue.FirstComeFirstServed | packages/cli/src/concurrency/concurrency-queue.ts:21-63 | In every run, removals and shutdowns included, a queued add does not go on while one queued before it is still in the queue |
| ActiveExecutionsQueue.RemovalDropsOnly | packages/cli/src/concurrency/concurrency-queue.ts:44-54 | Removing an execution queued once starts no add of it; the first of the others goes on, and everybody else is still queued |
| ActiveExecutionsQueue.RemovedNeverGoesOn | packages/cli/src/concurrency/concurrency-queue.ts:44-54 | The add of a removed execution waits in every continuation: nothing settles its promise |
| ActiveExecutionsQueue.QueueModeNeverWaits | packages/cli/src/concurrency/concurrency-control.service.ts:64-67 | In queue mode no add of the process ever waits |
| ActiveExecutionsRuns.ShutdownFreezesQueue | packages/cli/src/active-executions.ts:332-336 | After a shutdown in regular mode no queued add is ever let through or cancelled, in any continuation without a first capped evaluation run; the exact conditions are those of the rows from `AdmitsIff` to `ShutdownHoldsBackIff` |
| ActiveExecutionsRuns.EvaluationReopensQueue | packages/cli/src/concurrency/concurrency-control.service.ts:113-133 | With one, the next production run to finish starts the first queued add |
| ActiveExecutionsRuns.ReopeningIsReachable | packages/cli/src/active-executions.ts:330-363 | A process in which this happens is reachable: one execution has finished, another is queued |
| ActiveExecutionsRuns.AdmitsIff | packages/cli/src/concurrency/concurrency-queue.ts:38-63 | In every state, an event leaves all queued adds queued exactly if it neither gives a production slot back to an enabled queue with waiters nor removes one waiter of several |
| ActiveExecutionsRuns.NobodyGoesOnIff | packages/cli/src/active-executions.ts:333-335 | The same at every point of a run: nobody queued goes on exactly if no event of it lets anybody |
| ActiveExecutionsRuns.EnabledAgainIff | packages/cli/src/concurrency/concurrency-control.service.ts:113-133 | A disabled service is enabled again exactly by a first capped evaluation run |
| ActiveExecutionsRuns.ShutdownHoldsBackIff | packages/cli/src/active-executions.ts:332-336 | With two or more adds queued, a shutdown holds them all back in every continuation exactly if the cap on evaluation runs was resolved before it |
| ActiveExecutionsRuns.StartTimePersists | packages/cli/src/active-executions.ts:150-155 | However often an execution is resumed while registered, it keeps its first start time |
| ActiveExecutionsService.Execution.SettleWith | packages/cli/src/active-executions.ts:151 | The post-execute promise keeps its first settlement |
| ActiveExecutionsService.ActiveExecutionsService.constructor | packages/cli/src/active-executions.ts:39-54 | The service starts empty, with the whole limit free; a configured evaluation limit is one resolved at once |
| ActiveExecutionsService.ActiveExecutionsService.Begin | packages/cli/src/active-executions.ts:84-116 | One step of the machine: the add knows its execution id |
| ActiveExecutionsService.ActiveExecutionsService.Reserve | packages/cli/src/active-executions.ts:81-120 | One step: evaluation reserves nothing, others get a slot or queue for one |
| ActiveExecutionsService.ActiveExecutionsService.ReleaseReservation | packages/cli/src/concurrency/concurrency-capacity-reservation.ts:30-36 | A no-op unless held; otherwise the slot goes back, letting the next add continue |
| ActiveExecutionsService.ActiveExecutionsService.Abort | packages/cli/src/active-executions.ts:145-148 | One step: the catch path releases and rethrows, registry untouched |
| ActiveExecutionsService.ActiveExecutionsService.Register | packages/cli/src/active-executions.ts:150-161 | One step: the new record replaces a predecessor and inherits its start and response promise |
| ActiveExecutionsService.ActiveExecutionsService.RunHandler | packages/cli/src/active-executions.ts:169-179 | One step: release, then delete by id unless this record is waiting |
| ActiveExecutionsService.ActiveExecutionsService.AttachWorkflowExecution | packages/cli/src/active-executions.ts:190-192 | One step; nothing changes when the id is unknown and the call throws |
| ActiveExecutionsService.ActiveExecutionsService.AttachResponsePromise | packages/cli/src/active-executions.ts:194-199 | One step; nothing changes when the id is unknown and the call throws |
| ActiveExecutionsService.ActiveExecutionsService.SetStatus | packages/cli/src/active-executions.ts:313-315 | One step; only the registered record changes |
| ActiveExecutionsService.ActiveExecutionsService.SetResponseMode | packages/cli/src/active-executions.ts:321-323 | One step; the response mode alone changes |
| ActiveExecutionsService.ActiveExecutionsService.FinalizeExecution | packages/cli/src/active-executions.ts:246-265 | One step: the registered record's promise resolves unless already settled |
| ActiveExecutionsService.ActiveExecutionsService.StopExecution | packages/cli/src/active-executions.ts:216-243 | One step: a waiting record is dropped, any other is rejected |
| ActiveExecutionsService.ActiveExecutionsService.RemoveWaiter | packages/cli/src/concurrency/concurrency-control.service.ts:193-198 | One step of the machine, on the queue and the add it lets through |
| ActiveExecutionsService.ActiveExecutionsService.ResolveEvaluation | packages/cli/src/concurrency/concurrency-control.service.ts:113-133 | One step of the machine: a cap on evaluation runs enables throttling |
| ActiveExecutionsService.ActiveExecutionsService.SweepAll | packages/cli/src/active-executions.ts:338-349 | The loop over a snapshot of the ids equals the sweep in one go, in whatever order |
| ActiveExecutionsService.ActiveExecutionsService.Sweep | packages/cli/src/active-executions.ts:330-351 | One step: disable in regular mode, sweep, then `removeAll`, which finds the service disabled, so that both queues stay and no row is cancelled |
| ActiveExecutionsService.SweptUpToNext | packages/cli/src/active-executions.ts:340-349 | Handling one more id is one turn of the loop |
| Concurrency.ThrottleKeepsBalance | packages/cli/src/concurrency/concurrency-queue.ts:21-32 | The queue lets through exactly while there is room, and waits only when full |
| Concurrency.ReleaseKeepsBalance | packages/cli/src/concurrency/concurrency-queue.ts:38-42 | A release keeps the queue full while anyone waits |
| Concurrency.RemoveExceedsIff | packages/cli/src/concurrency/concurrency-queue.ts:44-54 | Removing a waiter exceeds the limit exactly when another one waits |
| Concurrency.RemovalExceedsLimit | packages/cli/src/concurrency/concurrency-queue.ts:44-54 | With a limit of one and two waiting, removing one of them makes two run |
| Concurrency.ThrottleOutcome | packages/cli/src/concurrency/concurrency-control.service.ts:244-263 | Which modes share the limit, when a caller is held back, and that it queues last |
| Concurrency.ReleaseOutcome | packages/cli/src/concurrency/concurrency-queue.ts:38-63 | A slot that comes back lets the longest waiting caller through and nobody else |
| Concurrency.DropOutcome | packages/cli/src/concurrency/concurrency-queue.ts:44-54 | The caller let through by a removal, and then those left, are the others in their order: the first with that id is out |
| Concurrency.EmptyingLetsHalfThrough | packages/cli/src/concurrency/concurrency-control.service.ts:208-214 | Emptying an enabled queue of distinct ids leaves nobody in it and lets every second waiter through |
| Concurrency.DropAllWhileDisabled | packages/cli/src/concurrency/concurrency-control.service.ts:205-206 | Emptying a disabled queue, in whatever order of ids, leaves it as it is and lets nobody through |
| Concurrency.ConcurrencyQueue.Enqueue | packages/cli/src/concurrency/concurrency-queue.ts:21-32 | Takes a slot and says whether the caller goes on or queues |
| Concurrency.ConcurrencyQueue.Dequeue | packages/cli/src/concurrency/concurrency-queue.ts:38-42 | Gives a slot back and lets the first waiter through |
| Concurrency.ConcurrencyQueue.RemoveWaiter | packages/cli/src/concurrency/concurrency-queue.ts:44-54 | Drops the first waiter with that id and lets the next one through |
| Concurrency.ConcurrencyQueue.RemoveAllWaiters | packages/cli/src/concurrency/concurrency-control.service.ts:208-214 | Each id found in the queue is removed once, in order, every removal letting the next waiter through |
| Concurrency.ConcurrencyQueue.FindIndex | packages/cli/src/concurrency/concurrency-queue.ts:45 | The first position with that id, or the length |
| Concurrency.ConcurrencyControl.constructor | packages/cli/src/concurrency/concurrency-control.service.ts:45-98 | Queue mode has no queues and is disabled; otherwise each configured limit gets a queue |
| Concurrency.ConcurrencyControl.EnsureEvalQueueResolved | packages/cli/src/concurrency/concurrency-control.service.ts:113-133 | Once only, and not in queue mode, a cap opens the evaluation queue and enables the service |
| Concurrency.ConcurrencyControl.ThrottleOne | packages/cli/src/concurrency/concurrency-control.service.ts:173-178 | The mode's own queue decides, if it has one and the service is enabled; the other queue is untouched |
| Concurrency.ConcurrencyControl.ReleaseOne | packages/cli/src/concurrency/concurrency-control.service.ts:183-188 | The mode's own queue gets the slot back; a disabled or unlimited service hands nothing back |
| Concurrency.ConcurrencyControl.RemoveOne | packages/cli/src/concurrency/concurrency-control.service.ts:193-198 | The waiter leaves the mode's own queue; the other queue is untouched |
| Concurrency.ConcurrencyControl.RemoveAll | packages/cli/src/concurrency/concurrency-control.service.ts:205-223 | Empties both queues and cancels the given rows if enabled, and does nothing at all otherwise |
| ExecutionClaims.NextKeepsAccount | packages/@n8n/db/src/repositories/execution.repository.ts:353-453 | Every write, from a runner or from outside, keeps: claims + cancellations + overwritten waits + still waiting = waits, and one winner per claim |
| ExecutionClaims.ClaimedOncePerWait | packages/cli/src/active-executions.ts:122-139 | Over any stretch of any run, successful claims of a waiting row never exceed the waits it went through |
| ExecutionClaims.SecondRunnerIff | packages/cli/src/active-executions.ts:129-143 | A write gives the row a second runner, or one while it waits, exactly when it claims a new row that still has one or is an outside write that puts a running row back to waiting |
| ExecutionClaims.ResumeOnce | packages/cli/src/active-executions.ts:114-148 | Without such an event there is never more than one runner, none while waiting, and the waits that ended did so by exactly one claim or cancellation each, exactly if no outside write ended one |
| ExecutionClaims.RecoveredWait | packages/cli/src/executions/execution-recovery.service.ts:115-130 | A recovery ends a wait nobody claimed or cancelled; its save hook then starts another, because the time to wait for is still set |
| ExecutionClaims.RecoveryUndoesClaim | packages/cli/src/executions/execution-recovery.service.ts:225-238 | A recovery that read a waiting row puts it back after it was claimed; it is claimed again while the first claimer runs it |
| ExecutionClaims.RecoveryOfLiveRow | packages/cli/src/executions/enqueued-execution-recovery.service.ts:52-78 | Recovering a row whose creator is only queued makes both run it |
| ExecutionClaims.CanceledThroughoutIff | packages/cli/src/executions/execution.service.ts:697-713 | From a cancellation on, the row is cancelled at every point of a run exactly if no live runner writes it by `setRunning` or an unconditional save, and no outside write replaces it |
| ExecutionClaims.CanceledThenRunning | packages/cli/src/active-executions.ts:106-112 | An execution cancelled between its reservation and its `setRunning` is running again |
| ExecutionClaims.CanceledThenCrashed | packages/cli/src/executions/execution-recovery.service.ts:115-126 | An execution cancelled after a recovery read it ends as crashed |
| ExecutionClaims.OverThroughoutIff | packages/cli/src/execution-lifecycle/execution-lifecycle-hooks.ts:666-675 | Once its runners are gone an ended row stays ended and is never claimed or run again, exactly if no outside write puts back a status that has not ended |
| ExecutionClaims.RunnerWrites | packages/@n8n/db/src/repositories/execution.repository.ts:372-453 | What each write of a runner leaves in status, `finished` and start time, and when its condition refuses it |
| ExecutionClaims.SavedOutcomeStands | packages/cli/src/execution-lifecycle/execution-lifecycle-hooks.ts:666-675 | The outcome saved by the last runner stands in every run without a cancellation or an outside write |
| ExecutionClaims.LateSaveWrites | packages/@n8n/db/src/repositories/execution.repository.ts:408-453 | When a second save changes the row, and to what |
| ExecutionClaims.CancelAndCrash | packages/@n8n/db/src/repositories/execution.repository.ts:353-370 | Only new and running rows can be marked as crashed; a cancellation takes any row |
| ExecutionClaims.RecoveryVerdict | packages/cli/src/executions/execution-recovery.service.ts:145-238 | What a recovery makes of every row it can read, with and without logs, in its two writes |
| ExecutionClaims.RecoveryHookWrites | packages/cli/src/executions/execution-recovery.service.ts:275-302 | What the recovery's save hook writes over whatever the row has become since |
| ExecutionClaims.StartedAtIsKept | packages/@n8n/db/src/repositories/execution.repository.ts:372-389 | No later write changes the first start time |
| Cluster.NextKeepsInv | packages/cli/src/active-executions.ts:84-161 | Each event of any process keeps every process's invariant, and every registry entry anywhere backed by a creation or a won claim |
| Cluster.RunKeepsInv | packages/cli/src/active-executions.ts:84-161 | The same over every interleaving of any number of processes |
| Cluster.OneIncarnationPerClaim | packages/cli/src/active-executions.ts:129-161 | All processes together never have more incarnations of an execution than its creation, its recoveries while new and its claimed waits account for |
| Cluster.EveryWinnerRegisters | packages/cli/src/active-executions.ts:122-161 | While no database call fails, whoever created or won an execution is adding it or has registered it; with no add of it in flight, its incarnations everywhere are exactly its winners |
| Cluster.WinnerRegisters | packages/cli/src/active-executions.ts:150-161 | The add that won its row registers under its id, in its own process, and writes no row |
| Cluster.ClaimOutcome | packages/cli/src/active-executions.ts:129-148 | A claim succeeds exactly on a row in the expected status; the loser changes no row, no registry and keeps no slot |
| Cluster.SecondClaimLoses | packages/cli/src/wait-tracker.ts:152-171 | Of two adds racing for a waiting row, in one process or two, the second loses |
| Cluster.RaceIsReachable | packages/cli/src/wait-tracker.ts:152-171 | Two adds about to claim the same waiting row are reachable |
| Cluster.RowAfter | packages/cli/src/active-executions.ts:129-143 | A row in the cluster changes only by the writes of the row machine, outside writes included |
| Cluster.ProcessAfter | packages/cli/src/active-executions.ts:84-161 | A process in the cluster changes only by steps of its own machine, which its claim decides |
| Cluster.ResumeOnceAcrossProcesses | packages/cli/src/wait-tracker.ts:120-171 | Across all processes an execution never has two runners, none while it waits, and each wait that ended did so by exactly one claim or cancellation, save those an outside write ended; assumes no event of the kind `ExecutionClaims.SecondRunnerIff` singles out |
| Cluster.WaitsThroughoutIff | packages/cli/src/active-executions.ts:122-139 | A row waits throughout a run of the cluster exactly if no event of it is a winning claim, a cancellation, or an outside write that ends the wait |
| Cluster.WakeUpIsLostIff | packages/cli/src/wait-tracker.ts:152-166 | A child that finishes while its parent runs resumes it exactly if the parent's wait is saved first; otherwise its claim is spent and the parent waits on until another claim, a cancellation or an outside write |
| Cluster.LostWakeUpIsReachable | packages/cli/src/wait-tracker.ts:152-166 | A running parent with a resume of it about to claim its row is reachable |
| WaitTracker.PollArms | packages/cli/src/wait-tracker.ts:98-109 | A poll arms exactly the due executions not yet tracked, one new timer each |
| WaitTracker.PollServesUnlessStranded | packages/cli/src/wait-tracker.ts:82-110 | After a poll a due execution has a timer exactly if it was not stranded |
| WaitTracker.TrackedIff | packages/cli/src/wait-tracker.ts:98-122 | Polls track the due ones; a start, a stop and a fired timer untrack the execution they name, and no other |
| WaitTracker.PendingAfter | packages/cli/src/wait-tracker.ts:104-118 | A fired timer is spent, a stop clears the stored one of its execution, stepping down those of all tracked ones; a direct start clears none |
| WaitTracker.FreedIsRearmed | packages/cli/src/wait-tracker.ts:98-122 | After a timer fired, a start or a stop the execution can wait again: the next poll that finds it due arms a new timer for it |
| WaitTracker.StopTrackingStrands | packages/cli/src/wait-tracker.ts:255-264 | Stepping down strands exactly the tracked executions whose only timer is the stored one |
| WaitTracker.StrandedStays | packages/cli/src/wait-tracker.ts:98-109 | No poll and no new leadership frees a stranded execution |
| WaitTracker.StrandedIff | packages/cli/src/wait-tracker.ts:255-264 | One event strands an execution exactly if leadership is lost while its stored timer is its only one; exactly a start or stop by name frees it |
| WaitTracker.NeverStrandedIff | packages/cli/src/wait-tracker.ts:82-110 | Throughout a run an execution is never stranded exactly if that never happens |
| WaitTracker.LeadershipRoundTripStrands | packages/cli/src/wait-tracker.ts:70-110 | An execution armed before stepping down is never started by this instance's polling again |
| WaitTracker.WaitTracker.GetWaitingExecutions | packages/cli/src/wait-tracker.ts:82-110 | The loop is the poll of the machine |
| WaitTracker.WaitTracker.Stop | packages/cli/src/wait-tracker.ts:112-118 | Clears the timer and forgets the execution, if tracked |
| WaitTracker.WaitTracker.StartNow | packages/cli/src/wait-tracker.ts:120-182 | Which rows are refused, that a lost claim is not an error, and when the parent is resumed afterwards |
| WaitTracker.WaitTracker.OnTimer | packages/cli/src/wait-tracker.ts:104-106 | The timer is spent and its execution untracked |
| WaitTracker.WaitTracker.StopTrackingAll | packages/cli/src/wait-tracker.ts:255-264 | Clears every stored handle and leaves the map as it is |
| Retry.WithRetry | packages/cli/src/wait-tracker.ts:238-252 | Ends at the first success, non-retryable error or exhausted attempt; after f retried failures it has slept 100 * (2^f - 1) |
| Retry.RetriedClasses | packages/cli/src/wait-tracker.ts:35-37 | All but user and unexpected errors are retried |
| Retry.ResumeParentExecution | packages/cli/src/wait-tracker.ts:194-229 | Never rejects; starts the parent only after its patch was written; a waiting or absent child touches nothing |
| ParentHandover.UpdateParent | packages/cli/src/workflow-helpers.ts:534-619 | One report patches its parent and no other row |
| ParentHandover.IgnoredReport | packages/cli/src/workflow-helpers.ts:541-557 | A report without error and data, or to a parent not waiting or without a stack, changes nothing |
| ParentHandover.RestartsUnlessRefused | packages/cli/src/workflow-helpers.ts:506-516 | A parent restarts unless its flag is false; a missing flag means yes |
| ParentHandover.FoldedInClosedForm | packages/cli/src/workflow-helpers.ts:539-618 | After any sequence of reports: flags are ORs, data is the last success's, the error the last failure's, stack length and tail unchanged |
| ParentHandover.FoldedTasks | packages/cli/src/workflow-helpers.ts:578-588 | The waiting task accumulates the same flags and no other task changes |
| ParentHandover.FlagsAreOrderIndependent | packages/cli/src/workflow-helpers.ts:561-573 | Flags do not depend on report order |
| ParentHandover.AllChildrensFlags | packages/cli/src/workflow-helpers.ts:541 | Each flag is the OR over all children exactly when no silent child is the only one to set it |
| ParentHandover.ParentIsMadeFromLineage | packages/cli/src/workflow-helpers.ts:543-618 | In every interleaving of reads, writes and resumptions the stored parent is the fold, over one of the parents there has been, of the reports its last write had seen |
| ParentHandover.LineageFolds | packages/cli/src/workflow-helpers.ts:543-618 | While the parent does not resume, it is the fold of its lineage alone |
| ParentHandover.FlagsSurviveIff | packages/cli/src/workflow-helpers.ts:561-588 | All written flags survive exactly if each is set in the parent or by a report of the lineage |
| ParentHandover.NothingLostIff | packages/cli/src/workflow-helpers.ts:543-618 | No report is lost, and the parent is the fold of all of them, exactly if no write falls between another one and its own read |
| ParentHandover.ResumedIsKeptIff | packages/cli/src/workflow-helpers.ts:548-618 | A resumed parent is never overwritten with what it was before exactly if every report written since was read since |
| ParentHandover.OverlapKeepsFlagIff | packages/cli/src/workflow-helpers.ts:615-618 | The shortest loss: of two overlapping reports the first one's flag is kept exactly if it was set before or the second sets it |
| ParentHandover.LateWrite | packages/cli/src/workflow-helpers.ts:615-618 | The shortest overwrite: a report written after the parent resumed restores the waiting stack under the new status |
| CredentialTypes.LevelsSolve | packages/cli/src/credential-types.ts:31-37 | The level-by-level list satisfies the loop's equation: itself is its start plus all it appends |
| CredentialTypes.LevelsUnique | packages/cli/src/credential-types.ts:31-37 | Nothing else satisfies it |
| CredentialTypes.ParentListIsAncestors | packages/cli/src/credential-types.ts:23-38 | The elements are exactly the strict ancestors |
| CredentialTypes.ChainIsPrefix | packages/cli/src/credential-types.ts:26-38 | With single parents the list starts with the ancestors, nearest first |
| CredentialTypes.RestRepeatsChain | packages/cli/src/credential-types.ts:33-35 | Everything after them is a repeat |
| CredentialTypes.AcyclicIffRanked | packages/cli/src/credential-types.ts:26-38 | The hypothesis of termination is exactly that some ranking falls along every link |
| CredentialTypes.CredentialTypesService.GetParentTypes | packages/cli/src/credential-types.ts:26-38 | Terminates on every acyclic graph although it iterates the list it grows, and returns that list |
| CredentialsOverwrites.ResolveIsCut | packages/cli/src/credentials-overwrites.ts:178-208 | In every memo state the answer gives each name its first occurrence along the chain, up to the first type resolved before |
| CredentialsOverwrites.ResolveIsCompleteIff | packages/cli/src/credentials-overwrites.ts:178-208 | It agrees with nearest-ancestor-wins on every name exactly if the rest of the chain gives no name that part lacks |
| CredentialsOverwrites.LoadIsBetween | packages/cli/src/credentials-overwrites.ts:110-123 | After loading in any order the stored data lies between the configured data and its full resolution |
| CredentialsOverwrites.StoredIsCompleteIff | packages/cli/src/credentials-overwrites.ts:110-123 | The same for what is stored for each type, at the moment the loading loop visits it |
| CredentialsOverwrites.AncestorsFirstIsComplete | packages/cli/src/credentials-overwrites.ts:110-123 | Everything stored is complete if every ancestor is recognised, configured and visited first |
| CredentialsOverwrites.FoldIsFirstOccurrence | packages/cli/src/credentials-overwrites.ts:212-222 | The reversed fold gives each key its first occurrence, repeats included |
| CredentialsOverwrites.RepeatsAddNothing | packages/cli/src/credentials-overwrites.ts:211-216 | Repeated types in the list change nothing |
| CredentialsOverwrites.ChainFindsNearest | packages/cli/src/credentials-overwrites.ts:210-223 | Scanning any such stored data along the chain finds the nearest configured value |
| CredentialsOverwrites.GetIsNearest | packages/cli/src/credentials-overwrites.ts:110-123 | Memo- and order-transparent: `get` gives each name but `__proto__` its nearest configured value, and nothing exactly when no ancestor-or-self is configured |
| CredentialsOverwrites.ReloadKeepsGet | packages/cli/src/credentials-overwrites.ts:125-136 | Loading the persisted data again, in any order, leaves every answer of `get` as it was |
| CredentialsOverwrites.StoredDataDependsOnOrder | packages/cli/src/credentials-overwrites.ts:110-123 | A configuration whose stored data, which `getAll` returns, depends on the order |
| CredentialsOverwrites.TwoParentsDisagree | packages/cli/src/credentials-overwrites.ts:196-223 | With two parents, which of them wins depends on whether the type itself is configured |
| CredentialsOverwrites.TwoParentsList | packages/cli/src/credential-types.ts:26-38 | Types with two parents that meet its hypotheses exist |
| CredentialsOverwrites.AppliedPerField | packages/cli/src/credentials-overwrites.ts:140-176 | Exactly the overwritten fields that read as empty, inherited members included, are filled; non-empty stored fields survive unless their name is reserved; skip-listed customised data is untouched |
| CredentialsOverwrites.FilledIffUnset | packages/cli/src/credentials-overwrites.ts:140-176 | A field is filled exactly if it is overwritten and absent, null or the empty string; a skip-listed type is left alone exactly if some overwritten field holds anything but that or the overwrite itself |
| CredentialsOverwrites.AppliedIdempotent | packages/cli/src/credentials-overwrites.ts:140-176 | Applying twice is applying once |
| CredentialsOverwrites.ManagedIff | packages/cli/src/credentials-overwrites.ts:233-241 | Exactly when a credential reads as managed |
| CredentialsOverwrites.ManagedAfterApplied | packages/cli/src/credentials-overwrites.ts:233-241 | Data already overwritten reads as managed exactly through object-valued overwritten fields |
| CredentialsOverwrites.CredentialsOverwritesService.GetOverwrites | packages/cli/src/credentials-overwrites.ts:178-208 | The memoised recursion, and the memo it leaves |
| CredentialsOverwrites.CredentialsOverwritesService.SetPlainData | packages/cli/src/credentials-overwrites.ts:110-123 | The stored data and memo after loading, for the given key order |
| CredentialsOverwrites.CredentialsOverwritesService.GetEntry | packages/cli/src/credentials-overwrites.ts:210-223 | The fold over the type and its ancestors |
| CredentialsOverwrites.CredentialsOverwritesService.ApplyOverwrite | packages/cli/src/credentials-overwrites.ts:140-176 | The filling loop, in any key order, gives the specified result |
| CredentialsOverwrites.CredentialsOverwritesService.SupportsManaged | packages/cli/src/credentials-overwrites.ts:229-231 | After loading in any order: supported exactly when the type or one of its ancestors is configured |
| CredentialsOverwrites.CredentialsOverwritesService.UsesManaged | packages/cli/src/credentials-overwrites.ts:233-241 | Managed exactly when applying would change an overwritten field |
| CredentialRepair.RepairAllMatches | packages/cli/src/workflow-helpers.ts:369-480 | Every entry the cached loop writes, in terms of the database and the entries before it, and what the caches then hold |
| CredentialRepair.RepairedEntry | packages/cli/src/workflow-helpers.ts:376-482 | Where every written entry points: to the record with its own id and type, to the only record of that name and type in the project, or to what the first entry asking for that id in vain held; everything else stays |
| CredentialRepair.UniqueIff | packages/@n8n/db/src/repositories/credentials.repository.ts:397-403 | A name finds a record exactly if just one in the project has that name and type |
| CredentialRepair.RepairIsTransparent | packages/cli/src/workflow-helpers.ts:369-480 | Caching is invisible exactly when keys are not object members and dangling ids agree on their name |
| CredentialRepair.RepairIsIdempotent | packages/cli/src/workflow-helpers.ts:376-482 | Repairing its own output, as one list of entries, changes nothing |
| CredentialRepair.OldStyleQueriesOnce | packages/cli/src/workflow-helpers.ts:396-428 | The old-style path asks at most once per type and name |
| CredentialRepair.QueriesMade | packages/cli/src/workflow-helpers.ts:396-470 | The queries, exactly: a name once per type, an id unless an entry was written with it before, its name after it if the id is not found |
| CredentialRepair.NodesAreOneList | packages/cli/src/workflow-helpers.ts:376-382 | All nodes share the caches: a workflow is repaired as one list of entries |
| CredentialRepair.RepairNodesIsIdempotent | packages/cli/src/workflow-helpers.ts:362-483 | Repairing a repaired workflow changes no node |
| CredentialRepair.UntouchedNodes | packages/cli/src/workflow-helpers.ts:377-393 | Disabled nodes and absent, unsafe or gateway-managed entries never change |
| CredentialRepair.UniqueIsFound | packages/@n8n/db/src/repositories/credentials.repository.ts:397-403 | A credential found by unique name is found again by its id |
| CredentialRepair.ReplaceInvalidCredentials | packages/cli/src/workflow-helpers.ts:362-483 | The nested loop over the nodes, in place, with the queries it makes |
| Deadlines.EffectiveIsMinimum | packages/cli/src/workflow-execute-additional-data.ts:275-287 | Along any chain of calls the deadline is the minimum of those set since the last call nobody waits for, or the root |
| Deadlines.SynchronousChildEndsFirst | packages/cli/src/workflow-execute-additional-data.ts:591-597 | A child that is waited for never outlives a waiting ancestor |
| Deadlines.SoftDeadlinesAgree | packages/cli/src/workflow-execute-additional-data.ts:242-270 | The two soft deadlines agree exactly when the maximum is positive or no timeout is set |
| Deadlines.HardLimitOutcome | packages/cli/src/workflow-runner.ts:347-461 | No timer exactly if timeout or maximum is not positive; otherwise the stop is the smaller of the two after the original start, or at once |
| Deadlines.SoftLimitOutcome | packages/cli/src/workflow-runner.ts:347-373 | The soft deadline of the main process, from now, under the same conditions |
| Deadlines.SubworkflowLimitOutcome | packages/cli/src/workflow-execute-additional-data.ts:242-270 | That of a sub-workflow exists exactly for a positive timeout, and a maximum counts only if positive |
| Deadlines.ArmHardTimer | packages/cli/src/workflow-runner.ts:439-461 | The timer armed, including the immediate stop |
| Deadlines.HardTimeoutIsWaitInvariant | packages/cli/src/workflow-runner.ts:441-447 | At every resume the timer expires at the original start plus the limit, or at once if that is past |
| Deadlines.RunningTimeIsBounded | packages/cli/src/workflow-runner.ts:439-461 | Over any number of resumes the total running time never exceeds the limit |
| Deadlines.SoftDeadlineMovesWithResume | packages/cli/src/workflow-runner.ts:372-373 | The soft deadline equals the hard one exactly when armed at the original start, and is later otherwise |
| ActivationQueue.TimeoutIsBackoff | packages/cli/src/active-workflow-manager.ts:863-881 | In every run an entry's timeout is 1000 * 2^k capped at a day, k being the non-isolate failures charged to it |
| ActivationQueue.RemovedIsNeverRearmed | packages/cli/src/active-workflow-manager.ts:857-862 | A removed entry is not re-armed by retries in flight, until queued again |
| ActivationQueue.RemovalClears | packages/cli/src/active-workflow-manager.ts:904-909 | A removal drops the entry and clears its stored timer, and touches no other entry or timer |
| ActivationQueue.RemovalOfAllClears | packages/cli/src/active-workflow-manager.ts:914-918 | Removing all leaves no entry and no stored timer, and clears no other |
| ActivationQueue.RemovalIsFinal | packages/cli/src/active-workflow-manager.ts:904-918 | With one retry at a time and none under way, nothing of the workflow runs again after a removal until it is queued |
| ActivationQueue.EnqueueArms | packages/cli/src/active-workflow-manager.ts:842-899 | Queueing leaves one entry with the initial timeout and a new timer, the old stored timer cleared |
| ActivationQueue.QueuedIff | packages/cli/src/active-workflow-manager.ts:667-668 | An entry is dropped by removals and by activations that get that far, and by nothing else |
| ActivationQueue.RetriesAreAccounted | packages/cli/src/active-workflow-manager.ts:849-882 | In every run each retry started is in flight, ended early or passed line 668, and each of those is finishing or ended |
| ActivationQueue.RetriesAreBounded | packages/cli/src/active-workflow-manager.ts:842-899 | A workflow never has more live retries than it was queued times |
| ActivationQueue.OneRetryIff | packages/cli/src/active-workflow-manager.ts:889-909 | From one live retry at most, all of it in reach of a removal, one event ends that exactly if it queues the workflow during a retry |
| ActivationQueue.OneRetryThroughoutIff | packages/cli/src/active-workflow-manager.ts:842-909 | The same at every point of a run |
| ActivationQueue.TwoLiveTimers | packages/cli/src/active-workflow-manager.ts:889-899 | Queueing again while a retry is in flight leaves two timers |
| ActivationQueue.HasAttemptIff | packages/cli/src/active-workflow-manager.ts:842-909 | One event leaves a queued workflow without an attempt exactly if `add` returns early in its last one |
| ActivationQueue.QueuedKeepsTryingIff | packages/cli/src/active-workflow-manager.ts:837-841 | Throughout a run a queued workflow has its next attempt armed or under way, exactly if that never happens |
| ActivationQueue.AbandonedBySkip | packages/cli/src/active-workflow-manager.ts:551-584 | Queued, fired and returned early: the workflow is still queued and nothing will try it again |
| ActivationQueue.ActiveWorkflowManager.AddQueuedWorkflowActivation | packages/cli/src/active-workflow-manager.ts:842-899 | One step: the old entry goes, a new one is armed |
| ActivationQueue.ActiveWorkflowManager.StartRetry | packages/cli/src/active-workflow-manager.ts:849-855 | One step: the timer is spent and the retry is in flight |
| ActivationQueue.ActiveWorkflowManager.Activated | packages/cli/src/active-workflow-manager.ts:667-668 | One step: the attempt drops whatever entry there is and may still fail |
| ActivationQueue.ActiveWorkflowManager.RetryFailed | packages/cli/src/active-workflow-manager.ts:856-882 | One step: nothing if removed, otherwise re-armed with the next timeout |
| ActivationQueue.ActiveWorkflowManager.RemoveQueuedWorkflowActivation | packages/cli/src/active-workflow-manager.ts:904-909 | One step: the stored timer is cleared with the entry |
| ActivationQueue.ActiveWorkflowManager.RemoveAllQueuedWorkflowActivations | packages/cli/src/active-workflow-manager.ts:914-918 | The loop clears every entry and every stored timer |

## Left out

- Database, message queue, HTTP streaming, push, telemetry and logging: rows are values, and an update is one conditional write.
- The microtask between the queue resolving a waiter and its reservation being recorded is not a state of its own.
- ActiveExecutionsRuns.ShutdownDrains: says the wait ends once the remaining handlers have run, not that every workflow run settles, which is up to the engine.
- ActiveExecutionsRuns.CarefulRunsLoseNothing: has the hypothesis the code assumes at line 234; `LostIff` says what breaks it.
- ExecutionClaims.ResumeOnce: excludes claims of a new row whose creator is alive and outside writes that put a running row back to waiting; `SecondRunnerIff` shows these are the only exceptions.
- How a recovery decides which executions are unfinished, and the error workflows its hooks start; any process may recover any row at any time. A row that is not waiting may or may not still have a `waitTill`.
- Cluster.ResumeOnceAcrossProcesses: has the same two exceptions, for every row.
- ExecutionClaims.SavedOutcomeStands: excludes cancellations and outside writes; `CancelAndCrash`, `OverThroughoutIff` and `CanceledThroughoutIff` cover those.
- Cluster.EveryWinnerRegisters: excludes failing database calls, after which an add gives up although it created or won its row.
- ActiveExecutionsRegistry.ShutdownWaitsForIff: while the shutdown waits, nothing is added, goes to wait, or is swept again.
- CredentialsOverwrites.FilledIffUnset: ordinary field names only; `AppliedPerField` covers the reserved and inherited ones.
- Rows are never deleted, and a queue-mode worker counts as part of the incarnation whose job it runs.
- The test runner, which fills the evaluation queue, and the licence tier that caps it: the cap is an input.
- ActiveExecutionsRuns.CapacityIsConserved: the capacity equation holds until a shutdown, after which the code hands no slot back.
- Settling the response promise, writing to the HTTP response and cancelling the workflow run are not modelled; they change no registry state.
- CredentialTypes.CredentialTypesService.GetParentTypes: requires acyclic inheritance; on a cycle the code recurses for ever.
- CredentialsOverwrites.GetIsNearest: single inheritance only; `TwoParentsDisagree` shows it fails for two parents. The name `__proto__` is never carried over by `Object.assign`.
- Type names that collide with `Object.prototype` members, and NaN values, are left out of the overwrites, as is the nesting of object-valued fields.
- CredentialRepair.Step: keeps one pair of caches keyed by type and name, so a type whose own name is an object member is only covered by the unsafe-name test.
- ParentHandover.UpdateParent: takes the child's last-node data as given; choosing pinned data in manual mode is not modelled.
- The 2^31 limit of `setTimeout` delays is not modelled.
- Retry.WithRetry: the operation's outcomes are a function of the attempt number; what it does besides is left to its caller.
- `addActiveWorkflows`, which guards against re-entry and activates workflows in batches, is not modelled.
- WaitTracker.WaitTracker.GetWaitingExecutions: the delay computed from `waitTill` is not modelled; an armed timer may fire at any time.
- Credential definitions, controllers, node loading and command-line handling are declarative.
