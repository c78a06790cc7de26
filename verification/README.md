# Verified model of the n8n execution backend

A Dafny model of the parts of the n8n CLI backend whose state is shared between
processes, timers and recursive calls, with proofs over every input and every run.

**Execution registry and resume protocol** (`basics`, `concurrency_queue`,
`execution_registry`, `active_executions`, `workflow_runner`, `resume_protocol`,
`resume_invariant`, `resume_calls`, `resume_runs`, `slot_theorems`,
`resume_theorems`, `add_theorems`, `entry_theorems`, `stranded_executions`,
`preflight_outcome`, `example_runs`). Any number of processes, timers and finished
children race to resume waiting executions through one store; in queue mode a job
may work for an execution and outlives the process that enqueued it. A step is the code between two `await`s
of one process, or one atomic statement on the store; the guarded update on
`status = 'waiting'` is one step, and it may also be committed or lost while its
answer is lost. `Registry` gives each stretch of code as a function on the state
of one process; the class `ActiveExecutions` updates its fields in place and is
proved to do what these functions say; `ResumeProtocol` steps a system of such
processes; the theorems are about all its runs. A registration is named by the
call of `add` that made it, so the settle callback of an old registration is
told from that of a new one with the same id.

**What a finished child does to its parent** (`parent_patch`, `child_output`,
`execution_persistence`, `wait_tracker`, `wait_tracker_service`): the patch of the
waiting parent, over any sequence of reporting children, and the retried steps
that follow, for every sequence of failures.

**Credential overwrites** (`credential_types`, `credentials_overwrites`,
`overwrites_order`, `apply_overwrite`, `overwrites_service`): the growing worklist
that collects a type's ancestors, the memoised in-place expansion, the lookup, replication to
other instances, and filling a credential's blank fields.

**Activation retries** (`activation_queue`, `active_workflow_manager`): timers,
entries and capped exponential back-off, with attempts that may overlap.

**Credential references** (`credential_repair`): the cached repair loop against
resolving every reference by itself.

**Time limits** (`deadlines`): deadlines of nested sub-workflows and the hard stop
of resumed executions.

## Findings

- A resume whose guarded update is committed but whose answer is lost leaves an
  execution that nobody ever resumes or drives again: every later attempt, including
  the retries that `withRetry` makes, finds it taken and reports success
  (`StrandedExecutions.LostAnswerIsForEver`, `WaitTracking.SilentlyLostIff`).
- An execution that was throttled when its process restarted is never run: the code at
  `n8n-master/packages/cli/src/commands/start.ts:530` takes it up with its id, and the
  guarded update refuses whatever does not wait (`StrandedExecutions.EnqueuedIsNeverRun`).
- In queue mode a job stores `waiting` without marking the registration of the main
  process. If the execution is resumed before the job has finished, the late job settles
  the promise of the new registration, whose callback removes an entry that is in use
  (`ExampleRuns.ResumedBeforeJobFinished`, `ResumeTheorems.LateJobDropsResumed`,
  `ResumeTheorems.FinalizeMakesCallbackDue`). `EntryTheorems.EntryLostIff` says, over every
  run, exactly when an entry leaves the registry while an engine, in any process or as a
  job, works for the execution. The callback of a superseded registration is harmless exactly if it is marked as waiting,
  which in regular mode it always is (`ResumeTheorems.SupersededCallbackIsHarmless`).
- An execution is stranded, that is, stored, not as waiting, and neither claimed by a
  call nor worked for by a job, exactly if some step took its last claim away: among
  others the restart of the process that claims it, but not of one that enqueued its job
  (`StrandedExecutions.StrandedIff`). Nothing repairs that (`StrandedExecutions.StrandedForEver`).
- The wait loop of a shutdown that cancels all executions exits, once the callbacks have
  run, exactly if everything that was registered or marked as waiting in the meantime has
  left the registry again (`EntryTheorems.CancelAllEmptiesIff`).
- Shutdown switches concurrency control off so that throttled executions stay throttled,
  but an evaluation case that asks for capacity while shutdown waits switches it on again
  (`n8n-master/packages/cli/src/concurrency/concurrency-control.service.ts:129`). The next
  slot that is returned then lets a throttled execution go on. Throttled executions go on
  exactly if they are granted a slot after such a step, and the queue's counters are off by
  the slots taken less those returned in between (`SlotTheorems.ThrottledStayThrottled`,
  `SlotTheorems.ReenabledLetsGo`, `ExampleRuns.ThrottledGoesOn`,
  `SlotTheorems.SlotConservation`, `SlotTheorems.LimitRespectedIff`).
- An execution resumed by a webhook, a form or a chat message gets its whole time limit
  again, since only the wait tracker hands the start time over. Resuming keeps within the
  allowance exactly if no later resume goes without it (`Deadlines.ExtendsIff`,
  `Deadlines.AllowanceIsKeptIff`, `Deadlines.WebhookResumeStartsAnew`).
- The response mode that a webhook sets after its run failed the pre-flight is never
  removed in regular mode (`PreflightOutcome.LeakedModeStays`).
- The parent that waits for a child which fails its pre-flight is neither patched nor
  started (`PreflightOutcome.FailedChildLeavesParent`).
- A wait tracker that stops and starts tracking again never sets a timer for the
  executions that it tracked before (`WaitTracking.TakeoverTracksIff`).
- Siblings that report to their parent at the same time can erase each other's
  credential flags, which are meant to accumulate only. A child's flag is lost exactly if
  the chain of reads behind the last effective write misses that child
  (`ParentPatch.FlagSurvivesIff`, `ParentPatch.FlagIsLostIff`,
  `ParentPatch.OverlappingSiblingErasesFlag`).
- A child that used a private credential and ends without error and without output
  leaves no flag on its parent (`ParentPatch.SilentChildLeavesNoFlag`).
- Removing a throttled execution from the concurrency queue lets the next one
  through without a free slot. The limit is exceeded exactly when another
  execution was waiting (`SlotTheorems.LimitExceededIff`).
- The comment at `n8n-master/packages/cli/src/workflow-execute-additional-data.ts:253-254`
  says that the three deadline computations mirror each other. They do exactly if
  the maximum is positive or no limit is asked for (`Deadlines.PathsAgreeIff`).
- A hard stop more than 2^31 - 1 ms ahead fires after one millisecond, since a
  Node.js timer takes no longer delay (`Deadlines.HardStopIsExactIff`).
- The cached repair gives two references to one deleted credential the first name
  seen, and replaces a credential named like a member of every JavaScript object by
  that member (`CredentialRepair.DifferentNamesAreOverwritten`,
  `CredentialRepair.MemberNameIsLost`). `CredentialRepair.WorkflowRepairedIff` gives
  the exact condition.
- A retry attempt that overlaps with queueing the workflow anew leaves a timer
  that no removal clears (`ActivationQueue.FailTracksIff`,
  `ActivationQueue.OverlappingAttemptLosesTimer`).
- With several parents per type, the key order of the overwrites can show in a lookup.
  For a type that others extend it does, for some overwrites, exactly if the type or one
  of its ancestors has several parents (`OverwritesOrder.OrderShowsIff`); a type that has
  none such above it is looked up alike in every order, whatever other types extend
  (`CredentialsOverwrites.LookupIsOrderIndependent`). For a type that nothing extends the
  order shows if another child of its last parent can come first
  (`OverwritesOrder.OvertakenTypeShowsTheOrder`); the exact condition for such types stays
  open, since it turns on where the repeated ancestors of the parents come in the lookup.
  All credential types in the repository have at most one parent.

## Assumptions

- The stored status becomes `waiting` only through the engine of an execution. One
  that runs in the process of its registration marks that first
  (`n8n-master/packages/core/src/execution-engine/node-execution-context/base-execute-context.ts:129-134`);
  the job of a worker cannot
  (`n8n-master/packages/cli/src/scaling/job-processor.ts:240-253`).
  Everybody may overwrite a stored status with any other value at any time.
- Rows of the store are never deleted while anybody may still resume or finish the
  execution; a job stores `waiting` for an execution whose row exists.
- New execution ids are fresh, and a process numbers its own calls of `add`.
- The `extends` graph is finite and acyclic; the theorems about merging are about types
  that have at most one parent, as have all their ancestors. JSON and the cipher are
  exact round trips.
- Ids of stored credentials are generated, so none is called like a member of every
  JavaScript object.
- The lemmas on sequences of reports take each report as atomic, except
  `ParentPatch.RaceIsExplained` and `ParentPatch.FlagSurvivesIff`, which split reading
  from writing; `ParentPatch.InTurnIsAtomic` connects the two.
- What the environment decides is a parameter: outcomes of attempts, clock readings,
  the order of object keys, the rows of the database.

## Model

| member | source | states |
|---|---|---|
| Concurrency.ConcurrencyQueue.Enqueue | n8n-master/packages/cli/src/concurrency/concurrency-queue.ts:21-32 | takes a place and throttles the execution exactly if no place was free; the new queue state |
| Concurrency.ConcurrencyQueue.Dequeue | n8n-master/packages/cli/src/concurrency/concurrency-queue.ts:38-42 | a returned place goes to the first waiter, if there is one |
| Concurrency.ConcurrencyQueue.ResolveNext | n8n-master/packages/cli/src/concurrency/concurrency-queue.ts:64-74 | the first waiter leaves the queue, capacity unchanged |
| Concurrency.ConcurrencyQueue.Remove | n8n-master/packages/cli/src/concurrency/concurrency-queue.ts:44-54 | the removed waiter gives its place back and the next waiter is let through |
| Concurrency.AdmissionKeepsLimit | n8n-master/packages/cli/src/concurrency/concurrency-queue.ts:21-42 | enqueueing and dequeueing keep the places in use within the limit and waiters only while it is reached |
| Concurrency.RemoveKeepsLimitIff | n8n-master/packages/cli/src/concurrency/concurrency-queue.ts:44-54 | removing a waiter keeps that exactly if it is not in the queue or waits alone |
| Concurrency.RemoveOversubscribes | n8n-master/packages/cli/src/concurrency/concurrency-queue.ts:44-54 | a concrete queue that exceeds its limit after a removal |
| ActiveExecutionsService.ActiveExecutions.Reserve | n8n-master/packages/cli/src/active-executions.ts:94-114 | throttled exactly if control is on, the mode is limited and no place is free; otherwise the call holds a slot and is about to write exactly if it resumes or the mode is regular |
| ActiveExecutionsService.ActiveExecutions.ReleaseReservation | n8n-master/packages/cli/src/concurrency/concurrency-capacity-reservation.ts:30-36 | a held slot goes back and is passed to the first waiter; anything else changes nothing |
| ActiveExecutionsService.ActiveExecutions.Throw | n8n-master/packages/cli/src/active-executions.ts:137-140 | a failing call returns its slot and changes nothing else |
| ActiveExecutionsService.ActiveExecutions.Register | n8n-master/packages/cli/src/active-executions.ts:142-155 | a new registration, with start time and response promise of the one it supersedes, else with the time of the clock and none |
| ActiveExecutionsService.ActiveExecutions.RunSettleCallback | n8n-master/packages/cli/src/active-executions.ts:158-173 | releases the slot; removes entry and response mode unless this registration waits |
| ActiveExecutionsService.ActiveExecutions.StopExecution | n8n-master/packages/cli/src/active-executions.ts:210-237 | a waiting entry is removed; any other has its promise rejected unless settled |
| ActiveExecutionsService.ActiveExecutions.Remove | n8n-master/packages/cli/src/concurrency/concurrency-control.service.ts:193-198 | removal from the queue: the removed call hangs, the next waiter goes on |
| ActiveExecutionsService.ActiveExecutions.ShutdownFirstPass | n8n-master/packages/cli/src/active-executions.ts:324-343 | switches concurrency control off in regular mode; without cancellation exactly the waiting and new entries leave |
| WorkflowRunnerService.WorkflowRunner.Preflight | n8n-master/packages/cli/src/workflow-runner.ts:236-255 | a context or permission error finalizes and stops; otherwise the response promise, if any, is that of the current entry |
| ResumeRuns.StepKeepsInv | n8n-master/packages/cli/src/active-executions.ts:61-259 | every step keeps: one claimant per execution over all processes and jobs, claimed executions are not stored as waiting, and each process is valid |
| ResumeRuns.ReachableInv | n8n-master/packages/cli/src/active-executions.ts:61-259 | the invariant holds in every state of every run |
| ResumeRuns.ResumedOncePerSpell | n8n-master/packages/cli/src/active-executions.ts:126-135 | between two successful resumes of an execution a new waiting spell begins, in every interleaving |
| ResumeRuns.WaitingHasBegun | n8n-master/packages/cli/src/scaling/job-processor.ts:240-253 | an execution that waits now and did not earlier has begun a waiting spell in between, through its process or through a job |
| ResumeRuns.OneDriver | n8n-master/packages/cli/src/workflow-helpers.ts:484-485 | at most one engine drives an execution, in any process or as a job whose process may be gone, never while it is stored as waiting |
| ResumeRuns.CallDevelops | n8n-master/packages/cli/src/active-executions.ts:61-178 | over any run a call's phase, slot, promise and start time only move forward |
| AddTheorems.StepFollowsAutomaton | n8n-master/packages/cli/src/active-executions.ts:61-140 | the phases of a call as an automaton: which step leads where, a call that is let through going on to a status write exactly if it resumes or the mode is regular |
| AddTheorems.BeginsIn | n8n-master/packages/cli/src/active-executions.ts:61-114 | a call begins by creating an execution, by reserving capacity, or, to resume an evaluation, by writing |
| AddTheorems.WritesOnlyIf | n8n-master/packages/cli/src/active-executions.ts:107-109 | in every run a call about to write a status resumes an execution or its process is in regular mode |
| AddTheorems.WriteSets | n8n-master/packages/cli/src/active-executions.ts:107-135 | a status write makes its own execution running, unless it resumes one that is not stored as waiting, and touches no other |
| AddTheorems.NewStaysNew | n8n-master/packages/cli/src/active-executions.ts:107-110 | in queue mode no status write changes the stored status of an execution that was not waiting |
| AddTheorems.StoreStep | n8n-master/packages/cli/src/active-executions.ts:93 | which of the other steps change which stored status, and to what |
| AddTheorems.FirstComeFirstServed | n8n-master/packages/cli/src/concurrency/concurrency-queue.ts:21-42 | if a call is throttled while another already is, then whenever it has gone on the other is no longer throttled, in every run |
| AddTheorems.RegisterStarts | n8n-master/packages/cli/src/active-executions.ts:144-155 | a fresh registration starts at the time of the clock without a response promise; another takes both over |
| AddTheorems.AttachAttaches | n8n-master/packages/cli/src/active-executions.ts:188-193 | attaching a response promise to a registered execution attaches that one and changes nothing else |
| AddTheorems.MarksWaiting | n8n-master/packages/cli/src/active-executions.ts:307-309 | an engine that puts its execution to wait marks the current registration as waiting |
| AddTheorems.WaitingOutlivesCallback | n8n-master/packages/cli/src/active-executions.ts:163-173 | over any run, the callback of a registration that was put to wait returns the slot and leaves entry and response mode |
| AddTheorems.PromiseIsSettled | n8n-master/packages/cli/src/active-executions.ts:210-259 | finalizing hands its result, and stopping a run that does not wait a rejection, to a promise still pending |
| AddTheorems.ControlStep | n8n-master/packages/cli/src/active-executions.ts:324-330 | shutdown switches concurrency control off, in regular mode only; resolving the limit on evaluations switches it on; nothing else does either |
| AddTheorems.RestartClears | n8n-master/packages/cli/src/commands/start.ts:497-531 | a process starts with nothing registered, reserved or queued; the store and the jobs stay |
| ResumeTheorems.LoserThrows | n8n-master/packages/cli/src/active-executions.ts:132-140 | the loser's slot goes back; store, registry and other registrations stay |
| ResumeTheorems.LoserNeverRegisters | n8n-master/packages/cli/src/active-executions.ts:132-140 | however the run goes on, a losing call never appears in the registry and ends without a slot |
| SlotTheorems.SlotConservation | n8n-master/packages/cli/src/active-executions.ts:67-79 | the slots held are those of the non-evaluation calls that reserved and have neither failed nor run their callback; the queue accounts for the production ones but for those taken less those returned while control was off |
| SlotTheorems.ReturnedOnce | n8n-master/packages/cli/src/concurrency/concurrency-capacity-reservation.ts:30-36 | a returned reservation is never held again |
| SlotTheorems.LimitRespected | n8n-master/packages/cli/src/concurrency/concurrency-control.service.ts:173-188 | with control always on and harmless removals only, no more calls than the limit hold a slot and the counters account for each |
| SlotTheorems.LimitRespectedIff | n8n-master/packages/cli/src/concurrency/concurrency-control.service.ts:129 | whether or not control was off, the limit is kept exactly if not more slots than the queue has spare were taken less returned while it was |
| SlotTheorems.LimitExceededIff | n8n-master/packages/cli/src/concurrency/concurrency-queue.ts:44-54 | after harmless removals only, exactly when the next removal keeps the limit: with control always on, if the removed execution was absent or alone in the queue |
| SlotTheorems.ThrottledIff | n8n-master/packages/cli/src/concurrency/concurrency-queue.ts:21-74 | over any run a call that was throttled has gone on exactly if some step granted it a slot, hangs for good exactly if some step removed it, and is still throttled if neither |
| SlotTheorems.ThrottledStayThrottled | n8n-master/packages/cli/src/active-executions.ts:326-330 | once control is off, a throttled execution goes on exactly if it is granted a slot, and hangs exactly if it is removed, after control was switched on again; otherwise it is still throttled |
| SlotTheorems.ReenabledLetsGo | n8n-master/packages/cli/src/concurrency/concurrency-control.service.ts:113-130 | after shutdown has switched control off, an evaluation case and one returned slot let the first throttled execution go on |
| ResumeTheorems.SupersededCallbackIsHarmless | n8n-master/packages/cli/src/active-executions.ts:158-173 | a superseded registration waits, or its engine was handed to a job; its callback leaves registry and response modes alone exactly if it is marked as waiting, in regular mode always |
| ResumeTheorems.SupersededWaitsForEver | n8n-master/packages/cli/src/active-executions.ts:143-173 | the captured status of a superseded registration never changes; in regular mode it is `waiting` |
| ResumeTheorems.CallbackCleansUp | n8n-master/packages/cli/src/active-executions.ts:163-173 | the callback of a registration that does not wait removes its id and slot; the entry is another registration's only if its engine was handed to a job |
| ResumeTheorems.LateJobDropsResumed | n8n-master/packages/cli/src/workflow-runner.ts:659 | a job that finishes after its execution was resumed settles the new registration, whose callback removes the entry in use |
| EntryTheorems.StepEntry | n8n-master/packages/cli/src/active-executions.ts:155-343 | exactly what any step does to the presence of an entry: registering adds it; a restart, a callback that did not see waiting, stopping a waiting one and shutdown drop it |
| EntryTheorems.EntryIff | n8n-master/packages/cli/src/active-executions.ts:155-343 | over every run an execution is in the registry exactly if it was and no step dropped it, or a step registered it and no later one dropped it |
| EntryTheorems.EntryLostIff | n8n-master/packages/cli/src/active-executions.ts:155-343 | over any run an execution for which an engine works throughout, in any process or as a job, has lost its entry exactly if one of these steps dropped it |
| EntryTheorems.LeftAfterCancelAllIff | n8n-master/packages/cli/src/active-executions.ts:324-356 | in every run, at any time after a shutdown that cancels all, the registry holds exactly the executions whose callback is still to run and those registered or marked as waiting since and not dropped |
| EntryTheorems.CancelAllEmptiesIff | n8n-master/packages/cli/src/active-executions.ts:347-356 | in every run, once no callback is due, the wait loop of such a shutdown ends exactly if all that was registered or marked as waiting since has been dropped |
| EntryTheorems.ShutdownEnds | n8n-master/packages/cli/src/active-executions.ts:347-356 | in every run in which the process registers and marks nothing since, whatever else happens, the registry is empty once no callback is due |
| ResumeTheorems.StaysRunning | n8n-master/packages/cli/src/active-executions.ts:307-309 | no step but its own engine's changes a registration's status |
| ResumeTheorems.PreflightFailureLeavesNothing | n8n-master/packages/cli/src/workflow-runner.ts:236-251 | right after its callback, a run that fails before its engine puts it to wait has no entry, response mode or slot, fresh or resumed |
| ResumeTheorems.FinalizeMakesCallbackDue | n8n-master/packages/cli/src/active-executions.ts:240-259 | finalizing makes the callback of a pending registration due exactly if it is the current one |
| ResumeTheorems.ResumesKeepStartAndResponder | n8n-master/packages/cli/src/active-executions.ts:144-155 | however often an execution is registered again while in the registry, it keeps start time and response promise |
| PreflightOutcome.ModeIff | n8n-master/packages/cli/src/active-executions.ts:163-237 | over every run, a response mode is kept exactly if some step set it and none since cleared it: a restart, the callback of a registration that does not wait, or stopping one that does |
| PreflightOutcome.ModeIsLastSet | n8n-master/packages/cli/src/active-executions.ts:315-321 | a response mode is the one that was set last |
| PreflightOutcome.ModeAfterFailureIff | n8n-master/packages/cli/src/webhooks/webhook-helpers.ts:833-845 | after the callback of a failed run the mode is there exactly if it was set after it and not cleared |
| PreflightOutcome.LeakedModeStays | n8n-master/packages/cli/src/webhooks/webhook-helpers.ts:841-845 | in regular mode a mode set after the callback of a failed run stays until a restart or a new registration |
| PreflightOutcome.ParentStartedAfterIff | n8n-master/packages/cli/src/wait-tracker.ts:170-178 | the parent is started exactly if the child is registered when its promise is asked for, finishes with data, and both steps recover |
| PreflightOutcome.FailedChildLeavesParent | n8n-master/packages/cli/src/wait-tracker.ts:170-199 | the promise of a run that fails its pre-flight settles without data, so its waiting parent is neither patched nor started whenever that is asked for; after the callback that is logged |
| Registry.FirstPassDropsIdle | n8n-master/packages/cli/src/active-executions.ts:332-343 | without cancellation the first pass drops exactly the visited entries that are waiting or new, nothing else changes |
| Registry.FirstPassCancels | n8n-master/packages/cli/src/active-executions.ts:334-338 | with cancellation every visited entry is gone or has its promise settled |
| Registry.CancelledIsDue | n8n-master/packages/cli/src/active-executions.ts:232-235 | every entry that is left has its callback due |
| Registry.CallbackLeavesFewer | n8n-master/packages/cli/src/active-executions.ts:163-173 | each callback that runs takes its own call, and no other, out of those due |
| Registry.CancelAllEmptiesRegistry | n8n-master/packages/cli/src/active-executions.ts:324-356 | while nothing but settle callbacks runs in the process, no more of them run than were due, and after the last one the registry is empty; for every run see `EntryTheorems.CancelAllEmptiesIff` |
| StrandedExecutions.StrandedForEver | n8n-master/packages/cli/src/active-executions.ts:126-140 | an execution not stored as waiting that no job works for and no call claims is never claimed, driven or stored as waiting again, in any continuation of the run |
| StrandedExecutions.StrandedIff | n8n-master/packages/cli/src/active-executions.ts:111-140 | over any run an execution that was not stranded is so later exactly if some step took its last claim away: the restart of the process that claims it, a failed status write, its removal from the queue, its job or a marked engine that ends, or a status stored over `waiting` |
| StrandedExecutions.LostAnswerStrands | n8n-master/packages/cli/src/active-executions.ts:126-140 | a committed guarded update whose answer is lost strands its execution |
| StrandedExecutions.LostAnswerIsForEver | n8n-master/packages/cli/src/wait-tracker.ts:213-219 | after that no attempt in any process resumes the execution and no engine works for it |
| StrandedExecutions.RestartStrands | n8n-master/packages/cli/src/active-executions.ts:111-135 | a restart, with any settings, strands whatever the process itself was driving or had throttled |
| StrandedExecutions.EnqueuedIsNeverRun | n8n-master/packages/cli/src/commands/start.ts:497-531 | an execution throttled when its process restarts is never resumed or driven: no guarded update for it matches |
| ExampleRuns.RaceHasOneWinner | n8n-master/packages/cli/src/active-executions.ts:111-155 | a run in which two processes race, one is registered and the other refused |
| ExampleRuns.ResumedBeforeJobFinished | n8n-master/packages/cli/src/scaling/job-processor.ts:240-253 | a run in queue mode that ends with a superseded registration whose job has not been reported as finished |
| ExampleRuns.ThrottledGoesOn | n8n-master/packages/cli/src/concurrency/concurrency-control.service.ts:113-130 | a run in which shutdown switches control off, an evaluation case switches it on, and the throttled execution then goes on |
| ExecutionPersistenceService.ExecutionPersistence.UpdateParentExecutionWithChildResults | n8n-master/packages/cli/src/workflow-helpers.ts:491-576 | the whole new store: the patched parent, or no change; fails exactly if the last node has pinned data that counts but no last task |
| ExecutionPersistenceService.ExecutionPersistence.StampUsage | n8n-master/packages/cli/src/workflow-helpers.ts:531-553 | only the waiting task's flags and the resolved user change |
| ParentPatch.PatchesKeep | n8n-master/packages/cli/src/workflow-helpers.ts:505-575 | over any reports: status, tail of the stack, head node, other metadata and all other tasks stay; flags are never taken back |
| ParentPatch.HeadFlagsExact | n8n-master/packages/cli/src/workflow-helpers.ts:516-529 | a flag at the head is set exactly if it was or some effective report sets it |
| ParentPatch.TaskFlagsExact | n8n-master/packages/cli/src/workflow-helpers.ts:531-545 | the waiting task shows the same flags while the parent still waits |
| ParentPatch.FlagsIgnoreOrder | n8n-master/packages/cli/src/workflow-helpers.ts:521-522 | the flags do not depend on the order in which children report, each report being atomic |
| ParentPatch.EveryUseShowsIff | n8n-master/packages/cli/src/workflow-helpers.ts:496-498 | a child's use shows on the parent exactly if it was flagged, none used one, or some using child failed or had output |
| ChildOutput.LastTaskIsTaken | n8n-master/packages/cli/src/workflow-helpers.ts:76-110 | a child that succeeds without pinned data hands over the data of its very last task; without data the parent is unchanged |
| ChildOutput.WithoutLastTaskNothing | n8n-master/packages/cli/src/workflow-helpers.ts:84-92 | without a last task, or with a placeholder for it, a child that succeeds changes nothing |
| ChildOutput.PinnedIsTaken | n8n-master/packages/cli/src/workflow-helpers.ts:94-109 | in manual mode the pinned items of the last node, in order and paired by position, replace its output |
| ChildOutput.FailureIsRecorded | n8n-master/packages/cli/src/workflow-helpers.ts:555-563 | a child that fails leaves the data and records its error, with its link if it has one |
| ChildOutput.EffectiveIff | n8n-master/packages/cli/src/workflow-helpers.ts:496-498 | a report reaches the parent exactly if reading the child's output does not throw and the child failed or has output |
| ChildOutput.SummaryMeans | n8n-master/packages/workflow/src/dynamic-credentials-helpers.ts:33-54 | the flags are those of some task of any node; the user is named only if a private credential was used |
| ChildOutput.FlagsAreStamped | n8n-master/packages/cli/src/workflow-helpers.ts:516-553 | flags and user at the head, on the waiting task and in the runtime data after one report, by the child's tasks |
| ChildOutput.OnlyWaitingParents | n8n-master/packages/cli/src/workflow-helpers.ts:505-514 | a parent that does not wait or has nothing on its stack is not changed |
| ParentPatch.SilentChildLeavesNoFlag | n8n-master/packages/cli/src/workflow-helpers.ts:88-90 | a child that used a private credential and whose last node is not in its run data changes nothing |
| ParentPatch.DataOfLastSuccess | n8n-master/packages/cli/src/workflow-helpers.ts:565-570 | the head's data is the output of the last child that succeeded |
| ParentPatch.DataWithoutSuccess | n8n-master/packages/cli/src/workflow-helpers.ts:565-570 | without a success the head's data stays |
| ParentPatch.ErrorOfLastFailure | n8n-master/packages/cli/src/workflow-helpers.ts:556-564 | the recorded error is that of the last child that failed |
| ParentPatch.ErrorIsNeverCleared | n8n-master/packages/cli/src/workflow-helpers.ts:556-570 | an error is recorded exactly if there was one or some child failed, whatever succeeded later |
| ParentPatch.LinkOfLastFailure | n8n-master/packages/cli/src/workflow-helpers.ts:560-564 | the link is that of the last failing child that has one |
| ParentPatch.ErrorAndLinkAgreeIff | n8n-master/packages/cli/src/workflow-helpers.ts:556-564 | the link is that of the child whose error is recorded exactly if that child has one or nobody before had |
| ParentPatch.ErrorAndLinkAreOfOneChild | n8n-master/packages/cli/src/wait-tracker.ts:173-177 | if every report carries its link, as both callers pass it, error and link are of the last child that failed |
| ParentPatch.UserOfLastNamed | n8n-master/packages/cli/src/workflow-helpers.ts:546-553 | the resolved user is that of the last effective child naming one, on the head and in existing runtime data |
| ParentPatch.RaceIsExplained | n8n-master/packages/cli/src/workflow-helpers.ts:500-575 | with reading and writing apart, the parent is what the reports on the trail of its last write make of it |
| ParentPatch.RaceFollowsSchedule | n8n-master/packages/cli/src/workflow-helpers.ts:500-575 | the reports that the parent and each read copy show are those that the order of reads and effective writes alone determines |
| ParentPatch.FlagSurvivesIff | n8n-master/packages/cli/src/workflow-helpers.ts:521-529 | a flag is set after any interleaving exactly if it was, or a child on the chain of reads behind the last effective write shows it |
| ParentPatch.FlagIsLostIff | n8n-master/packages/cli/src/workflow-helpers.ts:521-529 | the flag of the only child that shows a use is lost exactly if that chain misses the child |
| ParentPatch.OverlappingSiblingErasesFlag | n8n-master/packages/cli/src/workflow-helpers.ts:500-575 | of two siblings that read before either writes, the second erases the flag of the first |
| ParentPatch.InTurnIsAtomic | n8n-master/packages/cli/src/workflow-helpers.ts:500-575 | reports that do not overlap lose nothing |
| ParentPatch.DeliveriesAreIndependent | n8n-master/packages/cli/src/workflow-helpers.ts:491-576 | interleaved reports to different parents give each parent what its own reports give |
| ParentPatch.ShouldRestart | n8n-master/packages/cli/src/workflow-helpers.ts:463-473 | a linked parent restarts unless it says explicitly that it should not |
| WaitTrackerService.WithRetry | n8n-master/packages/cli/src/wait-tracker.ts:235-249 | ends with the first attempt that succeeds, is not worth retrying or is the last allowed, and with its outcome; attempts and pauses in order |
| WaitTrackerService.ResumeParentExecution | n8n-master/packages/cli/src/wait-tracker.ts:191-226 | what it does, in order, for every child result and every failure sequence; it never rejects |
| WaitTrackerService.WaitTracker.StartExecution | n8n-master/packages/cli/src/wait-tracker.ts:120-180 | drops the entry and leaves its timer; names a parent to resume exactly if the record exists, is unfinished and saved, it runs, and it is linked to that parent without saying that this should not resume |
| WaitTrackerService.WaitTracker.GetWaitingExecutions | n8n-master/packages/cli/src/wait-tracker.ts:82-110 | entries and timers after setting one for every listed execution that has no entry |
| WaitTrackerService.WaitTracker.StopExecution | n8n-master/packages/cli/src/wait-tracker.ts:112-118 | exactly that execution is no longer tracked, and its timer is cleared |
| WaitTrackerService.WaitTracker.StopTracking | n8n-master/packages/cli/src/wait-tracker.ts:252-258 | every recorded timer is cleared and every entry kept |
| WaitTracking.AttemptsEnd | n8n-master/packages/cli/src/wait-tracker.ts:235-249 | the number of attempts is where the loop must end, within the limit |
| WaitTracking.AttemptsIff | n8n-master/packages/cli/src/wait-tracker.ts:235-249 | the number of attempts, by the errors themselves: all are retried but the user's and unexpected ones, up to the limit |
| WaitTracking.RetrySleeps | n8n-master/packages/cli/src/wait-tracker.ts:246 | a step with n attempts pauses for 100 * (2^(n-1) - 1) ms in all |
| WaitTracking.RetryTries | n8n-master/packages/cli/src/wait-tracker.ts:240-247 | attempts 1 to n in order, each once, with one doubled pause between two |
| WaitTracking.RecoversIffLastSucceeds | n8n-master/packages/cli/src/wait-tracker.ts:228-249 | a step succeeds exactly if some attempt within the limit does and all before it fail retryably |
| WaitTracking.StartOnlyAfterPatch | n8n-master/packages/cli/src/wait-tracker.ts:197-219 | every start is preceded by a successful patch of a child that finished |
| WaitTracking.AtMostThreeTries | n8n-master/packages/cli/src/wait-tracker.ts:28 | no step is tried more than three times |
| WaitTracking.ResumeSleeps | n8n-master/packages/cli/src/wait-tracker.ts:201-219 | the pauses of both steps together |
| WaitTracking.ParentStartedIff | n8n-master/packages/cli/src/wait-tracker.ts:181-226 | the parent is started exactly if the child finished and both steps recover; exactly the other failures are logged |
| WaitTracking.StartMeans | n8n-master/packages/cli/src/wait-tracker.ts:120-180 | what starting an execution comes to, by its record, its run and its link to a parent |
| WaitTracking.ParentFollowsIff | n8n-master/packages/cli/src/wait-tracker.ts:170-219 | from the start of a child to that of its parent: exactly if the record is startable, it runs, it is linked, it finishes with data, and both steps recover |
| WaitTrackerService.StartThenResume | n8n-master/packages/cli/src/wait-tracker.ts:120-219 | the same for the two methods, one after the other |
| WaitTracking.LosingIsFinal | n8n-master/packages/cli/src/wait-tracker.ts:153-168 | losing the race ends the retries for good, with success and nothing logged, although the error itself would be retried |
| WaitTracking.StartRecoversIff | n8n-master/packages/cli/src/wait-tracker.ts:120-168 | for all records and outcomes the retried start succeeds exactly if one of three attempts resumes the parent or loses the race after retryable failures only |
| WaitTracking.ResumedHereIff | n8n-master/packages/cli/src/wait-tracker.ts:213-219 | the retried start resumes the parent itself exactly if an attempt is answered, no earlier update arrived, and nobody was faster |
| WaitTracking.SilentlyLostIff | n8n-master/packages/cli/src/wait-tracker.ts:213-219 | with nobody else involved it reports success without a resume exactly if the answer of an earlier update was lost |
| WaitTracking.TrackedIff | n8n-master/packages/cli/src/wait-tracker.ts:98-109 | tracking sets a timer for exactly the listed executions without an entry and disturbs no other |
| WaitTracking.TimersAreDue | n8n-master/packages/cli/src/wait-tracker.ts:96-108 | the timer of a newly tracked execution is for that execution and its time |
| WaitTracking.CancelStops | n8n-master/packages/cli/src/wait-tracker.ts:112-118 | `stopExecution` clears the timer of that execution, forgets it, and leaves every other alone |
| WaitTracking.StepDownClears | n8n-master/packages/cli/src/wait-tracker.ts:252-259 | `stopTracking` clears exactly the recorded timers and keeps all entries |
| WaitTracking.TakeoverTracksIff | n8n-master/packages/cli/src/wait-tracker.ts:70-109 | after stepping down and taking over, a listed execution has a timer exactly if it was not tracked before |
| CredentialTypes.GetParentTypes | n8n-master/packages/cli/src/credential-types.ts:26-38 | the growing worklist terminates and gives the generations in order |
| CredentialTypes.AncestorIsLower | n8n-master/packages/cli/src/credential-types.ts:33-35 | every ancestor has strictly fewer ancestors, the measure on which it terminates |
| CredentialTypes.ParentTypesAreAncestors | n8n-master/packages/cli/src/credential-types.ts:23-38 | the result holds exactly the proper ancestors |
| CredentialTypes.WorklistEquation | n8n-master/packages/cli/src/credential-types.ts:26-38 | the result is the direct parents, in order, followed by the parent types of each of its own members in turn |
| CredentialTypes.ChainComesFirst | n8n-master/packages/cli/src/credential-types.ts:31-37 | for a straight type the result starts with the whole chain, nearest first; the rest repeats it |
| OverwritesService.CredentialsOverwrites.GetOverwrites | n8n-master/packages/cli/src/credentials-overwrites.ts:178-208 | result and new list of resolved types of the memoised recursion |
| OverwritesService.CredentialsOverwrites.SetPlainData | n8n-master/packages/cli/src/credentials-overwrites.ts:103-116 | the expanded object; every lookup of a type with at most one parent, as have its ancestors, gives what the type inherits |
| OverwritesService.CredentialsOverwrites.SetData | n8n-master/packages/cli/src/credentials-overwrites.ts:118-131 | stores the already expanded object if persistence is on |
| OverwritesService.CredentialsOverwrites.LoadOverwriteDataFromDB | n8n-master/packages/cli/src/credentials-overwrites.ts:57-77 | expands the stored object once more, or changes nothing |
| OverwritesService.CredentialsOverwrites.ApplyOverwrite | n8n-master/packages/cli/src/credentials-overwrites.ts:140-176 | the filled credential, unless a skip-listed one is customized |
| CredentialsOverwrites.ExpandIsSound | n8n-master/packages/cli/src/credentials-overwrites.ts:103-116 | in any key order each type that is straight, as no type from it upwards has several parents, keeps its own fields and gains only inherited ones, whatever other types extend |
| CredentialsOverwrites.GetIsInherited | n8n-master/packages/cli/src/credentials-overwrites.ts:210-223 | on any soundly expanded object the lookup of a straight type gives what it inherits |
| CredentialsOverwrites.ReduceFindsFirst | n8n-master/packages/cli/src/credentials-overwrites.ts:212-222 | the reversed merge gives each field of the first listed type that has it |
| CredentialsOverwrites.LookupIsOrderIndependent | n8n-master/packages/cli/src/credentials-overwrites.ts:103-223 | after `setPlainData` in any key order the lookup of a straight type is the nearest-ancestor-wins merge |
| CredentialsOverwrites.ExpandedInheritsTheSame | n8n-master/packages/cli/src/credentials-overwrites.ts:118-131 | a straight type inherits the same from an expanded object as from the raw one |
| CredentialsOverwrites.ReplicasAgree | n8n-master/packages/cli/src/credentials-overwrites.ts:57-131 | instances that reload and expand again, any number of times and in any key orders, answer every lookup of a straight type alike |
| CredentialsOverwrites.StoredObjectDependsOnOrder | n8n-master/packages/cli/src/credentials-overwrites.ts:191-207 | the expanded object itself depends on the key order |
| OverwritesOrder.StoredInFull | n8n-master/packages/cli/src/credentials-overwrites.ts:103-116 | a straight type whose key comes before those of all types that share an ancestor with it is stored with everything that it inherits |
| OverwritesOrder.StoredAsGiven | n8n-master/packages/cli/src/credentials-overwrites.ts:178-182 | a type that is resolved on the way to one below it, whose key comes first, is stored as it was given |
| OverwritesOrder.OrderShowsIff | n8n-master/packages/cli/src/credentials-overwrites.ts:103-223 | in a graph that lists only recognised types, each once, the order shows in the lookup of a type that others extend, for some overwrites, exactly if it or an ancestor has several parents |
| OverwritesOrder.TornTypeShowsTheOrder | n8n-master/packages/cli/src/credentials-overwrites.ts:178-223 | for all overwrites that set a field differently for the first and the last recognised parent of a type, and all key orders that begin with it or a type below it, the order shows |
| OverwritesOrder.OvertakenTypeShowsTheOrder | n8n-master/packages/cli/src/credentials-overwrites.ts:178-223 | the order shows in the lookup of a type, also one that nothing extends, if another child of its last recognised parent can be resolved first |
| OverwritesOrder.SeveralParentsShowTheOrder | n8n-master/packages/cli/src/credentials-overwrites.ts:196-199 | for every acyclic graph with a type that has a recognised type below it and two recognised parents: overwrites and two key orders with different lookups |
| ApplyOverwrite.AppliedIsIdempotent | n8n-master/packages/cli/src/credentials-overwrites.ts:140-176 | applying an overwrite twice is applying it once, skip-listed or not |
| ApplyOverwrite.AppliedKeepsValues | n8n-master/packages/cli/src/credentials-overwrites.ts:166-173 | fields with a value and fields outside the overwrite stay; blank ones take its value |
| ApplyOverwrite.AppliedMeans | n8n-master/packages/cli/src/credentials-overwrites.ts:140-176 | field by field: absent, null and empty fields are filled and nothing else changes; on the skip list nothing changes once the user has set an overwritten field |
| ApplyOverwrite.ManagedIffChanged | n8n-master/packages/cli/src/credentials-overwrites.ts:233-241 | managed authentication is used exactly if applying the overwrite changes the credential |
| ApplyOverwrite.SkipListed | n8n-master/packages/cli/src/credentials-overwrites.ts:147-164 | a skip-listed credential that is changed has every covered field from the overwrite |
| ActiveWorkflowManagerService.ActiveWorkflowManager.AddQueuedWorkflowActivation | n8n-master/packages/cli/src/active-workflow-manager.ts:840-897 | the queue with one new entry and timer; an earlier one is cleared |
| ActiveWorkflowManagerService.ActiveWorkflowManager.RetryFailed | n8n-master/packages/cli/src/active-workflow-manager.ts:854-880 | a failed attempt whose workflow is still queued sets that workflow's next timer, live, with the next delay |
| ActiveWorkflowManagerService.ActiveWorkflowManager.RemoveQueuedWorkflowActivation | n8n-master/packages/cli/src/active-workflow-manager.ts:902-907 | entry and recorded timer are gone |
| ActiveWorkflowManagerService.ActiveWorkflowManager.RemoveAllQueuedWorkflowActivations | n8n-master/packages/cli/src/active-workflow-manager.ts:912-916 | the same for every queued workflow |
| ActivationQueue.FailTracksIff | n8n-master/packages/cli/src/active-workflow-manager.ts:856-879 | ending a failed attempt keeps all timers tracked exactly if its workflow's recorded timer is not live |
| ActivationQueue.FailSetsTimer | n8n-master/packages/cli/src/active-workflow-manager.ts:854-880 | after a failed attempt a workflow still queued has a new live timer, its own, with twice the delay up to a day, or the same after an isolate error |
| ActivationQueue.AddSetsTimer | n8n-master/packages/cli/src/active-workflow-manager.ts:887-897 | queueing sets a timer of one second, clears the one the workflow had, and leaves other workflows alone |
| ActivationQueue.RemoveClears | n8n-master/packages/cli/src/active-workflow-manager.ts:902-907 | removing a workflow clears its recorded timer and no other |
| ActivationQueue.QueuedRetriesIff | n8n-master/packages/cli/src/active-workflow-manager.ts:844-897 | over every run a queued workflow has its recorded timer live or the attempt that this started in progress, exactly unless that attempt ended without failing |
| ActivationQueue.AtomicAttemptIsQuiet | n8n-master/packages/cli/src/active-workflow-manager.ts:847-879 | an attempt that fails as soon as it begins meets that condition |
| ActivationQueue.AtomicRunIsQuiet | n8n-master/packages/cli/src/active-workflow-manager.ts:847-885 | a run whose attempts all end as soon as they begin has no overlapping attempt |
| ActivationQueue.OneTimerPerWorkflow | n8n-master/packages/cli/src/active-workflow-manager.ts:887-896 | without overlapping attempts each workflow has at most one live timer, the recorded one, with the exact delay |
| ActivationQueue.DelayIsExact | n8n-master/packages/cli/src/active-workflow-manager.ts:861-864 | after k failures that are not isolate errors the delay is min(1000 * 2^k, 86400000) ms, in every run |
| ActivationQueue.DelayNeverFalls | n8n-master/packages/cli/src/active-workflow-manager.ts:861-878 | no step lowers the delay of a queued workflow |
| ActivationQueue.DelayOnlyGrows | n8n-master/packages/cli/src/active-workflow-manager.ts:861-878 | over a whole run it only grows, up to a day |
| ActivationQueue.DelayIsCapped | n8n-master/packages/cli/src/constants.ts:90-91 | the delay is a day exactly from the 17th failure on |
| ActivationQueue.RemoveAllStopsTimers | n8n-master/packages/cli/src/active-workflow-manager.ts:909-916 | afterwards nothing is queued and no timer is live |
| ActivationQueue.StaysStopped | n8n-master/packages/cli/src/active-workflow-manager.ts:856-859 | attempts still in progress start none, unless a workflow is queued again |
| ActivationQueue.OverlappingAttemptLosesTimer | n8n-master/packages/cli/src/active-workflow-manager.ts:877-889 | queueing during an attempt leaves a timer that removal misses |
| CredentialRepair.ReplaceInvalidCredentials | n8n-master/packages/cli/src/workflow-helpers.ts:319-440 | the nodes in place are repaired by the cached loop, and as resolving each reference afresh exactly if the references are consistent; a reference without a known id is handed a stored credential only if that is the one of its name and type in the project |
| CredentialRepair.RepairSlot | n8n-master/packages/cli/src/workflow-helpers.ts:339-435 | one visit: the new caches and the new reference |
| CredentialRepair.QueryByName | n8n-master/packages/cli/src/workflow-helpers.ts:360-372 | finds a credential exactly if it is the only stored one of that name and type shared with the project; nothing exactly if there is none or there are two |
| CredentialRepair.FreshMeans | n8n-master/packages/cli/src/workflow-helpers.ts:337-425 | what resolving one reference means by the database alone: by a known id, else by the one name in the project, else unchanged |
| CredentialRepair.RepairedWithin | n8n-master/packages/cli/src/workflow-helpers.ts:360-425 | a visited reference without a known id is handed a stored credential only if that is the one of its name and type in the project |
| CredentialRepair.RepairedAsFreshIff | n8n-master/packages/cli/src/workflow-helpers.ts:387-435 | one visited reference gets its fresh resolution exactly if no cache member shadows it and the first lost reference with its id has its name |
| CredentialRepair.RepairIsFreshIffConsistent | n8n-master/packages/cli/src/workflow-helpers.ts:325-436 | all visited references do exactly if references that share a lost id share the name and none is shadowed |
| CredentialRepair.WorkflowRepairedIff | n8n-master/packages/cli/src/workflow-helpers.ts:318-440 | the same for the nodes of any workflow and any database |
| CredentialRepair.DifferentNamesAreOverwritten | n8n-master/packages/cli/src/workflow-helpers.ts:428-435 | two names for one deleted credential: the second reference gets the first name |
| CredentialRepair.MemberNameIsLost | n8n-master/packages/cli/src/workflow-helpers.ts:356-383 | a credential named like a member of every object is replaced by it, wherever its reference stands |
| CredentialRepair.MemberIdIsLost | n8n-master/packages/cli/src/workflow-helpers.ts:399-433 | the same for a reference by an id that is called like such a member |
| CredentialRepair.LookedUpOnce | n8n-master/packages/cli/src/workflow-helpers.ts:374-423 | a name, and an id that resolves to nothing, is looked up for the first reference only |
| CredentialRepair.SkippedIsKept | n8n-master/packages/cli/src/workflow-helpers.ts:334-350 | disabled nodes, nodes without credentials and gateway-managed, missing or unsafe references are unchanged |
| Deadlines.PathsAgreeIff | n8n-master/packages/cli/src/workflow-execute-additional-data.ts:242-270 | main, worker and sub-workflow paths agree exactly if the maximum is positive or no limit is asked for; otherwise all three differ |
| Deadlines.OwnDeadlineMeans | n8n-master/packages/cli/src/workflow-execute-additional-data.ts:242-270 | an execution's own deadline in milliseconds, by the settings, for each path |
| Deadlines.EffectiveIsBound | n8n-master/packages/cli/src/workflow-execute-additional-data.ts:275-287 | the effective deadline is not later than any in the segment that is waited for |
| Deadlines.EffectiveIsAttained | n8n-master/packages/cli/src/workflow-execute-additional-data.ts:275-287 | it is one of the deadlines of that segment |
| Deadlines.EffectiveIsLeast | n8n-master/packages/cli/src/workflow-execute-additional-data.ts:591-597 | for any chain of calls it is the minimum of the defined deadlines since the last call that nobody waits for, and nothing else is |
| Deadlines.WaitedIsNotLater | n8n-master/packages/cli/src/workflow-execute-additional-data.ts:591-597 | a child that is waited for never has a later deadline than an ancestor in its segment |
| Deadlines.OutlivesCallerIff | n8n-master/packages/cli/src/workflow-execute-additional-data.ts:280-286 | a call outlives its caller's deadline exactly if it is not waited for and its own limit allows that |
| Deadlines.StartIsKept | n8n-master/packages/@n8n/db/src/repositories/execution.repository.ts:376-393 | the stored start time is that of the first run |
| Deadlines.HardStopMeans | n8n-master/packages/cli/src/workflow-runner.ts:438-460 | the hard stop by the clock: when the rest of the limit is over, at once if that is past, after one millisecond if it does not fit a timer |
| Deadlines.HardStopIsExactIff | n8n-master/packages/cli/src/workflow-runner.ts:438-460 | a resume that hands the start time over is stopped at the later of the resume and first start plus limit exactly if the remaining time fits a timer; another begins the whole limit again |
| Deadlines.ExtendsIff | n8n-master/packages/cli/src/workflow-runner.ts:440-446 | a resume extends the allowance exactly if it is not handed the start time and comes later |
| Deadlines.AllowanceIsKeptIff | n8n-master/packages/cli/src/workflow-runner.ts:440-446 | over any sequence of resumes the allowance is kept exactly if none of them does so |
| Deadlines.WebhookResumeStartsAnew | n8n-master/packages/cli/src/webhooks/webhook-helpers.ts:833-839 | an execution resumed by a webhook gets the whole limit once more |
| Deadlines.ResumingNeverExtends | n8n-master/packages/cli/src/workflow-runner.ts:440-446 | a resumed execution is stopped at the resume or before the first run would have been exactly if it was handed the start time or no time has passed |
| Deadlines.HardStopComesFirst | n8n-master/packages/cli/src/workflow-runner.ts:371-372 | the soft deadline starts anew on a resume; exactly when the hard stop is not later |
| Deadlines.RunMainProcess | n8n-master/packages/cli/src/workflow-runner.ts:345-460 | soft deadline and hard stop of the main path |
| Deadlines.ProcessJob | n8n-master/packages/cli/src/scaling/job-processor.ts:145-154 | a worker has a deadline exactly if a limit is asked for, and agrees with the two other paths exactly where the maximum is positive or none is asked for |

## Left out

- HTTP, streaming, push, pub/sub, logging, telemetry, events and external hooks: no state worth proving.
- `WorkflowExecute`, expressions, the cipher, the license and the queue library: environment steps or exact round trips.
- The evaluation queue of the test runner: evaluation calls of `add` never touch it; only that resolving its limit can switch control on is modelled.
- Aborting `add` for an unknown mode, and `removeAll` during shutdown, which does nothing once control is off or was never on.
- The polling loop of `shutdown`: that its condition becomes false is proved, its pauses are not modelled.
- Resolving or rejecting response promises, lifecycle hooks, and the workflow execution attached to an entry: only the promise's place is kept.
- WaitTrackerService.WaitTracker.StartExecution: takes what looking up the project and running the execution come to as a parameter; what asking for the promise of a child that is gone comes to is `PreflightOutcome.Awaited`.
- An engine that is finalized late, after its execution was resumed: the model allows it, and it then settles the promise of the new registration.
- That every slot is eventually returned: stopping a waiting execution may leave its promise unsettled.
- Crash recovery and how the queue retries stalled jobs: a restart empties a process, a job lasts until it ends, and anybody may store another status.
- ParentPatch.FlagsIgnoreOrder: takes each report as atomic, because overlapping ones can lose flags; see `ParentPatch.FlagSurvivesIff`.
- Isolation of a parent patch from a concurrent resume: the write is unconditional, so the last writer wins.
- Metadata that is present but empty: treated as missing.
- `mergeRunsPerBranch` and what the parent makes of the patched stack on resume.
- When the wait tracker's timers fire: any start may happen at any time.
- OverwritesOrder.OvertakenTypeShowsTheOrder: gives a condition under which the order shows, not the exact one, because for a type that nothing extends that depends on which ancestors other keys resolve first; for the other types see `OverwritesOrder.OrderShowsIff`.
- OverwritesOrder.OrderShowsIff: does not cover types that nothing extends, nor graphs in which a parent is unrecognised or listed twice, because there the exact condition turns on the order in which repeated ancestors are visited.
- Known credentials and loaded types as two sources of `extends`: taken as one graph.
- Overwrite fields that are explicitly undefined or not primitive.
- The guard against two loads of overwrites at once.
- A credential reference whose id is undefined, a credential type named like an object member that is not unsafe, and case-insensitive name comparison in the database.
- A null execution timeout, and fractions of seconds.
- Webhook registration, node loading and the rest of `add` in the workflow manager: an attempt only succeeds or fails.
