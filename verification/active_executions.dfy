/**
 The registry as the object the source updates in place. Each method is one
 stretch of code between two `await`s and is proved against the function on
 `Process` that the resume protocol steps with.
 */
module ActiveExecutionsService {
  import opened Basics
  import opened Concurrency
  import R = Registry

  class ActiveExecutions {
    var calls: map<CallId, R.Call>
    var activeExecutions: map<ExecutionId, CallId>
    var responseModes: map<ExecutionId, R.ResponseMode>
    var concurrencyEnabled: bool
    /** The limit on evaluations is resolved on first use. */
    var evalQueueUnresolved: bool
    /** A history variable, see `Registry.Process`. */
    var drift: int
    const queue: ConcurrencyQueue
    const regularMode: bool
    const limit: nat

    function State(): R.Process
      reads this, queue
    {
      R.Process(
        calls, activeExecutions, responseModes, queue.State(),
        concurrencyEnabled, evalQueueUnresolved, drift, regularMode, limit)
    }

    constructor (regularMode: bool, concurrencyEnabled: bool, lazy: bool, limit: nat)
      ensures State() == R.Started(regularMode, concurrencyEnabled, lazy, limit)
      ensures fresh(queue)
    {
      this.calls, this.activeExecutions, this.responseModes := map[], map[], map[];
      this.concurrencyEnabled, this.regularMode, this.limit := concurrencyEnabled, regularMode, limit;
      this.evalQueueUnresolved, this.drift := regularMode && concurrencyEnabled && lazy, 0;
      this.queue := new ConcurrencyQueue(limit);
    }

    // ---- capacity reservation ----

    /** `ConcurrencyCapacityReservation.reserve`; the call goes on unless it is throttled. */
    method Reserve(c: CallId)
      requires R.InPhase(State(), c, R.Reserving) && calls[c].target.Some?
      modifies this`calls, this`drift, queue
      ensures State() == R.Throttle(old(State()), c)
      ensures calls[c].phase.Queued? <==> old(concurrencyEnabled && calls[c].mode.Limited? && queue.capacity <= 0)
      ensures !calls[c].phase.Queued? ==>
        calls[c].slot == R.Held && calls[c].phase == if calls[c].resuming || regularMode then R.Writing else R.Claimed
    {
      var call := calls[c];
      var throttled := false;
      if concurrencyEnabled && call.mode.Limited? {
        throttled := queue.Enqueue(call.target.value, c);
      } else if call.mode.Limited? {
        drift := drift + 1;
      }
      if throttled {
        calls := calls[c := call.(phase := R.Queued)];
      } else {
        Proceed(c);
      }
    }

    /** The reservation is acquired and `add` continues after its `await`. */
    method Proceed(c: CallId)
      requires c in calls
      modifies this`calls
      ensures calls == old(calls)[c := R.WithSlot(old(State()), old(calls)[c])]
    {
      var phase := if calls[c].resuming || regularMode then R.Writing else R.Claimed;
      calls := calls[c := calls[c].(slot := R.Held, phase := phase)];
    }

    /** `ConcurrencyCapacityReservation.release`: a second release does nothing. */
    method ReleaseReservation(c: CallId)
      requires c in calls
      modifies this`calls, this`drift, queue
      ensures State() == R.Release(old(State()), c)
    {
      if calls[c].slot != R.Held {
        return;
      }
      if concurrencyEnabled && calls[c].mode.Limited? {
        var waiting := queue.queue;
        queue.Dequeue();
        calls := calls[c := calls[c].(slot := R.Returned)];
        if |waiting| > 0 && waiting[0].call in calls {
          Proceed(waiting[0].call);
        }
      } else {
        if calls[c].mode.Limited? {
          drift := drift - 1;
        }
        calls := calls[c := calls[c].(slot := R.Returned)];
      }
    }

    /** `ensureEvalQueueResolved`, on the first evaluation that asks for capacity. */
    method EnsureEvalQueueResolved(limited: bool)
      modifies this`concurrencyEnabled, this`evalQueueUnresolved
      ensures State() == R.ResolveEvaluation(old(State()), limited)
    {
      if !evalQueueUnresolved {
        return;
      }
      evalQueueUnresolved := false;
      if limited {
        concurrencyEnabled := true;
      }
    }

    // ---- add ----

    method BeginAdd(c: CallId, mode: R.Mode, maybeExecutionId: Option<ExecutionId>)
      requires c !in calls
      modifies this`calls
      ensures State() == R.Begin(old(State()), c, mode, maybeExecutionId)
    {
      var shouldReserveCapacity := mode != R.Evaluation;
      var phase := R.Creating;
      if maybeExecutionId.Some? {
        phase := if shouldReserveCapacity then R.Reserving else R.Writing;
      }
      calls := calls[c := R.Call(mode, maybeExecutionId.Some?, maybeExecutionId, phase, R.Never)];
    }

    /** `executionPersistence.create` returned a new id. */
    method AfterCreate(c: CallId, executionId: ExecutionId)
      requires R.InPhase(State(), c, R.Creating)
      modifies this`calls
      ensures State() == R.Created(old(State()), c, executionId)
      ensures !calls[c].phase.Reserving? ==> (calls[c].phase.Writing? <==> calls[c].resuming || regularMode)
      ensures calls[c].phase.Reserving? <==> calls[c].mode != R.Evaluation
    {
      var call := calls[c].(target := Some(executionId));
      if call.mode != R.Evaluation {
        calls := calls[c := call.(phase := R.Reserving)];
      } else {
        calls := calls[c := call.(phase := if call.resuming || regularMode then R.Writing else R.Claimed)];
      }
    }

    /** The status write returned; for a resumed execution `updateSucceeded` says whether a row matched. */
    method AfterWrite(c: CallId, updateSucceeded: bool)
      requires R.InPhase(State(), c, R.Writing)
      modifies this`calls
      ensures State() == R.Written(old(State()), c, updateSucceeded)
    {
      calls := calls[c := calls[c].(phase := if updateSucceeded then R.Claimed else R.Refused)];
    }

    method Throw(c: CallId)
      requires R.InPhase(State(), c, R.Creating) || R.InPhase(State(), c, R.Refused)
      modifies this`calls, this`drift, queue
      ensures State() == R.Throw(old(State()), c)
    {
      ReleaseReservation(c);
      calls := calls[c := calls[c].(phase := R.Failed)];
    }

    method Register(c: CallId, now: int)
      requires R.InPhase(State(), c, R.Claimed) && calls[c].target.Some?
      modifies this`calls, this`activeExecutions
      ensures State() == R.Register(old(State()), c, now)
      ensures calls[c].phase.Registered?
      ensures old(calls[c].target.value !in activeExecutions) ==>
        calls[c].phase.entry.startedAt == now && calls[c].phase.entry.responder == None
    {
      var executionId := calls[c].target.value;
      var startedAt, responder := now, None;
      if executionId in activeExecutions && R.IsRegistered(State(), activeExecutions[executionId]) {
        var resuming := calls[activeExecutions[executionId]].phase.entry;
        startedAt, responder := resuming.startedAt, resuming.responder;
      }
      var execution := R.Entry(R.Running, startedAt, responder, R.Pending, false, true, false);
      calls := calls[c := calls[c].(phase := R.Registered(execution))];
      activeExecutions := activeExecutions[executionId := c];
    }

    /** The `finally` callback of the promise that registration `c` created. */
    method RunSettleCallback(c: CallId)
      requires R.CallbackDue(State(), c)
      modifies this, queue
      ensures State() == R.RunCallback(old(State()), c)
    {
      var executionId, execution := calls[c].target.value, calls[c].phase.entry;
      ReleaseReservation(c);
      calls := calls[c := calls[c].(phase := R.Registered(execution.(settled := true)))];
      if execution.status != R.Waiting {
        activeExecutions := activeExecutions - {executionId};
        responseModes := responseModes - {executionId};
      }
    }

    // ---- registered executions ----

    method SetStatus(executionId: ExecutionId, status: R.Status) returns (found: bool)
      modifies this`calls
      ensures found == R.Has(old(State()), executionId)
      ensures State() == R.SetStatus(old(State()), executionId, status)
    {
      found := R.Has(State(), executionId);
      if found {
        var c := activeExecutions[executionId];
        calls := calls[c := calls[c].(phase := R.Registered(calls[c].phase.entry.(status := status)))];
      }
    }

    method AttachResponsePromise(executionId: ExecutionId, responder: nat) returns (found: bool)
      modifies this`calls
      ensures found == R.Has(old(State()), executionId)
      ensures State() == R.AttachResponder(old(State()), executionId, responder)
    {
      found := R.Has(State(), executionId);
      if found {
        var c := activeExecutions[executionId];
        calls := calls[c := calls[c].(phase := R.Registered(calls[c].phase.entry.(responder := Some(responder))))];
      }
    }

    method FinalizeExecution(executionId: ExecutionId, fullRunData: R.Result)
      modifies this`calls
      ensures State() == R.Finalize(old(State()), executionId, fullRunData)
    {
      if R.Has(State(), executionId) {
        var c := activeExecutions[executionId];
        SettlePromise(c, R.Resolved(fullRunData));
      }
    }

    /** Only the first settlement of a promise counts. */
    method SettlePromise(c: CallId, outcome: R.Promise)
      requires R.IsRegistered(State(), c) && !outcome.Pending?
      modifies this`calls
      ensures calls.Keys == old(calls.Keys) && R.IsRegistered(State(), c)
      ensures calls == old(calls)[c := old(calls)[c].(phase := R.Registered(
                old(calls)[c].phase.entry.(promise := R.Settle(old(calls)[c].phase.entry.promise, outcome))))]
    {
      var execution := calls[c].phase.entry;
      if execution.promise == R.Pending {
        execution := execution.(promise := outcome);
      }
      calls := calls[c := calls[c].(phase := R.Registered(execution))];
    }

    method StopExecution(executionId: ExecutionId)
      modifies this
      ensures State() == R.Stop(old(State()), executionId)
    {
      if !R.Has(State(), executionId) {
        return;
      }
      var c := activeExecutions[executionId];
      if calls[c].phase.entry.status == R.Waiting {
        activeExecutions := activeExecutions - {executionId};
        responseModes := responseModes - {executionId};
      } else {
        SettlePromise(c, R.Rejected);
      }
    }

    method Remove(executionId: ExecutionId)
      modifies this`calls, queue
      ensures State() == R.RemoveQueued(old(State()), executionId)
    {
      if concurrencyEnabled {
        var waiting := queue.queue;
        var k := IndexOf(waiting, executionId);
        if k < |waiting| && waiting[k].call in calls {
          queue.Remove(executionId);
          calls := calls[waiting[k].call := calls[waiting[k].call].(phase := R.Abandoned)];
          var rest := waiting[..k] + waiting[k + 1..];
          if |rest| > 0 && rest[0].call in calls {
            Proceed(rest[0].call);
          }
        }
      }
    }

    /**
     The first pass of `shutdown` over the registered ids, in any order. Without
     cancellation exactly the waiting and new executions leave the registry.
     */
    method ShutdownFirstPass(executionIds: seq<ExecutionId>, cancelAll: bool)
      requires (set id | id in executionIds) == activeExecutions.Keys
      modifies this
      ensures State() == R.ShutdownEach(R.Disable(old(State())), executionIds, cancelAll)
      ensures !(regularMode && cancelAll) ==>
        activeExecutions == old(activeExecutions) - set id | id in old(activeExecutions)
          && R.Has(old(State()), id)
          && (R.Current(old(State()), id).status.Waiting? || R.Current(old(State()), id).status.New?)
    {
      if regularMode {
        concurrencyEnabled := false;
      }
      ghost var start := State();
      for i := 0 to |executionIds|
        invariant R.ShutdownEach(State(), executionIds[i..], cancelAll) ==
          R.ShutdownEach(start, executionIds, cancelAll)
      {
        var executionId := executionIds[i];
        if regularMode && cancelAll {
          StopExecution(executionId);
        } else if R.Has(State(), executionId) {
          var status := calls[activeExecutions[executionId]].phase.entry.status;
          if status == R.Waiting || status == R.New {
            activeExecutions := activeExecutions - {executionId};
          }
        }
        assert executionIds[i..][1..] == executionIds[i + 1..];
      }
      if !(regularMode && cancelAll) {
        R.FirstPassDropsIdle(start, executionIds, cancelAll);
      }
    }
  }
}
