/** The wait tracker of one process. */
module WaitTrackerService {
  import opened Basics
  import P = ParentPatch
  import opened WaitTracking

  class WaitTracker {
    /** The timer of each tracked execution. */
    var waitingExecutions: map<ExecutionId, TimerId>
    /** The timers of the runtime that may still fire. */
    var timers: map<TimerId, Timer>
    var nextTimer: TimerId

    function State(): Tracker
      reads this
    {
      Tracker(waitingExecutions, timers, nextTimer)
    }

    constructor ()
      ensures State() == Tracker(map[], map[], 0)
    {
      waitingExecutions, timers, nextTimer := map[], map[], 0;
    }

    /** Sets a timer for every listed execution that has none. */
    method GetWaitingExecutions(executions: seq<Waiting>, now: int)
      modifies this
      ensures State() == Track(old(State()), executions, now)
    {
      for i := 0 to |executions|
        invariant State() == Track(old(State()), executions[..i], now)
      {
        var execution := executions[i];
        if execution.id !in waitingExecutions {
          timers := timers[nextTimer := Timer(execution.id, execution.waitTill - now)];
          waitingExecutions := waitingExecutions[execution.id := nextTimer];
          nextTimer := nextTimer + 1;
        }
        assert executions[..i + 1][..i] == executions[..i];
      }
      assert executions[..|executions|] == executions;
    }

    method StopExecution(executionId: ExecutionId)
      modifies this
      ensures State() == Cancel(old(State()), executionId)
    {
      if executionId !in waitingExecutions {
        return;
      }
      timers := timers - {waitingExecutions[executionId]};
      waitingExecutions := waitingExecutions - {executionId};
    }

    /** `executionIds`: the tracked executions, in any order. */
    method StopTracking(executionIds: seq<ExecutionId>)
      requires (set id | id in executionIds) == waitingExecutions.Keys
      modifies this
      ensures State() == StepDown(old(State()))
      ensures forall id :: id in waitingExecutions ==> !WillFire(State(), id)
    {
      for i := 0 to |executionIds|
        invariant waitingExecutions == old(waitingExecutions) && nextTimer == old(nextTimer)
        invariant timers ==
          old(timers) - set id | id in executionIds[..i] && id in waitingExecutions :: waitingExecutions[id]
      {
        assert executionIds[..i + 1] == executionIds[..i] + [executionIds[i]];
        assert executionIds[i] in set id | id in executionIds;
        timers := timers - {waitingExecutions[executionIds[i]]};
      }
      assert executionIds[..|executionIds|] == executionIds;
      assert forall id :: id in executionIds <==> id in set id | id in executionIds;
    }

    /** `run` is what looking up the project and running the stored execution again come to. */
    method StartExecution(executionId: ExecutionId, record: Option<Record>, run: Outcome) returns (started: Started)
      modifies this
      ensures State() == Forget(old(State()), executionId)
      ensures waitingExecutions == old(waitingExecutions) - {executionId} && timers == old(timers)
      ensures started == Start(record, run)
      ensures forall p :: started == Ran(Some(p)) <==>
        && record.Some? && !record.value.finished && record.value.saved && run.Done?
        && record.value.parent == Some(p) && p.shouldResume != Some(false)
      ensures started == Absorbed <==>
        record.Some? && !record.value.finished && record.value.saved && run == Threw(AlreadyResuming)
    {
      waitingExecutions := waitingExecutions - {executionId};
      if record.None? {
        return StartRejected(UnexpectedError);
      }
      if record.value.finished {
        return StartRejected(UnexpectedError);
      }
      if !record.value.saved {
        return StartRejected(UnexpectedError);
      }
      if run.Threw? {
        if run.error == AlreadyResuming {
          return Absorbed;
        }
        return StartRejected(run.error);
      }
      started := Ran(None);
      if P.ShouldRestart(record.value.parent) {
        started := Ran(record.value.parent);
      }
    }
  }

  method WithRetry(step: Step, operation: Operation, maxAttempts: nat) returns (outcome: Outcome, trace: seq<Action>)
    ensures var a := Attempts(operation, maxAttempts, 1); outcome == operation(a) && trace == RetryTrace(step, a)
    ensures exists a :: EndsAt(operation, maxAttempts, a) && outcome == operation(a)
  {
    var attempt := 1;
    trace := [Tried(step, 1)];
    while true
      invariant 1 <= attempt && trace == RetryTrace(step, attempt)
      invariant forall j :: 1 <= j < attempt ==> !Final(operation, maxAttempts, j)
      invariant Attempts(operation, maxAttempts, attempt) == Attempts(operation, maxAttempts, 1)
      decreases maxAttempts - attempt
    {
      outcome := operation(attempt);
      if outcome.Done? {
        break;
      }
      if attempt >= maxAttempts || !Retryable(outcome.error) {
        break;
      }
      trace := trace + [Slept(100 * Pow2(attempt - 1)), Tried(step, attempt + 1)];
      attempt := attempt + 1;
    }
    AttemptsEnd(operation, maxAttempts, 1);
  }

  /** What follows the start of an execution: the parent that should resume is resumed with what the child comes to. */
  method StartThenResume(tracker: WaitTracker, executionId: ExecutionId, record: Option<Record>, run: Outcome,
      child: ChildResult, patches: Operation, starts: Operation)
    returns (started: Started, trace: seq<Action>)
    modifies tracker
    ensures started == Start(record, run) && trace == AfterStart(started, child, patches, starts)
    ensures ParentStarted(trace, starts) <==>
      && record.Some? && !record.value.finished && record.value.saved && run.Done?
      && record.value.parent.Some? && record.value.parent.value.shouldResume != Some(false)
      && child.Finished? && Recovers(patches, 3) && Recovers(starts, 3)
  {
    started := tracker.StartExecution(executionId, record, run);
    trace := [];
    if started.Ran? && started.parent.Some? {
      trace := ResumeParentExecution(child, patches, starts);
    }
    ParentFollowsIff(record, run, child, patches, starts);
  }

  /** Never rejects: a failure of either step is logged. */
  method ResumeParentExecution(child: ChildResult, patches: Operation, starts: Operation) returns (trace: seq<Action>)
    ensures trace == ResumeTrace(child, patches, starts)
  {
    if child.Rejected? {
      return [Logged];
    }
    if child.Absent? {
      return [];
    }
    if child.StillWaiting? {
      return [];
    }
    var outcome;
    outcome, trace := WithRetry(PatchParent, patches, MAX_PARENT_RESUME_ATTEMPTS);
    if outcome.Threw? {
      return trace + [Logged];
    }
    var starting;
    outcome, starting := WithRetry(StartParent, starts, MAX_PARENT_RESUME_ATTEMPTS);
    trace := trace + starting;
    if outcome.Threw? {
      trace := trace + [Logged];
    }
  }
}
