/** The part of `run` that may fail an execution before its engine starts. */
module WorkflowRunnerService {
  import opened Basics
  import R = Registry
  import opened ActiveExecutionsService

  class WorkflowRunner {
    const activeExecutions: ActiveExecutions

    constructor (activeExecutions: ActiveExecutions)
      ensures this.activeExecutions == activeExecutions
    {
      this.activeExecutions := activeExecutions;
    }

    /** Runs its hooks, which do not touch the registry, and finalizes the execution without run data. */
    method FailExecution(executionId: ExecutionId)
      modifies activeExecutions`calls
      ensures activeExecutions.State() == R.Finalize(old(activeExecutions.State()), executionId, R.NoData)
    {
      activeExecutions.FinalizeExecution(executionId, R.NoData);
    }

    /**
     From the return of `add` to the start of the engine. A failure settles the
     promise and attaches nothing; otherwise the caller's response promise, if
     any, is attached to a registered execution.
     */
    method Preflight(executionId: ExecutionId, contextError: bool, permitted: bool, responder: Option<nat>)
      returns (proceeds: bool)
      modifies activeExecutions`calls
      ensures proceeds <==>
        !contextError && permitted && (responder.Some? ==> R.Has(old(activeExecutions.State()), executionId))
      ensures contextError || !permitted ==>
        activeExecutions.State() == R.Finalize(old(activeExecutions.State()), executionId, R.NoData)
      ensures !contextError && permitted && responder.None? ==>
        activeExecutions.State() == old(activeExecutions.State())
      ensures !contextError && permitted && responder.Some? ==>
        activeExecutions.State() == R.AttachResponder(old(activeExecutions.State()), executionId, responder.value)
      ensures proceeds && responder.Some? ==>
        && R.Has(activeExecutions.State(), executionId)
        && R.Current(activeExecutions.State(), executionId).responder == responder
    {
      if contextError {
        FailExecution(executionId);
        return false;
      }
      if !permitted {
        FailExecution(executionId);
        return false;
      }
      proceeds := true;
      if responder.Some? {
        proceeds := activeExecutions.AttachResponsePromise(executionId, responder.value);
      }
    }
  }
}
