/** The store of executions that a finished child writes to. */
module ExecutionPersistenceService {
  import opened Basics
  import P = ParentPatch
  import C = ChildOutput

  class ExecutionPersistence {
    var executions: P.Store

    constructor ()
      ensures executions == map[]
    {
      executions := map[];
    }

    /** Flags the waiting task and names the resolved user. */
    method StampUsage(was: P.Execution, usage: P.Usage) returns (parent: P.Execution)
      requires was.stack != []
      ensures parent ==
        P.Execution(was.waiting, was.stack, P.PatchRunData(was, usage), P.PatchRuntime(was.runtime, usage))
    {
      parent := was;
      if P.WaitingTask(was).None? || usage == P.NO_USAGE {
        P.SameTaskSameRunData(was, usage);
      }
      var node := was.stack[0].nodeName;
      if usage != P.NO_USAGE && node in was.runData && |was.runData[node]| > 0 {
        var tasks := was.runData[node];
        var waitingTask := tasks[|tasks| - 1];
        if waitingTask.Some? {
          var task := waitingTask.value;
          if usage.used {
            task := task.(used := true);
          }
          if usage.attempted {
            task := task.(attempted := true);
          }
          parent := parent.(runData := was.runData[node := tasks[|tasks| - 1 := Some(task)]]);
        }
      }
      if usage.used && usage.userId.Some? && was.runtime.Some? {
        parent := parent.(runtime := Some(usage.userId));
      }
    }

    /** Changes the head of the stack and the waiting task of a copy of the parent, then writes the copy back. */
    method UpdateParentExecutionWithChildResults(parentId: string, run: P.Run, child: Option<P.Related>)
      returns (ok: bool)
      modifies this
      ensures ok <==> !C.Breaks(run)
      ensures executions == P.Delivered(old(executions), P.Delivery(parentId, P.Report(run, child)))
    {
      C.BreaksIff(run);
      var lastExecutedNodeData := P.LastExecutedNodeData(run);
      if lastExecutedNodeData.TypeError? {
        return false;
      }
      ok := true;
      if run.error.None? && (lastExecutedNodeData.Nothing? || lastExecutedNodeData.task.data.None?) {
        return;
      }
      if parentId !in executions || !executions[parentId].waiting {
        return;
      }
      var parent := executions[parentId];
      var stack := parent.stack;
      if |stack| == 0 {
        return;
      }

      var usage := P.Summary(run);
      if usage != P.NO_USAGE {
        var metadata := stack[0].metadata;
        stack := stack[0 := stack[0].(metadata := metadata.(usage := P.Union(metadata.usage, usage)))];
      }
      ghost var was := parent;
      parent := StampUsage(parent, usage);
      if run.error.Some? {
        stack := stack[0 := stack[0].(metadata := stack[0].metadata.(resumeError := run.error))];
        if child.Some? {
          stack := stack[0 := stack[0].(metadata := stack[0].metadata.(subExecution := child))];
        }
      } else {
        stack := stack[0 := stack[0].(data := lastExecutedNodeData.task.data.value)];
      }
      parent := parent.(stack := stack);
      assert stack == [P.PatchHead(P.Head(was), P.Report(run, child))] + was.stack[1..];
      executions := executions[parentId := parent];
    }
  }
}
