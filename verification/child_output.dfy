/**
 What a child's report does to its parent, read off the child's run data alone:
 which task counts as its output, when pinned data replaces it, and which of
 its tasks show in the flags.
 */
module ChildOutput {
  import opened Basics
  import opened ParentPatch

  // ---- the child's last task ----

  /** The last task of the last executed node is `last`; `None` stands for a null placeholder. */
  predicate EndsWith(run: Run, node: string, earlier: seq<Option<Task>>, last: Option<Task>) {
    run.lastNodeExecuted == Some(node) && node in run.runData && run.runData[node] == earlier + [last]
  }

  /** The node has pinned data, which counts in manual mode only. */
  predicate Pinned(run: Run, node: string) {
    run.manual && node in run.pinData
  }

  /** The run has no task that could count: no last node, none with that name, no task, or a placeholder. */
  predicate NoLastTask(run: Run) {
    || run.lastNodeExecuted.None? || run.lastNodeExecuted.value !in run.runData
    || var tasks := run.runData[run.lastNodeExecuted.value]; tasks == [] || tasks[|tasks| - 1].None?
  }

  /** Pinned data without a last task to take the source from: reading it throws. */
  predicate Breaks(run: Run) {
    && run.lastNodeExecuted.Some? && run.lastNodeExecuted.value in run.runData
    && NoLastTask(run) && Pinned(run, run.lastNodeExecuted.value)
  }

  lemma EndsOrNot(run: Run) returns (node: string, earlier: seq<Option<Task>>, t: Task)
    ensures NoLastTask(run) || EndsWith(run, node, earlier, Some(t))
  {
    node, earlier, t := "", [], Task(None, "", false, false);
    if !NoLastTask(run) {
      node := run.lastNodeExecuted.value;
      var tasks := run.runData[node];
      earlier, t := tasks[..|tasks| - 1], tasks[|tasks| - 1].value;
      assert tasks == earlier + [Some(t)];
    }
  }

  /** A child that succeeds without pinned data hands over the data of its very last task, if that has any. */
  lemma LastTaskIsTaken(e: Execution, r: Report, node: string, earlier: seq<Option<Task>>, t: Task)
    requires e.waiting && e.stack != [] && r.run.error.None?
    requires EndsWith(r.run, node, earlier, Some(t)) && !Pinned(r.run, node)
    ensures t.data.Some? ==> Patch(e, r).stack != [] && Patch(e, r).stack[0].data == t.data.value
    ensures t.data.None? ==> Patch(e, r) == e
  {
    var tasks := r.run.runData[node];
    assert tasks[|tasks| - 1] == Some(t);
  }

  /** A child that succeeds without a last task changes nothing; with pinned data its report fails as well. */
  lemma WithoutLastTaskNothing(e: Execution, r: Report)
    requires r.run.error.None? && NoLastTask(r.run)
    ensures Patch(e, r) == e
  {
  }

  function PinnedItems(pin: Pin): seq<string> {
    match pin
    case Pins(items) => items
    case OnePin(item) => [item]
  }

  /** In manual mode the pinned data of the last node, item by item and paired by position, replaces its output. */
  lemma PinnedIsTaken(e: Execution, r: Report, node: string, earlier: seq<Option<Task>>, t: Task, i: nat)
    requires e.waiting && e.stack != [] && r.run.error.None?
    requires EndsWith(r.run, node, earlier, Some(t)) && Pinned(r.run, node)
    ensures Patch(e, r).stack != []
    ensures var data, pins := Patch(e, r).stack[0].data, PinnedItems(r.run.pinData[node]);
      && data.Keys == {"main"} && |data["main"]| == 1 && |data["main"][0]| == |pins|
      && (i < |pins| ==> data["main"][0][i] == Item(pins[i], Some(i)))
  {
    var tasks := r.run.runData[node];
    assert tasks[|tasks| - 1] == Some(t);
  }

  /** A child that fails leaves the data alone and records its error, with its link if it has one. */
  lemma FailureIsRecorded(e: Execution, r: Report)
    requires e.waiting && e.stack != [] && r.run.error.Some? && !Breaks(r.run)
    ensures Patch(e, r).stack != []
    ensures var before, after := e.stack[0], Patch(e, r).stack[0];
      && after.data == before.data && after.metadata.resumeError == r.run.error
      && after.metadata.subExecution == if r.child.Some? then r.child else before.metadata.subExecution
  {
  }

  /** A child that succeeds records no error and no link. */
  lemma SuccessRecordsNoError(e: Execution, r: Report)
    requires e.stack != [] && r.run.error.None?
    ensures Patch(e, r).stack != []
    ensures var before, after := e.stack[0].metadata, Patch(e, r).stack[0].metadata;
      after.resumeError == before.resumeError && after.subExecution == before.subExecution
  {
  }

  // ---- which reports reach the parent ----

  /** The child's run has output that counts: pinned data, or data of its last task. */
  ghost predicate HasOutput(run: Run) {
    exists node, earlier, t :: EndsWith(run, node, earlier, Some(t)) && (Pinned(run, node) || t.data.Some?)
  }

  lemma EffectiveIff(r: Report)
    ensures Effective(r) <==> !Breaks(r.run) && (r.run.error.Some? || HasOutput(r.run))
  {
    var node, earlier, t := EndsOrNot(r.run);
    if HasOutput(r.run) {
      var n, before, last :| EndsWith(r.run, n, before, Some(last)) && (Pinned(r.run, n) || last.data.Some?);
      assert r.run.runData[n][|r.run.runData[n]| - 1] == Some(last);
    }
  }

  lemma BreaksIff(run: Run)
    ensures LastExecutedNodeData(run).TypeError? <==> Breaks(run)
  {
  }

  // ---- what shows in the flags ----

  /** Some task of the run, of any node, used private credentials. */
  ghost predicate SomeTaskUsed(run: Run) {
    exists node, i, t :: node in run.runData && 0 <= i < |run.runData[node]| && run.runData[node][i] == Some(t) && t.used
  }

  ghost predicate SomeTaskAttempted(run: Run) {
    exists node, i, t ::
      node in run.runData && 0 <= i < |run.runData[node]| && run.runData[node][i] == Some(t) && t.attempted
  }

  lemma SummaryMeans(run: Run)
    ensures Summary(run).used <==> SomeTaskUsed(run)
    ensures Summary(run).attempted <==> SomeTaskAttempted(run)
    ensures Summary(run).userId == if SomeTaskUsed(run) then run.executedBy else None
  {
    if RunUsed(run) {
      var node, i :| node in run.runData && 0 <= i < |run.runData[node]| &&
        run.runData[node][i].Some? && run.runData[node][i].value.used;
      assert run.runData[node][i] == Some(run.runData[node][i].value);
    }
    if RunAttempted(run) {
      var node, i :| node in run.runData && 0 <= i < |run.runData[node]| &&
        run.runData[node][i].Some? && run.runData[node][i].value.attempted;
      assert run.runData[node][i] == Some(run.runData[node][i].value);
    }
  }

  /** The last task of the node at the head of the parent's stack is `task`. */
  predicate WaitsAt(e: Execution, earlier: seq<Option<Task>>, task: Task) {
    && e.stack != [] && e.stack[0].nodeName in e.runData
    && e.runData[e.stack[0].nodeName] == earlier + [Some(task)]
  }

  /**
   A report that reaches the parent: the flags at the head and on the waiting
   task, and who is said to have executed it, before and after.
   */
  lemma FlagsAreStamped(e: Execution, r: Report, earlier: seq<Option<Task>>, task: Task)
    requires e.waiting && e.stack != [] && !Breaks(r.run) && (r.run.error.Some? || HasOutput(r.run))
    ensures Patch(e, r).stack != []
    ensures var before, after := e.stack[0].metadata.usage, Patch(e, r).stack[0].metadata.usage;
      && (after.used <==> before.used || SomeTaskUsed(r.run))
      && (after.attempted <==> before.attempted || SomeTaskAttempted(r.run))
      && after.userId == if SomeTaskUsed(r.run) && r.run.executedBy.Some? then r.run.executedBy else before.userId
    ensures Patch(e, r).runtime ==
      if e.runtime.Some? && SomeTaskUsed(r.run) && r.run.executedBy.Some? then Some(r.run.executedBy) else e.runtime
    ensures WaitsAt(e, earlier, task) ==>
      WaitsAt(Patch(e, r), earlier,
        task.(used := task.used || SomeTaskUsed(r.run), attempted := task.attempted || SomeTaskAttempted(r.run)))
  {
    EffectiveIff(r);
    SummaryMeans(r.run);
  }

  /** A parent that does not wait, or has nothing on its stack, is not changed. */
  lemma OnlyWaitingParents(e: Execution, r: Report)
    requires !e.waiting || e.stack == []
    ensures Patch(e, r) == e
  {
  }
}
