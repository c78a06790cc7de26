/** When an entry leaves the registry, in every run, and what is left of it after a shutdown. */
module EntryTheorems {
  import opened Basics
  import opened Registry
  import opened ResumeProtocol
  import opened ResumeInvariant
  import opened ResumeRuns
  import opened ResumeTheorems

  predicate IsWaiting(P: Process, id: ExecutionId) {
    Has(P, id) && Current(P, id).status.Waiting?
  }

  /**
   A restart, the callback of a registration that is not waiting, stopping one
   that is, or a shutdown that stops it or finds it waiting or new.
   */
  predicate DropsEntry(s: System, step: Step, p: nat, id: ExecutionId) {
    && step.proc == p && p < |s.procs|
    && var P := s.procs[p];
       match step.event
       case DoRestart(_, _, _, _) => true
       case DoCallback(c) =>
         IsRegistered(P, c) && P.calls[c].target == Some(id) && !P.calls[c].phase.entry.status.Waiting?
       case DoStop(i) => i == id && IsWaiting(P, id)
       case DoShutdown(ids, cancelAll) =>
         && id in ids
         && if P.regular && cancelAll then IsWaiting(P, id)
            else Has(P, id) && (Current(P, id).status.Waiting? || Current(P, id).status.New?)
       case _ => false
  }

  predicate Registers(s: System, step: Step, p: nat, id: ExecutionId) {
    && step.proc == p && p < |s.procs| && step.event.DoRegister?
    && Target(s.procs[p], step.event.call) && s.procs[p].calls[step.event.call].target == Some(id)
  }

  lemma SettledKeepsWaiting(P: Process, i: ExecutionId, id: ExecutionId)
    requires Has(P, i)
    ensures IsWaiting(WithCurrent(P, i, Settled(P, i, Rejected)), id) == IsWaiting(P, id)
  {
  }

  lemma StopEntry(P: Process, i: ExecutionId, id: ExecutionId)
    requires ActiveValid(P)
    ensures id in Stop(P, i).active <==> id in P.active && !(i == id && IsWaiting(P, id))
    ensures id in Stop(P, i).active ==> Stop(P, i).active[id] == P.active[id]
    ensures i != id ==> IsWaiting(Stop(P, i), id) == IsWaiting(P, id)
    ensures i == id ==> !IsWaiting(Stop(P, i), id)
  {
    if Has(P, i) && !IsWaiting(P, i) {
      SettledKeepsWaiting(P, i, id);
    }
  }

  lemma {:induction false} StopEachEntry(P: Process, ids: seq<ExecutionId>, id: ExecutionId)
    requires Valid(P) && P.regular
    ensures id in ShutdownEach(P, ids, true).active <==> id in P.active && !(id in ids && IsWaiting(P, id))
    decreases |ids|
  {
    if ids != [] {
      StopValid(P, ids[0]);
      StopEntry(P, ids[0], id);
      StopEachEntry(Stop(P, ids[0]), ids[1..], id);
      assert id in ids <==> id == ids[0] || id in ids[1..];
    }
  }

  lemma ShutdownEntry(P: Process, ids: seq<ExecutionId>, cancelAll: bool, id: ExecutionId)
    requires Valid(P)
    ensures id in ShutdownEach(Disable(P), ids, cancelAll).active <==>
      id in P.active && !DropsEntry(Alone(P), Step(0, DoShutdown(ids, cancelAll)), 0, id)
  {
    DisableValid(P);
    if P.regular && cancelAll {
      StopEachEntry(Disable(P), ids, id);
    } else {
      FirstPassDropsIdle(Disable(P), ids, cancelAll);
    }
  }

  lemma LocalEntry(P: Process, e: Event, id: ExecutionId)
    requires Valid(P) && IsLocal(e) && Enabled(Alone(P), 0, e)
    ensures id in Local(P, e).active <==>
      Registers(Alone(P), Step(0, e), 0, id) || (id in P.active && !DropsEntry(Alone(P), Step(0, e), 0, id))
  {
    match e
    case DoThrow(c) => ThrowFrame(P, c);
    case DoCallback(c) => CallbackFrame(P, c);
    case DoStop(i) => StopEntry(P, i, id);
    case DoRemoveQueued(i) => RemoveQueuedFrame(P, i);
    case DoShutdown(ids, cancelAll) => ShutdownEntry(P, ids, cancelAll, id);
    case _ =>
  }

  /** Exactly what a step does to the presence of an entry. */
  lemma StepEntry(s: System, step: Step, s': System, p: nat, id: ExecutionId)
    requires step.proc < |s.procs| && Enabled(s, step.proc, step.event) && s' == Next(s, step.proc, step.event)
    requires p < |s.procs| && Valid(s.procs[p])
    ensures p < |s'.procs|
    ensures id in s'.procs[p].active <==>
      Registers(s, step, p, id) || (id in s.procs[p].active && !DropsEntry(s, step, p, id))
  {
    if p != step.proc {
      OthersStay(s, step.proc, step.event, p);
    } else if IsLocal(step.event) {
      LocalNext(s, p, step.event);
      LocalEntry(s.procs[p], step.event, id);
    } else {
      SharedNext(s, p, step.event);
    }
  }

  // ---- the registry over a run ----

  /** None of the steps from `k` to `n` drops the entry of `id`. */
  ghost predicate NoneDrops(ss: seq<System>, steps: seq<Step>, k: nat, n: nat, p: nat, id: ExecutionId)
    requires n <= |steps| < |ss|
  {
    forall l :: k <= l < n ==> !DropsEntry(ss[l], steps[l], p, id)
  }

  /** Some step from `i` on has registered `id`, and no later one has dropped the entry. */
  ghost predicate RegisteredSince(ss: seq<System>, steps: seq<Step>, i: nat, n: nat, p: nat, id: ExecutionId)
    requires n <= |steps| < |ss|
  {
    exists k :: i <= k < n && Registers(ss[k], steps[k], p, id) && NoneDrops(ss, steps, k + 1, n, p, id)
  }

  lemma RegisteredSinceNext(ss: seq<System>, steps: seq<Step>, i: nat, n: nat, p: nat, id: ExecutionId)
    requires i < n <= |steps| < |ss|
    ensures RegisteredSince(ss, steps, i, n, p, id) <==>
      || Registers(ss[n - 1], steps[n - 1], p, id)
      || (!DropsEntry(ss[n - 1], steps[n - 1], p, id) && RegisteredSince(ss, steps, i, n - 1, p, id))
  {
    var last := n - 1;
    if Registers(ss[last], steps[last], p, id) {
      assert NoneDrops(ss, steps, last + 1, n, p, id);
    }
    if k :| i <= k < last && Registers(ss[k], steps[k], p, id) && NoneDrops(ss, steps, k + 1, last, p, id) {
      assert NoneDrops(ss, steps, k + 1, n, p, id) <==> !DropsEntry(ss[last], steps[last], p, id);
    }
    if k :| i <= k < n && Registers(ss[k], steps[k], p, id) && NoneDrops(ss, steps, k + 1, n, p, id) && k < last {
      assert NoneDrops(ss, steps, k + 1, last, p, id);
    }
  }

  /** `id` was registered at `i` and never dropped, or registered since and not dropped. */
  ghost predicate Accounted(ss: seq<System>, steps: seq<Step>, i: nat, n: nat, p: nat, id: ExecutionId)
    requires i <= n <= |steps| < |ss| && p < |ss[i].procs|
  {
    || (id in ss[i].procs[p].active && NoneDrops(ss, steps, i, n, p, id))
    || RegisteredSince(ss, steps, i, n, p, id)
  }

  lemma AccountedNext(ss: seq<System>, steps: seq<Step>, i: nat, n: nat, p: nat, id: ExecutionId)
    requires i < n <= |steps| < |ss| && p < |ss[i].procs|
    ensures Accounted(ss, steps, i, n, p, id) <==>
      || Registers(ss[n - 1], steps[n - 1], p, id)
      || (Accounted(ss, steps, i, n - 1, p, id) && !DropsEntry(ss[n - 1], steps[n - 1], p, id))
  {
    RegisteredSinceNext(ss, steps, i, n, p, id);
    assert NoneDrops(ss, steps, i, n, p, id) <==>
      NoneDrops(ss, steps, i, n - 1, p, id) && !DropsEntry(ss[n - 1], steps[n - 1], p, id);
  }

  lemma RunStepEntry(ss: seq<System>, steps: seq<Step>, k: nat, p: nat, id: ExecutionId)
    requires Run(ss, steps) && k < |steps| && p < |ss[k].procs|
    ensures p < |ss[k + 1].procs|
    ensures id in ss[k + 1].procs[p].active <==>
      Registers(ss[k], steps[k], p, id) || (id in ss[k].procs[p].active && !DropsEntry(ss[k], steps[k], p, id))
  {
    ReachableInv(ss, steps, k);
    assert Valid(ss[k].procs[p]);
    assert StepAt(ss, steps, k);
    StepEntry(ss[k], steps[k], ss[k + 1], p, id);
  }

  /**
   Exactly which executions a process has in its registry, over every run: those
   that it had and that no step dropped, and those that a step registered and no
   later one dropped.
   */
  lemma {:induction false} EntryIff(ss: seq<System>, steps: seq<Step>, i: nat, n: nat, p: nat, id: ExecutionId)
    requires Run(ss, steps) && i <= n <= |steps| && p < |ss[i].procs|
    ensures p < |ss[n].procs|
    ensures id in ss[n].procs[p].active <==> Accounted(ss, steps, i, n, p, id)
  {
    if i < n {
      EntryIff(ss, steps, i, n - 1, p, id);
      RunStepEntry(ss, steps, n - 1, p, id);
      AccountedNext(ss, steps, i, n, p, id);
    }
  }

  // ---- losing the entry while an engine works ----

  /** An engine works for `id`, in some process or as a job. */
  ghost predicate Driven(s: System, id: ExecutionId) {
    exists x: Driver :: Drives(s, x, id)
  }

  /** While an engine works for it, wherever, nobody registers the execution. */
  lemma NoneRegisters(s: System, step: Step, p: nat, id: ExecutionId)
    requires Inv(s) && Driven(s, id) && step.proc < |s.procs| && Enabled(s, step.proc, step.event)
    ensures !Registers(s, step, p, id)
  {
    var x: Driver :| Drives(s, x, id);
    DriverClaims(s, x, id);
    if Registers(s, step, p, id) {
      assert Claimant(s, p, step.event.call, id);
    }
  }

  /**
   Over any run: an execution for which an engine works all the time, in any
   process or as a job, has lost its entry exactly if some step dropped it.
   */
  lemma EntryLostIff(ss: seq<System>, steps: seq<Step>, i: nat, n: nat, p: nat, id: ExecutionId)
    requires Run(ss, steps) && i <= n <= |steps|
    requires p < |ss[i].procs| && id in ss[i].procs[p].active
    requires forall k :: i <= k < n ==> Driven(ss[k], id)
    ensures p < |ss[n].procs|
    ensures id !in ss[n].procs[p].active <==> exists k :: i <= k < n && DropsEntry(ss[k], steps[k], p, id)
  {
    EntryIff(ss, steps, i, n, p, id);
    forall k | i <= k < n
      ensures !Registers(ss[k], steps[k], p, id)
    {
      ReachableInv(ss, steps, k);
      assert StepAt(ss, steps, k);
      NoneRegisters(ss[k], steps[k], p, id);
    }
  }

  /** An engine that works for a registration in its process did so ever since it was registered. */
  lemma EngineDrives(
      ss: seq<System>, steps: seq<Step>, i: nat, k: nat, n: nat, p: nat, c: CallId, id: ExecutionId)
    requires Run(ss, steps) && i <= k <= n <= |steps| && Lives(steps, i, n, p)
    requires p < |ss[i].procs| && IsRegistered(ss[i].procs[p], c) && ss[i].procs[p].calls[c].target == Some(id)
    requires p < |ss[n].procs| && Engine(ss[n].procs[p], c)
    ensures Driven(ss[k], id)
  {
    CallDevelops(ss, steps, i, k, p, c);
    CallDevelops(ss, steps, k, n, p, c);
    assert Drives(ss[k], InProcess(p, c), id);
  }

  // ---- shutdown ----

  /** Shutdown of process `p` in regular mode that cancels all its executions. */
  predicate CancelsAll(s: System, step: Step, p: nat) {
    && step.proc == p && p < |s.procs| && s.procs[p].regular
    && step.event.DoShutdown? && step.event.cancelAll
    && s.procs[p].active.Keys == set id | id in step.event.ids
  }

  /** The step registers `id`, or its engine marks the registration as waiting. */
  predicate Revives(s: System, step: Step, p: nat, id: ExecutionId) {
    || Registers(s, step, p, id)
    || (step.proc == p && p < |s.procs| && step.event.DoSetWaiting? && Target(s.procs[p], step.event.call)
        && s.procs[p].calls[step.event.call].target == Some(id) && id in s.procs[p].active)
  }

  /** Some step after step `i` has revived `id`, and no later one has dropped the entry. */
  ghost predicate RevivedAfter(ss: seq<System>, steps: seq<Step>, i: nat, n: nat, p: nat, id: ExecutionId)
    requires n <= |steps| < |ss|
  {
    exists k :: i < k < n && Revives(ss[k], steps[k], p, id) && NoneDrops(ss, steps, k + 1, n, p, id)
  }

  /** The settle callback of the current registration of `id` is still to run. */
  ghost predicate AwaitsCallback(P: Process, id: ExecutionId) {
    id in P.active && P.active[id] in DueCalls(P)
  }

  lemma StepKeepsCancelled(s: System, step: Step, s': System, p: nat, id: ExecutionId)
    requires step.proc < |s.procs| && Enabled(s, step.proc, step.event) && s' == Next(s, step.proc, step.event)
    requires p < |s.procs| && Valid(s.procs[p]) && Cancelled(s.procs[p], {id})
    requires !Revives(s, step, p, id)
    ensures p < |s'.procs| && Cancelled(s'.procs[p], {id})
  {
    var P := s.procs[p];
    if id in s'.procs[p].active {
      StepKeepsActive(s, step.proc, step.event, p, id);
      assert Has(P, id) && ActiveValid(P);
      StepKeepsEntry(s, step.proc, step.event, p, P.active[id]);
    }
  }

  /** An entry that is cancelled, or that the step drops, is cancelled after the step unless that revives it. */
  lemma RunKeepsCancelled(ss: seq<System>, steps: seq<Step>, k: nat, p: nat, id: ExecutionId)
    requires Run(ss, steps) && k < |steps| && p < |ss[k].procs| && !Revives(ss[k], steps[k], p, id)
    requires Cancelled(ss[k].procs[p], {id}) || DropsEntry(ss[k], steps[k], p, id)
    ensures p < |ss[k + 1].procs| && Cancelled(ss[k + 1].procs[p], {id})
  {
    ReachableInv(ss, steps, k);
    RunStepEntry(ss, steps, k, p, id);
    assert StepAt(ss, steps, k);
    if !DropsEntry(ss[k], steps[k], p, id) {
      StepKeepsCancelled(ss[k], steps[k], ss[k + 1], p, id);
    }
  }

  lemma RevivedAfterNext(ss: seq<System>, steps: seq<Step>, i: nat, n: nat, p: nat, id: ExecutionId)
    requires i + 1 < n <= |steps| < |ss|
    ensures Revives(ss[n - 1], steps[n - 1], p, id) ==> RevivedAfter(ss, steps, i, n, p, id)
    ensures RevivedAfter(ss, steps, i, n - 1, p, id) && !DropsEntry(ss[n - 1], steps[n - 1], p, id) ==>
      RevivedAfter(ss, steps, i, n, p, id)
  {
    var last := n - 1;
    if Revives(ss[last], steps[last], p, id) {
      assert NoneDrops(ss, steps, last + 1, n, p, id);
    }
    if k :| i < k < last && Revives(ss[k], steps[k], p, id) && NoneDrops(ss, steps, k + 1, last, p, id) {
      assert NoneDrops(ss, steps, k + 1, n, p, id) <==> !DropsEntry(ss[last], steps[last], p, id);
    }
  }

  lemma {:induction false} CancelledUnlessRevived(
      ss: seq<System>, steps: seq<Step>, i: nat, n: nat, p: nat, id: ExecutionId)
    requires Run(ss, steps) && i < n <= |steps| && p < |ss[i + 1].procs| && Cancelled(ss[i + 1].procs[p], {id})
    ensures p < |ss[n].procs|
    ensures Cancelled(ss[n].procs[p], {id}) || RevivedAfter(ss, steps, i, n, p, id)
  {
    if i + 1 < n {
      var last := n - 1;
      CancelledUnlessRevived(ss, steps, i, last, p, id);
      SameProcesses(ss, steps, last);
      RevivedAfterNext(ss, steps, i, n, p, id);
      if !RevivedAfter(ss, steps, i, n, p, id) {
        RunKeepsCancelled(ss, steps, last, p, id);
      }
    }
  }

  lemma SameProcesses(ss: seq<System>, steps: seq<Step>, k: nat)
    requires Run(ss, steps) && k < |steps|
    ensures |ss[k + 1].procs| == |ss[k].procs|
  {
    assert StepAt(ss, steps, k);
  }

  lemma RevivedIsActive(ss: seq<System>, steps: seq<Step>, i: nat, n: nat, p: nat, id: ExecutionId)
    requires Run(ss, steps) && n <= |steps| && RevivedAfter(ss, steps, i, n, p, id)
    ensures p < |ss[n].procs| && id in ss[n].procs[p].active
  {
    var k :| i < k < n && Revives(ss[k], steps[k], p, id) && NoneDrops(ss, steps, k + 1, n, p, id);
    RunStepEntry(ss, steps, k, p, id);
    EntryIff(ss, steps, k + 1, n, p, id);
  }

  /**
   What is left in the registry, in every run and at any time after a shutdown
   that cancels all: the executions whose callback is still to run, and those
   registered or marked as waiting since, unless a later step dropped them.
   */
  lemma LeftAfterCancelAllIff(ss: seq<System>, steps: seq<Step>, i: nat, n: nat, p: nat, id: ExecutionId)
    requires Run(ss, steps) && i < n <= |steps| && CancelsAll(ss[i], steps[i], p)
    ensures p < |ss[n].procs|
    ensures id in ss[n].procs[p].active <==>
      AwaitsCallback(ss[n].procs[p], id) || RevivedAfter(ss, steps, i, n, p, id)
  {
    assert StepAt(ss, steps, i);
    var P := ss[i].procs[p];
    ReachableInv(ss, steps, i);
    assert Valid(P);
    DisableValid(P);
    FirstPassCancels(Disable(P), steps[i].event.ids, {});
    CancelledUnlessRevived(ss, steps, i, n, p, id);
    ReachableInv(ss, steps, n);
    assert Valid(ss[n].procs[p]);
    if RevivedAfter(ss, steps, i, n, p, id) {
      RevivedIsActive(ss, steps, i, n, p, id);
    }
  }

  /**
   The wait loop of such a shutdown exits, once no callback is to run, exactly if
   whatever was registered or marked as waiting in the meantime has been dropped.
   */
  lemma CancelAllEmptiesIff(ss: seq<System>, steps: seq<Step>, i: nat, n: nat, p: nat)
    requires Run(ss, steps) && i < n <= |steps| && CancelsAll(ss[i], steps[i], p)
    requires p < |ss[n].procs| && DueCalls(ss[n].procs[p]) == {}
    ensures ss[n].procs[p].active == map[] <==> forall id :: !RevivedAfter(ss, steps, i, n, p, id)
  {
    var P := ss[n].procs[p];
    forall id
      ensures id in P.active <==> RevivedAfter(ss, steps, i, n, p, id)
    {
      LeftAfterCancelAllIff(ss, steps, i, n, p, id);
    }
    if forall id :: !RevivedAfter(ss, steps, i, n, p, id) {
      assert forall id :: id !in P.active;
    } else {
      var id :| RevivedAfter(ss, steps, i, n, p, id);
      assert id in P.active;
    }
  }

  /** In particular it exits if nothing is registered or marked, whatever else happens. */
  lemma ShutdownEnds(ss: seq<System>, steps: seq<Step>, i: nat, n: nat, p: nat)
    requires Run(ss, steps) && i < n <= |steps| && CancelsAll(ss[i], steps[i], p)
    requires forall k :: i < k < n && steps[k].proc == p ==> !steps[k].event.DoRegister? && !steps[k].event.DoSetWaiting?
    requires p < |ss[n].procs| && DueCalls(ss[n].procs[p]) == {}
    ensures ss[n].procs[p].active == map[]
  {
    CancelAllEmptiesIff(ss, steps, i, n, p);
  }
}
