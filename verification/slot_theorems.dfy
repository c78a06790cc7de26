/** Concurrency slots in every run: who holds them, the limit, and when a throttled call goes on. */
module SlotTheorems {
  import opened Basics
  import opened Concurrency
  import opened Registry
  import opened ResumeProtocol
  import opened ResumeRuns
  import opened ResumeCalls

  // ---- slots ----

  /** The calls of a process that hold a reservation. */
  ghost function SlotsHeld(P: Process): set<CallId> {
    set c | c in P.calls && P.calls[c].slot.Held?
  }

  /** A call that reserved and has neither failed nor had its settle callback run. */
  predicate OwesSlot(call: Call) {
    && !call.mode.Evaluation?
    && !(call.phase.Creating? || call.phase.Reserving? || call.phase.Queued? || call.phase.Abandoned?)
    && !call.phase.Failed?
    && !(call.phase.Registered? && call.phase.entry.settled)
  }

  /**
   Slot conservation in every reachable state: the reservations held are those
   of the non-evaluation calls that reserved and have neither failed nor had
   their settle callback run. The queue's counters account for the production
   slots among them exactly if as many were returned as were taken while
   control was off.
   */
  lemma SlotConservation(ss: seq<System>, steps: seq<Step>, n: nat, p: nat)
    requires Run(ss, steps) && n <= |steps| && p < |ss[n].procs|
    ensures var P := ss[n].procs[p];
      && SlotsHeld(P) == (set c | c in P.calls && OwesSlot(P.calls[c]))
      && |Holders(P.calls)| == InUse(P.queue, P.limit) + P.drift
      && (forall c :: c in P.calls && P.calls[c].mode.Evaluation? ==> P.calls[c].slot.Never?)
  {
    ReachableInv(ss, steps, n);
    var P := ss[n].procs[p];
    assert Valid(P);
    forall c | c in P.calls
      ensures P.calls[c].slot.Held? <==> OwesSlot(P.calls[c])
      ensures P.calls[c].mode.Evaluation? ==> P.calls[c].slot.Never?
    {
      assert CallValid(P.calls[c]);
    }
  }

  /** A reservation that has been returned is never held again, so it is returned at most once. */
  lemma ReturnedOnce(ss: seq<System>, steps: seq<Step>, i: nat, n: nat, p: nat, c: CallId)
    requires Run(ss, steps) && i <= n <= |steps| && Lives(steps, i, n, p)
    requires p < |ss[i].procs| && c in ss[i].procs[p].calls && ss[i].procs[p].calls[c].slot.Returned?
    ensures p < |ss[n].procs| && c in ss[n].procs[p].calls && ss[n].procs[p].calls[c].slot.Returned?
  {
    CallDevelops(ss, steps, i, n, p, c);
  }

  lemma ReleaseTight(P: Process, c: CallId)
    requires c in P.calls && Tight(P.queue)
    ensures Tight(Release(P, c).queue) && Release(P, c).limit == P.limit
  {
    AdmissionKeepsLimit(P.queue, Waiter("", c), P.limit);
  }

  lemma ShutdownQueue(P: Process, ids: seq<ExecutionId>, cancelAll: bool)
    ensures ShutdownEach(P, ids, cancelAll).queue == P.queue
    ensures ShutdownEach(P, ids, cancelAll).enabled == P.enabled
    ensures ShutdownEach(P, ids, cancelAll).regular == P.regular
    ensures ShutdownEach(P, ids, cancelAll).drift == P.drift && ShutdownEach(P, ids, cancelAll).limit == P.limit
    decreases |ids|
  {
    if ids != [] {
      ShutdownQueue(ShutdownOne(P, ids[0], cancelAll), ids[1..], cancelAll);
    }
  }

  /** Removing `id` from the queue of `P` does not let an execution through that has no slot. */
  predicate HarmlessRemoval(P: Process, id: ExecutionId) {
    P.enabled ==> IndexOf(P.queue.waiting, id) == |P.queue.waiting| || |P.queue.waiting| == 1
  }

  lemma ReleaseKeeps(P: Process, c: CallId)
    requires c in P.calls
    ensures Release(P, c).regular == P.regular && (P.enabled ==> Release(P, c).drift == P.drift)
  {
  }

  lemma LocalTight(P: Process, e: Event)
    requires IsLocal(e) && Enabled(Alone(P), 0, e) && Tight(P.queue)
    requires e.DoRemoveQueued? ==> HarmlessRemoval(P, e.id)
    ensures Tight(Local(P, e).queue)
  {
    match e
    case DoThrottle(c) => AdmissionKeepsLimit(P.queue, Waiter(P.calls[c].target.value, c), P.limit);
    case DoThrow(c) => ReleaseTight(P, c);
    case DoCallback(c) => ReleaseTight(P, c);
    case DoRemoveQueued(id) => RemoveKeepsLimitIff(P.queue, id, P.limit);
    case DoShutdown(ids, cancelAll) => ShutdownQueue(Disable(P), ids, cancelAll);
    case _ =>
  }

  /** Among all steps of a process, removals from the queue alone can undo tightness. */
  lemma StepTight(s: System, p: nat, e: Event, q: nat)
    requires p < |s.procs| && q < |s.procs| && Enabled(s, p, e) && Tight(s.procs[q].queue)
    requires e.DoRemoveQueued? && p == q ==> HarmlessRemoval(s.procs[q], e.id)
    ensures Tight(Next(s, p, e).procs[q].queue)
  {
    if p != q {
      OthersStay(s, p, e, q);
    } else if IsLocal(e) {
      LocalNext(s, p, e);
      LocalTight(s.procs[q], e);
    } else {
      SharedNext(s, p, e);
    }
  }

  ghost predicate HarmlessRemovals(ss: seq<System>, steps: seq<Step>, p: nat, n: nat)
    requires n <= |steps| < |ss|
  {
    forall k :: 0 <= k < n && steps[k].proc == p && steps[k].event.DoRemoveQueued? && p < |ss[k].procs| ==>
      HarmlessRemoval(ss[k].procs[p], steps[k].event.id)
  }

  lemma {:induction false} RunTight(ss: seq<System>, steps: seq<Step>, n: nat, p: nat)
    requires Run(ss, steps) && n <= |steps| && p < |ss[n].procs| && HarmlessRemovals(ss, steps, p, n)
    ensures Tight(ss[n].procs[p].queue)
  {
    if n > 0 {
      assert StepAt(ss, steps, n - 1);
      RunTight(ss, steps, n - 1, p);
      StepTight(ss[n - 1], steps[n - 1].proc, steps[n - 1].event, p);
    }
  }

  /** The calls that may hold a slot beyond the limit, as far as the queue lets them. */
  function Excess(q: Queue): nat {
    Max(0, q.capacity)
  }

  /**
   The concurrency limit: as long as no throttled execution was removed while
   another one was waiting, no more calls than the limit hold a production slot
   exactly if not too many have taken one while control was off.
   */
  lemma LimitRespectedIff(ss: seq<System>, steps: seq<Step>, n: nat, p: nat)
    requires Run(ss, steps) && n <= |steps| && p < |ss[n].procs|
    requires HarmlessRemovals(ss, steps, p, n)
    ensures var P := ss[n].procs[p]; |Holders(P.calls)| <= P.limit <==> P.drift <= Excess(P.queue)
  {
    RunTight(ss, steps, n, p);
    ReachableInv(ss, steps, n);
    assert Valid(ss[n].procs[p]);
  }

  /** The process has had control on ever since it started, up to state `n`. */
  ghost predicate AlwaysOn(ss: seq<System>, p: nat, n: nat) {
    n < |ss| && forall k :: 0 <= k <= n ==> p < |ss[k].procs| && ss[k].procs[p].enabled
  }

  lemma LocalKeepsDrift(P: Process, e: Event)
    requires IsLocal(e) && Enabled(Alone(P), 0, e) && P.enabled && !e.DoRestart?
    ensures Local(P, e).drift == P.drift
  {
    match e
    case DoThrow(c) => ReleaseKeeps(P, c);
    case DoCallback(c) => ReleaseKeeps(P, c);
    case DoShutdown(ids, cancelAll) => ShutdownQueue(Disable(P), ids, cancelAll);
    case _ =>
  }

  lemma StepKeepsDrift(s: System, p: nat, e: Event, q: nat)
    requires p < |s.procs| && q < |s.procs| && Enabled(s, p, e) && s.procs[q].enabled
    ensures p == q && e.DoRestart? ==> Next(s, p, e).procs[q].drift == 0
    ensures !(p == q && e.DoRestart?) ==> Next(s, p, e).procs[q].drift == s.procs[q].drift
  {
    if p != q {
      OthersStay(s, p, e, q);
    } else if IsLocal(e) {
      LocalNext(s, p, e);
      if !e.DoRestart? {
        LocalKeepsDrift(s.procs[q], e);
      }
    } else {
      SharedNext(s, p, e);
    }
  }

  lemma {:induction false} RunKeepsDrift(ss: seq<System>, steps: seq<Step>, n: nat, p: nat)
    requires Run(ss, steps) && n <= |steps| && AlwaysOn(ss, p, n)
    ensures ss[n].procs[p].drift == 0
  {
    if n > 0 {
      assert StepAt(ss, steps, n - 1);
      RunKeepsDrift(ss, steps, n - 1, p);
      StepKeepsDrift(ss[n - 1], steps[n - 1].proc, steps[n - 1].event, p);
    }
  }

  /** With control always on the limit is respected, and the counters account for every slot. */
  lemma LimitRespected(ss: seq<System>, steps: seq<Step>, n: nat, p: nat)
    requires Run(ss, steps) && n <= |steps| && AlwaysOn(ss, p, n) && HarmlessRemovals(ss, steps, p, n)
    ensures var P := ss[n].procs[p];
      |Holders(P.calls)| <= P.limit && |Holders(P.calls)| == InUse(P.queue, P.limit)
  {
    RunKeepsDrift(ss, steps, n, p);
    LimitRespectedIff(ss, steps, n, p);
    SlotConservation(ss, steps, n, p);
  }

  /**
   The condition on removals is exact: after harmless ones only, the next one
   keeps the limit exactly if it is harmless too and not too many slots were
   taken while control was off, or if enough were returned then.
   */
  lemma LimitExceededIff(ss: seq<System>, steps: seq<Step>, n: nat, p: nat, id: ExecutionId)
    requires Run(ss, steps) && n < |steps| && p < |ss[n].procs| && ss[n].procs[p].enabled
    requires HarmlessRemovals(ss, steps, p, n) && steps[n] == Step(p, DoRemoveQueued(id))
    ensures p < |ss[n + 1].procs|
    ensures var P, P' := ss[n].procs[p], ss[n + 1].procs[p];
      |Holders(P'.calls)| <= P'.limit <==>
        if HarmlessRemoval(P, id) then P.drift <= Excess(P'.queue) else P.drift < 0
  {
    assert StepAt(ss, steps, n);
    RunTight(ss, steps, n, p);
    ReachableInv(ss, steps, n);
    ReachableInv(ss, steps, n + 1);
    var P, P' := ss[n].procs[p], ss[n + 1].procs[p];
    RemoveKeepsLimitIff(P.queue, id, P.limit);
    assert Valid(P) && Valid(P');
    RemovedQueue(P, id);
  }

  lemma RemovedQueue(P: Process, id: ExecutionId)
    requires WaitersValid(P) && P.enabled
    ensures var P' := RemoveQueued(P, id);
      P'.queue == Removed(P.queue, id) && P'.limit == P.limit && P'.drift == P.drift
  {
    var k := IndexOf(P.queue.waiting, id);
    if k < |P.queue.waiting| {
      assert InPhase(P, P.queue.waiting[k].call, Queued);
    }
  }

  // ---- throttled calls ----

  /** Call `d` gives back a production slot, which goes to the head of the queue. */
  predicate HandsToHead(P: Process, d: CallId, c: CallId) {
    && d in P.calls && P.calls[d].slot.Held? && P.calls[d].mode.Limited? && P.enabled
    && P.queue.waiting != [] && P.queue.waiting[0].call == c
  }

  /** The step grants call `c` of process `p`, which waits in the queue, a slot. */
  predicate Grants(s: System, step: Step, p: nat, c: CallId) {
    && step.proc == p && p < |s.procs|
    && var P := s.procs[p];
       match step.event
       case DoThrow(d) => HandsToHead(P, d, c)
       case DoCallback(d) => HandsToHead(P, d, c)
       case DoRemoveQueued(id) =>
         var k := IndexOf(P.queue.waiting, id);
         && P.enabled && k < |P.queue.waiting| && P.queue.waiting[k].call != c
         && var rest := Splice(P.queue, k).waiting; rest != [] && rest[0].call == c
       case _ => false
  }

  /** The step removes call `c` of process `p` itself from the queue; its promise never settles. */
  predicate Removes(s: System, step: Step, p: nat, c: CallId) {
    && step.proc == p && p < |s.procs| && step.event.DoRemoveQueued?
    && var P := s.procs[p]; var k := IndexOf(P.queue.waiting, step.event.id);
       P.enabled && k < |P.queue.waiting| && P.queue.waiting[k].call == c
  }

  /** What a step that is no restart makes of a throttled call. */
  function PhaseAfter(s: System, step: Step, p: nat, c: CallId): Phase
    requires p < |s.procs| && c in s.procs[p].calls
  {
    if Grants(s, step, p, c) then AfterReserving(s.procs[p], s.procs[p].calls[c])
    else if Removes(s, step, p, c) then Abandoned
    else Queued
  }

  lemma ShutdownKeepsPhases(P: Process, ids: seq<ExecutionId>, cancelAll: bool, c: CallId)
    requires InPhase(P, c, Queued)
    ensures InPhase(ShutdownEach(P, ids, cancelAll), c, Queued)
    decreases |ids|
  {
    if ids != [] {
      ShutdownKeepsPhases(ShutdownOne(P, ids[0], cancelAll), ids[1..], cancelAll, c);
    }
  }

  lemma ReleaseTakesOut(P: Process, d: CallId, c: CallId)
    requires WaitersValid(P) && InPhase(P, c, Queued) && d in P.calls && d != c
    ensures c in Release(P, d).calls
    ensures Release(P, d).calls[c] == if HandsToHead(P, d, c) then WithSlot(P, P.calls[c]) else P.calls[c]
  {
    if P.queue.waiting != [] {
      assert InPhase(P, P.queue.waiting[0].call, Queued);
    }
  }

  lemma RemovalPhase(P: Process, id: ExecutionId, c: CallId)
    requires WaitersValid(P) && InPhase(P, c, Queued)
    ensures InPhase(RemoveQueued(P, id), c, PhaseAfter(Alone(P), Step(0, DoRemoveQueued(id)), 0, c))
  {
    var k := IndexOf(P.queue.waiting, id);
    if P.enabled && k < |P.queue.waiting| {
      SplicedWaiters(P, k);
      assert InPhase(P, P.queue.waiting[k].call, Queued);
    }
  }

  /** Any other step but a release or a shutdown leaves a throttled call where it is. */
  lemma QuietPhase(P: Process, e: Event, c: CallId)
    requires InPhase(P, c, Queued) && IsLocal(e) && Enabled(Alone(P), 0, e) && !e.DoRestart?
    requires !e.DoThrow? && !e.DoCallback? && !e.DoRemoveQueued? && !e.DoShutdown?
    ensures InPhase(Local(P, e), c, Queued)
  {
  }

  lemma LocalPhase(P: Process, e: Event, c: CallId)
    requires WaitersValid(P) && InPhase(P, c, Queued) && IsLocal(e) && Enabled(Alone(P), 0, e) && !e.DoRestart?
    ensures InPhase(Local(P, e), c, PhaseAfter(Alone(P), Step(0, e), 0, c))
  {
    match e
    case DoThrow(d) => ReleaseTakesOut(P, d, c);
    case DoCallback(d) => ReleaseTakesOut(P, d, c);
    case DoRemoveQueued(id) => RemovalPhase(P, id, c);
    case DoShutdown(ids, cancelAll) => ShutdownKeepsPhases(Disable(P), ids, cancelAll, c);
    case _ => QuietPhase(P, e, c);
  }

  lemma StepPhase(s: System, step: Step, s': System, p: nat, c: CallId)
    requires step.proc < |s.procs| && Enabled(s, step.proc, step.event) && s' == Next(s, step.proc, step.event)
    requires p < |s.procs| && WaitersValid(s.procs[p]) && InPhase(s.procs[p], c, Queued)
    requires !(step.proc == p && step.event.DoRestart?)
    ensures p < |s'.procs| && InPhase(s'.procs[p], c, PhaseAfter(s, step, p, c))
  {
    if p != step.proc {
      OthersStay(s, step.proc, step.event, p);
    } else if IsLocal(step.event) {
      LocalNext(s, p, step.event);
      LocalPhase(s.procs[p], step.event, c);
    } else {
      SharedNext(s, p, step.event);
    }
  }

  lemma RunPhase(ss: seq<System>, steps: seq<Step>, k: nat, p: nat, c: CallId)
    requires Run(ss, steps) && k < |steps| && p < |ss[k].procs| && InPhase(ss[k].procs[p], c, Queued)
    requires !(steps[k].proc == p && steps[k].event.DoRestart?)
    ensures p < |ss[k + 1].procs| && InPhase(ss[k + 1].procs[p], c, PhaseAfter(ss[k], steps[k], p, c))
  {
    ReachableInv(ss, steps, k);
    assert Valid(ss[k].procs[p]);
    assert StepAt(ss, steps, k);
    StepPhase(ss[k], steps[k], ss[k + 1], p, c);
  }

  /** The call has left the queue with a slot. */
  predicate WentOn(P: Process, c: CallId) {
    c in P.calls && PastQueue(P.calls[c].phase) && !P.calls[c].phase.Abandoned?
  }

  /** A call that a step takes out of the queue has gone on for good if it was granted a slot, and hangs for good if not. */
  lemma LeavesForGood(ss: seq<System>, steps: seq<Step>, i: nat, n: nat, p: nat, c: CallId)
    requires Run(ss, steps) && i < n <= |steps| && Lives(steps, i, n, p)
    requires p < |ss[i].procs| && InPhase(ss[i].procs[p], c, Queued)
    ensures p < |ss[n].procs|
    ensures Grants(ss[i], steps[i], p, c) ==> WentOn(ss[n].procs[p], c)
    ensures Removes(ss[i], steps[i], p, c) ==> InPhase(ss[n].procs[p], c, Abandoned)
  {
    RunPhase(ss, steps, i, p, c);
    CallDevelops(ss, steps, i + 1, n, p, c);
  }

  lemma TakenOutOnce(ss: seq<System>, steps: seq<Step>, i: nat, n: nat, p: nat, c: CallId)
    requires Run(ss, steps) && i < n <= |steps| && Lives(steps, i, n, p)
    requires p < |ss[i].procs| && InPhase(ss[i].procs[p], c, Queued)
    requires Grants(ss[i], steps[i], p, c) || Removes(ss[i], steps[i], p, c)
    ensures forall k :: i < k < n ==> !Grants(ss[k], steps[k], p, c) && !Removes(ss[k], steps[k], p, c)
  {
    forall k | i < k < n
      ensures !Grants(ss[k], steps[k], p, c) && !Removes(ss[k], steps[k], p, c)
    {
      LeavesForGood(ss, steps, i, k, p, c);
      ReachableInv(ss, steps, k);
      if Grants(ss[k], steps[k], p, c) || Removes(ss[k], steps[k], p, c) {
        OnlyThrottledTaken(ss[k], steps[k], p, c);
      }
    }
  }

  lemma OnlyThrottledTaken(s: System, step: Step, p: nat, c: CallId)
    requires p < |s.procs| && Valid(s.procs[p])
    requires Grants(s, step, p, c) || Removes(s, step, p, c)
    ensures InPhase(s.procs[p], c, Queued)
  {
    var P := s.procs[p];
    if step.event.DoRemoveQueued? {
      SplicedWaiters(P, IndexOf(P.queue.waiting, step.event.id));
    }
  }

  /**
   Over any run, a call that was throttled has gone on exactly if some step since
   has granted it a slot, and hangs for good exactly if some step has removed it;
   if neither, it is still throttled.
   */
  lemma {:induction false} ThrottledIff(ss: seq<System>, steps: seq<Step>, i: nat, n: nat, p: nat, c: CallId)
    requires Run(ss, steps) && i <= n <= |steps| && Lives(steps, i, n, p)
    requires p < |ss[i].procs| && InPhase(ss[i].procs[p], c, Queued)
    ensures p < |ss[n].procs|
    ensures WentOn(ss[n].procs[p], c) <==>
      exists k :: i <= k < n && Grants(ss[k], steps[k], p, c)
    ensures InPhase(ss[n].procs[p], c, Abandoned) <==>
      exists k :: i <= k < n && Removes(ss[k], steps[k], p, c)
    ensures InPhase(ss[n].procs[p], c, Queued) || InPhase(ss[n].procs[p], c, Abandoned) || WentOn(ss[n].procs[p], c)
    decreases n - i
  {
    if i < n {
      RunPhase(ss, steps, i, p, c);
      LeavesForGood(ss, steps, i, n, p, c);
      if PhaseAfter(ss[i], steps[i], p, c).Queued? {
        ThrottledIff(ss, steps, i + 1, n, p, c);
      } else {
        TakenOutOnce(ss, steps, i, n, p, c);
      }
    }
  }

  /** Resolving the limit on evaluations switches control of process `p` on again. */
  predicate SwitchesOn(s: System, step: Step, p: nat) {
    && step.proc == p && p < |s.procs| && step.event.DoResolveEvaluation? && step.event.limited
    && s.procs[p].lazy && !s.procs[p].enabled
  }

  lemma StepKeepsOff(s: System, step: Step, s': System, p: nat)
    requires step.proc < |s.procs| && Enabled(s, step.proc, step.event) && s' == Next(s, step.proc, step.event)
    requires p < |s.procs| && !s.procs[p].enabled && !(step.proc == p && step.event.DoRestart?)
    ensures p < |s'.procs| && (s'.procs[p].enabled <==> SwitchesOn(s, step, p))
  {
    if p == step.proc && step.event.DoShutdown? {
      ShutdownQueue(Disable(s.procs[p]), step.event.ids, step.event.cancelAll);
    }
  }

  lemma {:induction false} StaysOff(ss: seq<System>, steps: seq<Step>, i: nat, n: nat, p: nat)
    requires Run(ss, steps) && i <= n <= |steps| && Lives(steps, i, n, p)
    requires p < |ss[i].procs| && !ss[i].procs[p].enabled
    requires forall k :: i <= k < n ==> !SwitchesOn(ss[k], steps[k], p)
    ensures p < |ss[n].procs| && !ss[n].procs[p].enabled
  {
    if i < n {
      StaysOff(ss, steps, i, n - 1, p);
      assert StepAt(ss, steps, n - 1);
      StepKeepsOff(ss[n - 1], steps[n - 1], ss[n - 1 + 1], p);
    }
  }

  /** Control of process `p`, off at `i`, is switched on again before `n`. */
  ghost predicate ReenabledBefore(ss: seq<System>, steps: seq<Step>, i: nat, n: nat, p: nat)
    requires n <= |steps| < |ss|
  {
    exists on :: i <= on < n && SwitchesOn(ss[on], steps[on], p)
  }

  lemma OutNeedsOn(ss: seq<System>, steps: seq<Step>, i: nat, out: nat, p: nat, c: CallId)
    requires Run(ss, steps) && i <= out < |steps| && Lives(steps, i, out + 1, p)
    requires p < |ss[i].procs| && !ss[i].procs[p].enabled
    requires Grants(ss[out], steps[out], p, c) || Removes(ss[out], steps[out], p, c)
    ensures ReenabledBefore(ss, steps, i, out, p)
  {
    if !ReenabledBefore(ss, steps, i, out, p) {
      StaysOff(ss, steps, i, out, p);
    }
  }

  /**
   Once shutdown has switched control off, a throttled call goes on exactly if a
   later step grants it a slot after an evaluation case has switched control on
   again; the same holds for hanging and being removed.
   */
  lemma ThrottledStayThrottled(ss: seq<System>, steps: seq<Step>, i: nat, n: nat, p: nat, c: CallId)
    requires Run(ss, steps) && i <= n <= |steps| && Lives(steps, i, n, p)
    requires p < |ss[i].procs| && !ss[i].procs[p].enabled && InPhase(ss[i].procs[p], c, Queued)
    ensures p < |ss[n].procs|
    ensures WentOn(ss[n].procs[p], c) <==>
      exists out :: i <= out < n && Grants(ss[out], steps[out], p, c) && ReenabledBefore(ss, steps, i, out, p)
    ensures InPhase(ss[n].procs[p], c, Abandoned) <==>
      exists out :: i <= out < n && Removes(ss[out], steps[out], p, c) && ReenabledBefore(ss, steps, i, out, p)
    ensures InPhase(ss[n].procs[p], c, Queued) || InPhase(ss[n].procs[p], c, Abandoned) || WentOn(ss[n].procs[p], c)
  {
    ThrottledIff(ss, steps, i, n, p, c);
    forall out | i <= out < n && (Grants(ss[out], steps[out], p, c) || Removes(ss[out], steps[out], p, c))
      ensures ReenabledBefore(ss, steps, i, out, p)
    {
      OutNeedsOn(ss, steps, i, out, p, c);
    }
  }

  lemma ShutdownKeepsLazy(P: Process, ids: seq<ExecutionId>, cancelAll: bool)
    ensures ShutdownEach(P, ids, cancelAll).lazy == P.lazy
    decreases |ids|
  {
    if ids != [] {
      ShutdownKeepsLazy(ShutdownOne(P, ids[0], cancelAll), ids[1..], cancelAll);
    }
  }

  /**
   An evaluation case that asks for capacity while shutdown waits: the next
   production slot that is returned lets the first throttled call go on.
   */
  lemma ReenabledLetsGo(P: Process, ids: seq<ExecutionId>, cancelAll: bool, d: CallId, c: CallId)
    requires Valid(P) && P.regular && P.lazy && P.queue.waiting != [] && P.queue.waiting[0].call == c
    requires var on := ResolveEvaluation(ShutdownEach(Disable(P), ids, cancelAll), true);
      CallbackDue(on, d) && on.calls[d].slot.Held? && on.calls[d].mode.Limited?
    ensures var off := ShutdownEach(Disable(P), ids, cancelAll); var on := ResolveEvaluation(off, true);
      && InPhase(off, c, Queued) && !off.enabled && on.enabled
      && c in RunCallback(on, d).calls && RunCallback(on, d).calls[c] == WithSlot(on, on.calls[c])
  {
    assert InPhase(P, P.queue.waiting[0].call, Queued);
    ShutdownKeepsPhases(Disable(P), ids, cancelAll, c);
    ShutdownQueue(Disable(P), ids, cancelAll);
    DisableValid(P);
    ShutdownValid(Disable(P), ids, cancelAll);
    ShutdownKeepsLazy(Disable(P), ids, cancelAll);
    ReleaseTakesOut(ResolveEvaluation(ShutdownEach(Disable(P), ids, cancelAll), true), d, c);
  }
}
