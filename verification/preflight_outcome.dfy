/**
 What a run leaves behind that fails before its engine starts: the response mode
 that a webhook sets afterwards, and the parent that waits for it.
 */
module PreflightOutcome {
  import opened Basics
  import opened Registry
  import opened ResumeProtocol
  import opened ResumeInvariant
  import opened ResumeRuns
  import opened ResumeCalls
  import opened ResumeTheorems
  import opened EntryTheorems
  import W = WaitTracking

  // ---- response modes over a run ----

  predicate SetsMode(step: Step, p: nat, id: ExecutionId) {
    step.proc == p && step.event.DoSetResponseMode? && step.event.id == id
  }

  /** A restart, the callback of a registration that is not waiting, or stopping one that is. */
  predicate ClearsMode(s: System, step: Step, p: nat, id: ExecutionId) {
    && step.proc == p && p < |s.procs|
    && var P := s.procs[p];
       match step.event
       case DoRestart(_, _, _, _) => true
       case DoCallback(c) =>
         IsRegistered(P, c) && P.calls[c].target == Some(id) && !P.calls[c].phase.entry.status.Waiting?
       case DoStop(i) => i == id && IsWaiting(P, id)
       case DoShutdown(ids, cancelAll) => P.regular && cancelAll && id in ids && IsWaiting(P, id)
       case _ => false
  }

  lemma StopMode(P: Process, i: ExecutionId, id: ExecutionId)
    ensures id in Stop(P, i).responseModes <==> id in P.responseModes && !(i == id && IsWaiting(P, id))
    ensures Stop(P, i).regular == P.regular
    ensures i != id ==> IsWaiting(Stop(P, i), id) == IsWaiting(P, id)
    ensures IsWaiting(Stop(P, id), id) ==> IsWaiting(P, id)
  {
    if Has(P, i) && !IsWaiting(P, i) {
      SettledKeepsWaiting(P, i, id);
    }
  }

  lemma ShutdownMode(P: Process, ids: seq<ExecutionId>, cancelAll: bool, id: ExecutionId)
    ensures id in ShutdownEach(P, ids, cancelAll).responseModes <==>
      id in P.responseModes && !(P.regular && cancelAll && id in ids && IsWaiting(P, id))
    decreases |ids|
  {
    if ids != [] {
      ShutdownMode(ShutdownOne(P, ids[0], cancelAll), ids[1..], cancelAll, id);
      if P.regular && cancelAll {
        StopMode(P, ids[0], id);
        assert id in ids <==> id == ids[0] || id in ids[1..];
      }
    }
  }

  lemma LocalMode(P: Process, e: Event, id: ExecutionId)
    requires WaitersValid(P) && IsLocal(e) && Enabled(Alone(P), 0, e)
    ensures id in Local(P, e).responseModes <==>
      SetsMode(Step(0, e), 0, id) || (id in P.responseModes && !ClearsMode(Alone(P), Step(0, e), 0, id))
  {
    match e
    case DoThrow(c) => ThrowFrame(P, c);
    case DoCallback(c) => CallbackFrame(P, c);
    case DoStop(i) => StopMode(P, i, id);
    case DoRemoveQueued(i) => RemoveQueuedFrame(P, i);
    case DoShutdown(ids, cancelAll) => ShutdownMode(Disable(P), ids, cancelAll, id);
    case _ =>
  }

  lemma StepMode(s: System, step: Step, s': System, p: nat, id: ExecutionId)
    requires step.proc < |s.procs| && Enabled(s, step.proc, step.event) && s' == Next(s, step.proc, step.event)
    requires p < |s.procs| && WaitersValid(s.procs[p])
    ensures p < |s'.procs|
    ensures id in s'.procs[p].responseModes <==>
      SetsMode(step, p, id) || (id in s.procs[p].responseModes && !ClearsMode(s, step, p, id))
  {
    if p != step.proc {
      OthersStay(s, step.proc, step.event, p);
    } else if IsLocal(step.event) {
      LocalNext(s, p, step.event);
      LocalMode(s.procs[p], step.event, id);
    } else {
      SharedNext(s, p, step.event);
    }
  }

  /** Step `k` sets the mode of `id`, and no later one before `m` clears it. */
  ghost predicate StillSet(ss: seq<System>, steps: seq<Step>, k: int, m: nat, p: nat, id: ExecutionId)
    requires m <= |steps| < |ss|
  {
    0 <= k < m && SetsMode(steps[k], p, id) && forall l :: k < l < m ==> !ClearsMode(ss[l], steps[l], p, id)
  }

  /** Some step from `n` on has set the mode of `id`, and it is still set at `m`. */
  ghost predicate SetSince(ss: seq<System>, steps: seq<Step>, n: nat, m: nat, p: nat, id: ExecutionId)
    requires m <= |steps| < |ss|
  {
    exists k :: n <= k && StillSet(ss, steps, k, m, p, id)
  }

  lemma StillSetNext(ss: seq<System>, steps: seq<Step>, n: nat, m: nat, p: nat, id: ExecutionId)
    requires n < m <= |steps| < |ss|
    ensures SetSince(ss, steps, n, m, p, id) <==>
      SetsMode(steps[m - 1], p, id) ||
      (!ClearsMode(ss[m - 1], steps[m - 1], p, id) && SetSince(ss, steps, n, m - 1, p, id))
  {
    var last := m - 1;
    if SetsMode(steps[last], p, id) {
      assert StillSet(ss, steps, last, m, p, id);
    }
    if k :| n <= k && StillSet(ss, steps, k, last, p, id) {
      assert StillSet(ss, steps, k, m, p, id) <==> !ClearsMode(ss[last], steps[last], p, id);
    }
    if k :| n <= k && StillSet(ss, steps, k, m, p, id) && k < last {
      assert StillSet(ss, steps, k, last, p, id);
    }
  }

  lemma ModeStep(ss: seq<System>, steps: seq<Step>, k: nat, p: nat, id: ExecutionId)
    requires Run(ss, steps) && k < |steps| && p < |ss[k].procs|
    ensures p < |ss[k + 1].procs|
    ensures id in ss[k + 1].procs[p].responseModes <==>
      SetsMode(steps[k], p, id) || (id in ss[k].procs[p].responseModes && !ClearsMode(ss[k], steps[k], p, id))
  {
    ReachableInv(ss, steps, k);
    assert Valid(ss[k].procs[p]);
    assert StepAt(ss, steps, k);
    StepMode(ss[k], steps[k], ss[k + 1], p, id);
  }

  lemma ModeNext(ss: seq<System>, steps: seq<Step>, n: nat, m: nat, p: nat, id: ExecutionId)
    requires Run(ss, steps) && n < m <= |steps| && p < |ss[m - 1].procs|
    requires id in ss[m - 1].procs[p].responseModes <==> SetSince(ss, steps, n, m - 1, p, id)
    ensures p < |ss[m].procs|
    ensures id in ss[m].procs[p].responseModes <==> SetSince(ss, steps, n, m, p, id)
  {
    ModeStep(ss, steps, m - 1, p, id);
    StillSetNext(ss, steps, n, m, p, id);
  }

  /** Exactly when a process has a response mode for `id`, over every run that begins without one. */
  lemma {:induction false} ModeIff(ss: seq<System>, steps: seq<Step>, n: nat, m: nat, p: nat, id: ExecutionId)
    requires Run(ss, steps) && n <= m <= |steps|
    requires p < |ss[n].procs| && id !in ss[n].procs[p].responseModes
    ensures p < |ss[m].procs|
    ensures id in ss[m].procs[p].responseModes <==> SetSince(ss, steps, n, m, p, id)
  {
    if n < m {
      ModeIff(ss, steps, n, m - 1, p, id);
      ModeNext(ss, steps, n, m, p, id);
    }
  }

  lemma ShutdownKeepsMode(P: Process, ids: seq<ExecutionId>, cancelAll: bool, id: ExecutionId)
    requires id in ShutdownEach(P, ids, cancelAll).responseModes
    ensures id in P.responseModes && ShutdownEach(P, ids, cancelAll).responseModes[id] == P.responseModes[id]
    decreases |ids|
  {
    if ids != [] {
      ShutdownKeepsMode(ShutdownOne(P, ids[0], cancelAll), ids[1..], cancelAll, id);
    }
  }

  lemma LocalModeValue(P: Process, e: Event, id: ExecutionId)
    requires WaitersValid(P) && IsLocal(e) && Enabled(Alone(P), 0, e) && id in Local(P, e).responseModes
    ensures SetsMode(Step(0, e), 0, id) ==> Local(P, e).responseModes[id] == e.responseMode
    ensures !SetsMode(Step(0, e), 0, id) ==>
      id in P.responseModes && Local(P, e).responseModes[id] == P.responseModes[id]
  {
    match e
    case DoThrow(c) => ThrowFrame(P, c);
    case DoCallback(c) => CallbackFrame(P, c);
    case DoRemoveQueued(i) => RemoveQueuedFrame(P, i);
    case DoShutdown(ids, cancelAll) => ShutdownKeepsMode(Disable(P), ids, cancelAll, id);
    case _ =>
  }

  lemma StepModeValue(s: System, step: Step, p: nat, id: ExecutionId)
    requires step.proc < |s.procs| && Enabled(s, step.proc, step.event)
    requires p < |s.procs| && WaitersValid(s.procs[p])
    requires id in Next(s, step.proc, step.event).procs[p].responseModes
    ensures var mode := Next(s, step.proc, step.event).procs[p].responseModes[id];
      if SetsMode(step, p, id) then mode == step.event.responseMode
      else id in s.procs[p].responseModes && mode == s.procs[p].responseModes[id]
  {
    if p != step.proc {
      OthersStay(s, step.proc, step.event, p);
    } else if IsLocal(step.event) {
      LocalNext(s, p, step.event);
      LocalModeValue(s.procs[p], step.event, id);
    } else {
      SharedNext(s, p, step.event);
    }
  }

  /** Step `k` is the last that sets the mode of `id`. */
  ghost predicate LastSets(steps: seq<Step>, k: nat, m: nat, p: nat, id: ExecutionId)
    requires m <= |steps|
  {
    k < m && SetsMode(steps[k], p, id) && forall l :: k < l < m ==> !SetsMode(steps[l], p, id)
  }

  /** A response mode is the one that was set last. */
  lemma {:induction false} ModeIsLastSet(ss: seq<System>, steps: seq<Step>, m: nat, p: nat, id: ExecutionId)
    returns (k: nat)
    requires Run(ss, steps) && m <= |steps| && p < |ss[m].procs| && id in ss[m].procs[p].responseModes
    ensures LastSets(steps, k, m, p, id) && ss[m].procs[p].responseModes[id] == steps[k].event.responseMode
  {
    k := m - 1;
    assert StepAt(ss, steps, k);
    ReachableInv(ss, steps, k);
    assert Valid(ss[k].procs[p]);
    StepModeValue(ss[k], steps[k], p, id);
    if !SetsMode(steps[k], p, id) {
      k := ModeIsLastSet(ss, steps, m - 1, p, id);
    }
  }

  // ---- after the callback of a failed run ----

  /**
   The step shows that an engine works for call `c`, or that its run has data. The
   second is more than a run that fails its pre-flight needs: it also excludes the
   late job of an earlier run of `id`, which hands over data although no engine
   works for `c`.
   */
  predicate ShowsEngine(step: Step, p: nat, c: CallId, id: ExecutionId) {
    match step.event
    case DoSetWaiting(d) => step.proc == p && d == c
    case DoEnqueue(d) => step.proc == p && d == c
    case DoFinalize(i, result) => step.proc == p && i == id && result.Data?
    case _ => false
  }

  /** From `i` to `n` no engine works for call `c` of process `p`, whose execution is `id`. */
  ghost predicate NoEngine(steps: seq<Step>, i: nat, n: nat, p: nat, c: CallId, id: ExecutionId)
    requires n <= |steps|
  {
    forall k :: i <= k < n ==> !ShowsEngine(steps[k], p, c, id)
  }

  /** Call `c` is registered by step `i`, fails before its engine does anything, and its callback is step `n`. */
  ghost predicate FailsPreflight(
      ss: seq<System>, steps: seq<Step>, i: nat, n: nat, p: nat, c: CallId, id: ExecutionId)
  {
    && Run(ss, steps) && i < n < |steps|
    && steps[i].proc == p && steps[i].event.DoRegister? && steps[i].event.call == c
    && steps[n] == Step(p, DoCallback(c))
    && Lives(steps, i + 1, n, p) && NoEngine(steps, i + 1, n, p, c, id)
    && p < |ss[n].procs| && IsRegistered(ss[n].procs[p], c) && ss[n].procs[p].calls[c].target == Some(id)
  }

  lemma NoEngineNeverWaits(steps: seq<Step>, i: nat, n: nat, p: nat, c: CallId, id: ExecutionId)
    requires n <= |steps| && NoEngine(steps, i, n, p, c, id)
    ensures NeverPutToWait(steps, i, n, p, c)
  {
    forall k | i <= k < n
      ensures steps[k] != Step(p, DoSetWaiting(c))
    {
      assert !ShowsEngine(steps[k], p, c, id);
    }
  }

  /** No step from `i` to `n` registers `id` in process `p`. */
  ghost predicate NotRegistered(ss: seq<System>, steps: seq<Step>, i: nat, n: nat, p: nat, id: ExecutionId)
    requires n <= |steps| < |ss|
  {
    forall k :: i <= k < n ==> !Registers(ss[k], steps[k], p, id)
  }

  /** Afterwards the response mode is there exactly if somebody sets it after the callback and nothing clears it. */
  lemma ModeAfterFailureIff(
      ss: seq<System>, steps: seq<Step>, i: nat, n: nat, m: nat, p: nat, c: CallId, id: ExecutionId)
    requires FailsPreflight(ss, steps, i, n, p, c, id) && n < m <= |steps|
    ensures p < |ss[m].procs|
    ensures id in ss[m].procs[p].responseModes <==> SetSince(ss, steps, n + 1, m, p, id)
  {
    assert StepAt(ss, steps, n);
    NoEngineNeverWaits(steps, i + 1, n, p, c, id);
    PreflightFailureLeavesNothing(ss, steps, i, n, p, c, steps[i].event.now);
    ReachableInv(ss, steps, n);
    StepDevelops(ss[n], p, DoCallback(c), p);
    ModeIff(ss, steps, n + 1, m, p, id);
  }

  lemma StepKeepsInactive(s: System, step: Step, s': System, p: nat, id: ExecutionId)
    requires step.proc < |s.procs| && Enabled(s, step.proc, step.event) && s' == Next(s, step.proc, step.event)
    requires p < |s.procs| && WaitersValid(s.procs[p]) && id !in s.procs[p].active
    requires !Registers(s, step, p, id)
    ensures p < |s'.procs| && id !in s'.procs[p].active
  {
    if id in s'.procs[p].active {
      StepKeepsActive(s, step.proc, step.event, p, id);
    }
  }

  lemma InactiveStays(ss: seq<System>, steps: seq<Step>, k: nat, p: nat, id: ExecutionId)
    requires Run(ss, steps) && k < |steps| && p < |ss[k].procs| && id !in ss[k].procs[p].active
    requires !Registers(ss[k], steps[k], p, id)
    ensures p < |ss[k + 1].procs| && id !in ss[k + 1].procs[p].active
  {
    ReachableInv(ss, steps, k);
    assert Valid(ss[k].procs[p]);
    assert StepAt(ss, steps, k);
    StepKeepsInactive(ss[k], steps[k], ss[k + 1], p, id);
  }

  lemma {:induction false} StaysInactive(ss: seq<System>, steps: seq<Step>, n: nat, m: nat, p: nat, id: ExecutionId)
    requires Run(ss, steps) && n <= m <= |steps| && NotRegistered(ss, steps, n, m, p, id)
    requires p < |ss[n].procs| && id !in ss[n].procs[p].active
    ensures p < |ss[m].procs| && id !in ss[m].procs[p].active
  {
    if n < m {
      StaysInactive(ss, steps, n, m - 1, p, id);
      InactiveStays(ss, steps, m - 1, p, id);
    }
  }

  /** The failed registration, once settled, is the only one of its id that is not waiting. */
  lemma OnlyWaitersLeft(s: System, p: nat, c: CallId, d: CallId, id: ExecutionId)
    requires Inv(s) && p < |s.procs| && MarksAll(s.procs[p]) && s.procs[p].regular
    requires HasStatus(s.procs[p], c, Running) && s.procs[p].calls[c].target == Some(id)
    requires s.procs[p].calls[c].phase.entry.settled
    requires CallbackDue(s.procs[p], d) && s.procs[p].calls[d].target == Some(id)
    ensures s.procs[p].calls[d].phase.entry.status.Waiting?
  {
    var P := s.procs[p];
    if !P.calls[d].phase.entry.status.Waiting? {
      assert Claimant(s, p, c, id) && Claimant(s, p, d, id);
    }
  }

  lemma NothingClears(s: System, step: Step, p: nat, c: CallId, id: ExecutionId)
    requires Inv(s) && p < |s.procs| && MarksAll(s.procs[p]) && s.procs[p].regular
    requires HasStatus(s.procs[p], c, Running) && s.procs[p].calls[c].target == Some(id)
    requires s.procs[p].calls[c].phase.entry.settled && id !in s.procs[p].active
    requires step.proc == p ==> Enabled(s, p, step.event) && !step.event.DoRestart?
    ensures !ClearsMode(s, step, p, id)
  {
    if step.proc == p && step.event.DoCallback? && s.procs[p].calls[step.event.call].target == Some(id) {
      OnlyWaitersLeft(s, p, c, step.event.call, id);
    }
  }

  lemma {:induction false} RegularStays(ss: seq<System>, steps: seq<Step>, i: nat, n: nat, p: nat)
    requires Run(ss, steps) && i <= n <= |steps| && Lives(steps, i, n, p) && p < |ss[i].procs|
    ensures p < |ss[n].procs| && ss[n].procs[p].regular == ss[i].procs[p].regular
  {
    if i < n {
      assert StepAt(ss, steps, n - 1);
      RegularStays(ss, steps, i, n - 1, p);
      StepKeepsRegular(ss[n - 1], steps[n - 1].proc, steps[n - 1].event, p);
    }
  }

  lemma CallbackSettles(ss: seq<System>, steps: seq<Step>, n: nat, p: nat, c: CallId)
    requires Run(ss, steps) && n < |steps| && steps[n] == Step(p, DoCallback(c))
    ensures p < |ss[n].procs| && p < |ss[n + 1].procs| && CallbackDue(ss[n].procs[p], c)
    ensures IsRegistered(ss[n + 1].procs[p], c) && ss[n + 1].procs[p].calls[c].phase.entry.settled
    ensures ss[n + 1].procs[p].calls[c].target == ss[n].procs[p].calls[c].target
  {
    assert StepAt(ss, steps, n);
    ReachableInv(ss, steps, n);
    assert Valid(ss[n].procs[p]);
    CallbackFrame(ss[n].procs[p], c);
  }

  lemma SettledAfter(ss: seq<System>, steps: seq<Step>, i: nat, n: nat, l: nat, p: nat, c: CallId, id: ExecutionId)
    requires FailsPreflight(ss, steps, i, n, p, c, id) && n < l <= |steps|
    requires Lives(steps, i + 1, l, p) && NeverPutToWait(steps, i + 1, l, p, c)
    ensures p < |ss[l].procs| && HasStatus(ss[l].procs[p], c, Running)
    ensures ss[l].procs[p].calls[c].target == Some(id) && ss[l].procs[p].calls[c].phase.entry.settled
  {
    assert StepAt(ss, steps, i);
    RunStaysRunning(ss, steps, i + 1, l, p, c);
    CallbackSettles(ss, steps, n, p, c);
    CallDevelops(ss, steps, n + 1, l, p, c);
  }

  /**
   In regular mode a response mode that a webhook sets after the callback of its
   failed run is never cleared, until the process ends or registers the
   execution again.
   */
  lemma LeakedModeStays(
      ss: seq<System>, steps: seq<Step>, i: nat, n: nat, k: nat, m: nat, p: nat, c: CallId, id: ExecutionId)
    requires FailsPreflight(ss, steps, i, n, p, c, id) && n < k < m <= |steps| && ss[n].procs[p].regular
    requires Lives(steps, i + 1, m, p) && NeverPutToWait(steps, i + 1, m, p, c)
    requires NotRegistered(ss, steps, n + 1, m, p, id) && SetsMode(steps[k], p, id)
    ensures p < |ss[m].procs| && id in ss[m].procs[p].responseModes
  {
    forall l | k < l < m
      ensures !ClearsMode(ss[l], steps[l], p, id)
    {
      ClearedByNone(ss, steps, i, n, l, p, c, id);
    }
    assert StillSet(ss, steps, k, m, p, id);
    ModeAfterFailureIff(ss, steps, i, n, m, p, c, id);
  }

  lemma ClearedByNone(ss: seq<System>, steps: seq<Step>, i: nat, n: nat, l: nat, p: nat, c: CallId, id: ExecutionId)
    requires FailsPreflight(ss, steps, i, n, p, c, id) && n < l < |steps| && ss[n].procs[p].regular
    requires Lives(steps, i + 1, l + 1, p) && NeverPutToWait(steps, i + 1, l + 1, p, c)
    requires NotRegistered(ss, steps, n + 1, l, p, id)
    ensures !ClearsMode(ss[l], steps[l], p, id)
  {
    GoneAfterFailure(ss, steps, i, n, l, p, c, id);
    SettledAfter(ss, steps, i, n, l, p, c, id);
    RegularStays(ss, steps, n, l, p);
    RegularMarksAll(ss, steps, l, p);
    ReachableInv(ss, steps, l);
    assert StepAt(ss, steps, l);
    NothingClears(ss[l], steps[l], p, c, id);
  }

  lemma GoneAfterFailure(ss: seq<System>, steps: seq<Step>, i: nat, n: nat, m: nat, p: nat, c: CallId, id: ExecutionId)
    requires FailsPreflight(ss, steps, i, n, p, c, id) && n < m <= |steps| && NotRegistered(ss, steps, n + 1, m, p, id)
    ensures p < |ss[m].procs| && id !in ss[m].procs[p].active
  {
    assert StepAt(ss, steps, n);
    NoEngineNeverWaits(steps, i + 1, n, p, c, id);
    PreflightFailureLeavesNothing(ss, steps, i, n, p, c, steps[i].event.now);
    ReachableInv(ss, steps, n);
    StepDevelops(ss[n], p, DoCallback(c), p);
    StaysInactive(ss, steps, n + 1, m, p, id);
  }

  // ---- the parent of a failed run ----

  /** `getPostExecutePromise`: it rejects if the execution is not registered; `settled` is what its promise comes to. */
  function Awaited(P: Process, id: ExecutionId, settled: Promise): W.ChildResult
    requires !settled.Pending?
  {
    if !Has(P, id) then W.Rejected
    else
      match settled
      case Rejected => W.Rejected
      case Resolved(NoData) => W.Absent
      case Resolved(Data(waiting)) => if waiting then W.StillWaiting else W.Finished
  }

  /** A parent is started exactly if its child is registered when asked, finishes with data, and both steps recover. */
  lemma ParentStartedAfterIff(
      P: Process, id: ExecutionId, settled: Promise, patches: W.Operation, starts: W.Operation)
    requires !settled.Pending?
    ensures W.ParentStarted(W.ResumeTrace(Awaited(P, id, settled), patches, starts), starts) <==>
      Has(P, id) && settled == Resolved(Data(false)) && W.Recovers(patches, 3) && W.Recovers(starts, 3)
  {
    W.ParentStartedIff(Awaited(P, id, settled), patches, starts);
  }

  /** Registration `c` of `id` runs, as far as the registry knows; no job has it, and it has no run data. */
  predicate Unstarted(P: Process, c: CallId, id: ExecutionId) {
    && HasStatus(P, c, Running) && P.calls[c].target == Some(id)
    && var entry := P.calls[c].phase.entry;
       !entry.offloaded && !(entry.promise.Resolved? && entry.promise.result.Data?)
  }

  lemma StepUnstarted(s: System, step: Step, s': System, p: nat, c: CallId, id: ExecutionId)
    requires Inv(s) && step.proc < |s.procs| && Enabled(s, step.proc, step.event)
    requires s' == Next(s, step.proc, step.event)
    requires p < |s.procs| && p < |s'.procs| && Unstarted(s.procs[p], c, id)
    requires !ShowsEngine(step, p, c, id) && !(step.proc == p && step.event.DoRestart?)
    ensures Unstarted(s'.procs[p], c, id)
  {
    assert Valid(s.procs[p]) && ActiveValid(s.procs[p]);
    StepKeepsEntry(s, step.proc, step.event, p, c);
    StepDevelops(s, step.proc, step.event, p);
    StaysRunning(s, step.proc, step.event, p, c, Running);
  }

  lemma UnstartedStays(ss: seq<System>, steps: seq<Step>, k: nat, p: nat, c: CallId, id: ExecutionId)
    requires Run(ss, steps) && k < |steps| && p < |ss[k].procs| && Unstarted(ss[k].procs[p], c, id)
    requires !ShowsEngine(steps[k], p, c, id) && !(steps[k].proc == p && steps[k].event.DoRestart?)
    ensures p < |ss[k + 1].procs| && Unstarted(ss[k + 1].procs[p], c, id)
  {
    ReachableInv(ss, steps, k);
    assert StepAt(ss, steps, k);
    StepUnstarted(ss[k], steps[k], ss[k + 1], p, c, id);
  }

  lemma {:induction false} RunUnstarted(
      ss: seq<System>, steps: seq<Step>, i: nat, m: nat, n: nat, p: nat, c: CallId, id: ExecutionId)
    requires Run(ss, steps) && i <= m <= n <= |steps| && Lives(steps, i, n, p) && NoEngine(steps, i, n, p, c, id)
    requires p < |ss[i].procs| && Unstarted(ss[i].procs[p], c, id)
    ensures p < |ss[m].procs| && Unstarted(ss[m].procs[p], c, id)
  {
    if i < m {
      RunUnstarted(ss, steps, i, m - 1, n, p, c, id);
      UnstartedStays(ss, steps, m - 1, p, c, id);
    }
  }

  lemma RegisteredUnstarted(ss: seq<System>, steps: seq<Step>, i: nat, n: nat, p: nat, c: CallId, id: ExecutionId)
    requires FailsPreflight(ss, steps, i, n, p, c, id)
    ensures p < |ss[i + 1].procs| && Unstarted(ss[i + 1].procs[p], c, id)
  {
    assert StepAt(ss, steps, i);
    CallDevelops(ss, steps, i + 1, n, p, c);
  }

  /** Until the callback of the failed run, its id leads to it, if to anything. */
  lemma LeadsToFailed(
      ss: seq<System>, steps: seq<Step>, i: nat, n: nat, m: nat, p: nat, c: CallId, id: ExecutionId)
    requires FailsPreflight(ss, steps, i, n, p, c, id) && i < m <= n
    ensures p < |ss[m].procs| && Unstarted(ss[m].procs[p], c, id)
    ensures Has(ss[m].procs[p], id) ==> Leads(ss[m].procs[p], id, c)
  {
    RegisteredUnstarted(ss, steps, i, n, p, c, id);
    RunUnstarted(ss, steps, i + 1, m, n, p, c, id);
    ReachableInv(ss, steps, m);
    assert ClaimedIsCurrent(ss[m].procs[p]);
    assert Claims(ss[m].procs[p].calls[c], id);
  }

  /** What the promise of a failed run has settled to when its callback is due. */
  function SettledTo(s: System, p: nat, c: CallId): Promise
    requires p < |s.procs| && IsRegistered(s.procs[p], c)
  {
    s.procs[p].calls[c].phase.entry.promise
  }

  /**
   The waiting parent of a child that fails its pre-flight is neither patched
   nor started, whenever the child's promise is asked for: until the callback it
   is the promise of the failed run, which settles without data, and after it,
   before the child is registered again, there is none, which is logged.
   */
  lemma FailedChildLeavesParent(
      ss: seq<System>, steps: seq<Step>, i: nat, n: nat, m: nat, p: nat, c: CallId, id: ExecutionId,
      patches: W.Operation, starts: W.Operation)
    requires FailsPreflight(ss, steps, i, n, p, c, id) && i < m <= |steps| && p < |ss[m].procs|
    requires n < m ==> NotRegistered(ss, steps, n + 1, m, p, id)
    ensures Has(ss[m].procs[p], id) ==> m <= n && Leads(ss[m].procs[p], id, c)
    ensures !SettledTo(ss[n], p, c).Pending?
    ensures var trace := W.ResumeTrace(Awaited(ss[m].procs[p], id, SettledTo(ss[n], p, c)), patches, starts);
      trace == if Has(ss[m].procs[p], id) && SettledTo(ss[n], p, c).Resolved? then [] else [W.Logged]
  {
    assert StepAt(ss, steps, n);
    LeadsToFailed(ss, steps, i, n, n, p, c, id);
    if n < m {
      GoneAfterFailure(ss, steps, i, n, m, p, c, id);
    } else {
      LeadsToFailed(ss, steps, i, n, m, p, c, id);
    }
  }
}
