/**
 Executions that are not stored as waiting although no call drives them. Once
 that is so it stays so, whatever other status is stored: the guarded update
 never matches again, so nobody ever resumes or drives them.
 */
module StrandedExecutions {
  import opened Basics
  import opened Concurrency
  import opened Registry
  import opened ResumeProtocol
  import opened ResumeInvariant
  import opened ResumeRuns

  /** `id` is stored, not as `waiting`, no job works for it, and no call of any process drives it or may come to. */
  ghost predicate Stranded(s: System, id: ExecutionId) {
    id in s.store && !s.store[id].Waiting? && id !in s.jobs && forall p, c :: !Claimant(s, p, c, id)
  }

  lemma ShrinkKeepsStranded(s: System, p: nat, P': Process, store': map<ExecutionId, Status>, id: ExecutionId)
    requires p < |s.procs| && Shrinks(s.procs[p], P') && NoNewWaiting(s.store, store') && Stranded(s, id)
    ensures Stranded(s.(store := store', procs := s.procs[p := P']), id)
  {
    var s' := s.(store := store', procs := s.procs[p := P']);
    forall q, c
      ensures !Claimant(s', q, c, id)
    {
      assert !Claimant(s, q, c, id);
    }
  }

  /** A step that changes one call, which then claims `id` only if it did before. */
  lemma OneCallKeepsStranded(s: System, s': System, p: nat, c: CallId, id: ExecutionId)
    requires p < |s.procs| && Stranded(s, id) && NoNewWaiting(s.store, s'.store) && s'.jobs == s.jobs
    requires |s'.procs| == |s.procs| && forall q :: 0 <= q < |s.procs| && q != p ==> s'.procs[q] == s.procs[q]
    requires c in s'.procs[p].calls && s'.procs[p].calls == s.procs[p].calls[c := s'.procs[p].calls[c]]
    requires !Claims(s'.procs[p].calls[c], id)
    ensures Stranded(s', id)
  {
    forall q, d
      ensures !Claimant(s', q, d, id)
    {
      assert !Claimant(s, q, d, id);
    }
  }

  lemma SharedKeepsStranded(s: System, p: nat, e: Event, id: ExecutionId)
    requires p < |s.procs| && Enabled(s, p, e) && Stranded(s, id)
    requires e.DoCreate? || e.DoWrite? || e.DoFailWrite? || e.DoRegister?
    ensures Stranded(Next(s, p, e), id)
  {
    assert !Claimant(s, p, e.call, id);
    OneCallKeepsStranded(s, Next(s, p, e), p, e.call, id);
  }

  lemma StoreWaitingKeepsStranded(s: System, p: nat, c: CallId, id: ExecutionId)
    requires p < |s.procs| && Enabled(s, p, DoStoreWaiting(c)) && Stranded(s, id)
    ensures Stranded(Next(s, p, DoStoreWaiting(c)), id)
  {
    var P := s.procs[p];
    assert !Claimant(s, p, c, id);
    EntryShrinks(P, c, P.calls[c].phase.entry.(engine := false));
    ShrinkKeepsStranded(s, p, EngineDone(P, c), s.store, id);
    assert forall q, d :: Claimant(Next(s, p, DoStoreWaiting(c)), q, d, id) ==>
      Claimant(s.(store := s.store, procs := s.procs[p := EngineDone(P, c)]), q, d, id);
  }

  lemma EnqueueKeepsStranded(s: System, p: nat, c: CallId, id: ExecutionId)
    requires p < |s.procs| && Enabled(s, p, DoEnqueue(c)) && Stranded(s, id)
    ensures Stranded(Next(s, p, DoEnqueue(c)), id)
  {
    var P := s.procs[p];
    assert !Claimant(s, p, c, id);
    EntryShrinks(P, c, P.calls[c].phase.entry.(engine := false, offloaded := true));
    ShrinkKeepsStranded(s, p, Offload(P, c), s.store, id);
    assert forall q, d :: Claimant(Next(s, p, DoEnqueue(c)), q, d, id) ==>
      Claimant(s.(store := s.store, procs := s.procs[p := Offload(P, c)]), q, d, id);
  }

  lemma JobKeepsStranded(s: System, p: nat, e: Event, id: ExecutionId)
    requires p < |s.procs| && Enabled(s, p, e) && (e.DoJobWaits? || e.DoJobEnds?) && Stranded(s, id)
    ensures Stranded(Next(s, p, e), id)
  {
    var s' := Next(s, p, e);
    forall q, d
      ensures !Claimant(s', q, d, id)
    {
      assert !Claimant(s, q, d, id);
    }
  }

  lemma StepKeepsStranded(s: System, p: nat, e: Event, id: ExecutionId)
    requires p < |s.procs| && Enabled(s, p, e) && WaitersValid(s.procs[p]) && Stranded(s, id)
    ensures Stranded(Next(s, p, e), id)
  {
    var P := s.procs[p];
    match e
    case DoCreate(_, _) => SharedKeepsStranded(s, p, e, id);
    case DoWrite(_) => SharedKeepsStranded(s, p, e, id);
    case DoFailWrite(_, _) => SharedKeepsStranded(s, p, e, id);
    case DoRegister(_, _) => SharedKeepsStranded(s, p, e, id);
    case DoStoreWaiting(c) => StoreWaitingKeepsStranded(s, p, c, id);
    case DoEnqueue(c) => EnqueueKeepsStranded(s, p, c, id);
    case DoJobWaits(_) => JobKeepsStranded(s, p, e, id);
    case DoJobEnds(_) => JobKeepsStranded(s, p, e, id);
    case DoStore(i, status) =>
      ShrinkKeepsStranded(s, p, P, s.store[i := status], id);
      assert s.procs[p := P] == s.procs;
    case _ =>
      LocalShrinks(s, p, e);
      ShrinkKeepsStranded(s, p, Local(P, e), s.store, id);
  }

  /** A stranded execution stays so in every continuation of the run: nobody drives it, and it never waits again. */
  lemma {:induction false} StrandedForEver(ss: seq<System>, steps: seq<Step>, i: nat, n: nat, id: ExecutionId)
    requires Run(ss, steps) && i <= n <= |steps| && Stranded(ss[i], id)
    ensures Stranded(ss[n], id)
  {
    if i < n {
      assert StepAt(ss, steps, n - 1);
      StrandedForEver(ss, steps, i, n - 1, id);
      ReachableInv(ss, steps, n - 1);
      assert Valid(ss[n - 1].procs[steps[n - 1].proc]);
      StepKeepsStranded(ss[n - 1], steps[n - 1].proc, steps[n - 1].event, id);
    }
  }

  /** The guarded update of a resume is committed, but its answer is lost. */
  predicate LosesAnswer(s: System, step: Step, id: ExecutionId) {
    step.event.DoFailWrite? && Resumes(s, step, id)
  }

  lemma LostAnswerStrands(s: System, step: Step, id: ExecutionId)
    requires Inv(s) && LosesAnswer(s, step, id)
    ensures Stranded(Next(s, step.proc, step.event), id)
  {
    var s' := Next(s, step.proc, step.event);
    forall q, d
      ensures !Claimant(s', q, d, id)
    {
      assert !Claimant(s, q, d, id);
    }
  }

  /**
   The resume whose answer is lost throws, yet from then on every attempt to
   resume the execution, in any process and with any number of retries, finds it
   taken; no engine ever works for it.
   */
  lemma LostAnswerIsForEver(ss: seq<System>, steps: seq<Step>, i: nat, n: nat, id: ExecutionId, q: nat, d: CallId)
    requires Run(ss, steps) && i < n < |steps| && LosesAnswer(ss[i], steps[i], id)
    ensures !Resumes(ss[n], steps[n], id)
    ensures id in ss[n].store && !ss[n].store[id].Waiting? && id !in ss[n].jobs
    ensures q < |ss[n].procs| && Engine(ss[n].procs[q], d) ==> ss[n].procs[q].calls[d].target != Some(id)
  {
    assert StepAt(ss, steps, i);
    ReachableInv(ss, steps, i);
    LostAnswerStrands(ss[i], steps[i], id);
    StrandedForEver(ss, steps, i + 1, n, id);
    assert !Claimant(ss[n], q, d, id);
  }

  /**
   Exactly which executions a restart strands: those that no job works for and
   no other process claims. A job goes on without the process that enqueued it.
   */
  lemma RestartStrandsIff(s: System, p: nat, e: Event, id: ExecutionId)
    requires p < |s.procs| && e.DoRestart?
    ensures Stranded(Next(s, p, e), id) <==>
      && id in s.store && !s.store[id].Waiting? && id !in s.jobs
      && forall q, d :: q != p ==> !Claimant(s, q, d, id)
  {
    var s' := Next(s, p, e);
    forall q, d
      ensures Claimant(s', q, d, id) <==> q != p && Claimant(s, q, d, id)
    {
    }
    if forall q, d :: q != p ==> !Claimant(s, q, d, id) {
      assert forall q, d :: !Claimant(s', q, d, id);
    }
  }

  /** In particular it strands all that the process itself was driving or had throttled. */
  lemma RestartStrands(s: System, p: nat, e: Event, c: CallId, id: ExecutionId)
    requires Inv(s) && Claimant(s, p, c, id) && e.DoRestart?
    ensures Stranded(Next(s, p, e), id)
  {
    RestartStrandsIff(s, p, e, id);
    assert id !in s.jobs;
  }

  /** Over any run with any restarts: a job works for its execution until it puts it to wait or ends. */
  lemma {:induction false} JobOutlivesRestarts(ss: seq<System>, steps: seq<Step>, i: nat, n: nat, id: ExecutionId)
    requires Run(ss, steps) && i <= n <= |steps| && id in ss[i].jobs
    requires forall k :: i <= k < n ==> steps[k].event != DoJobWaits(id) && steps[k].event != DoJobEnds(id)
    ensures id in ss[n].jobs && !Stranded(ss[n], id)
    ensures forall p: nat :: p < |ss[n].procs| ==>
      Enabled(ss[n], p, DoJobWaits(id)) && Next(ss[n], p, DoJobWaits(id)).store == ss[n].store[id := Waiting]
  {
    if i < n {
      assert StepAt(ss, steps, n - 1);
      JobOutlivesRestarts(ss, steps, i, n - 1, id);
    }
  }

  // ---- exactly what strands an execution ----

  /** The call named by the queue entry of `id` is the one that the removal takes out. */
  predicate RemovesCall(P: Process, id: ExecutionId, c: CallId) {
    var k := IndexOf(P.queue.waiting, id);
    P.enabled && k < |P.queue.waiting| && P.queue.waiting[k].call == c
  }

  /**
   The step takes the last claim of `id` away: the restart of the process that
   claims it; a status write that throws, unless the claim of a waiting execution
   did not match or was not committed; its job that ends; its engine that ends
   although it was marked as waiting or handed over; its removal from the queue
   when it is new; or a status that overwrites `waiting`.
   */
  ghost predicate Abandons(s: System, step: Step, id: ExecutionId) {
    && step.proc < |s.procs| && id in s.store
    && var P := s.procs[step.proc];
       match step.event
       case DoRestart(_, _, _, _) => exists c :: Claimant(s, step.proc, c, id)
       case DoFailWrite(c, committed) =>
         && Target(P, c) && P.calls[c].target == Some(id)
         && (P.calls[c].resuming ==> committed && s.store[id].Waiting?)
       case DoJobEnds(i) => i == id && id in s.jobs
       case DoEndEngine(c) =>
         && Engine(P, c) && P.calls[c].target == Some(id)
         && (P.calls[c].phase.entry.status.Waiting? || P.calls[c].phase.entry.offloaded)
       case DoRemoveQueued(i) =>
         exists c :: RemovesCall(P, i, c) && Target(P, c) && P.calls[c].target == Some(id) && !P.calls[c].resuming
       case DoStore(i, _) => i == id && s.store[id].Waiting?
       case _ => false
  }

  /** Call `c`, if it claims `id`, still does so in `P'`. */
  predicate KeepsClaim(P: Process, P': Process, c: CallId, id: ExecutionId) {
    c in P.calls && Claims(P.calls[c], id) ==> c in P'.calls && Claims(P'.calls[c], id)
  }

  lemma {:induction false} ShutdownKeepsClaim(P: Process, ids: seq<ExecutionId>, cancelAll: bool, c: CallId, id: ExecutionId)
    ensures KeepsClaim(P, ShutdownEach(P, ids, cancelAll), c, id)
    decreases |ids|
  {
    if ids != [] {
      ShutdownKeepsClaim(ShutdownOne(P, ids[0], cancelAll), ids[1..], cancelAll, c, id);
    }
  }

  /** A queued call that is granted its slot keeps its claim. */
  lemma QueuedKeepsClaim(P: Process, P': Process, c: CallId, id: ExecutionId)
    requires c in P.calls && c in P'.calls
    requires P'.calls[c] == P.calls[c] || (P.calls[c].phase.Queued? && P'.calls[c] == WithSlot(P, P.calls[c]))
    ensures KeepsClaim(P, P', c, id)
  {
  }

  lemma RemovalKeepsClaimIff(P: Process, i: ExecutionId, c: CallId, id: ExecutionId)
    requires WaitersValid(P) && c in P.calls && Claims(P.calls[c], id)
    ensures c in RemoveQueued(P, i).calls
    ensures Claims(RemoveQueued(P, i).calls[c], id) <==> !RemovesCall(P, i, c)
  {
    var k := IndexOf(P.queue.waiting, i);
    if P.enabled && k < |P.queue.waiting| {
      SplicedWaiters(P, k);
      assert InPhase(P, P.queue.waiting[k].call, Queued);
    }
  }

  lemma EntryKeepsClaim(P: Process, d: CallId, e: Entry, c: CallId, id: ExecutionId)
    requires IsRegistered(P, d)
    requires var x := P.calls[d].phase.entry;
      e.engine == x.engine && (e.engine || (e.status == x.status && e.offloaded == x.offloaded))
    ensures KeepsClaim(P, WithEntry(P, d, e), c, id)
  {
  }

  lemma EntryStepKeepsClaim(s: System, p: nat, e: Event, c: CallId, id: ExecutionId)
    requires p < |s.procs| && Enabled(s, p, e) && ClaimedIsCurrent(s.procs[p]) && ActiveValid(s.procs[p])
    requires e.DoSetWaiting? || e.DoEndEngine? || e.DoAttachResponder? || e.DoFinalize? || e.DoStop?
    requires Claimant(s, p, c, id) && id in s.store && !Abandons(s, Step(p, e), id)
    ensures KeepsClaim(s.procs[p], Local(s.procs[p], e), c, id)
  {
    var P := s.procs[p];
    match e
    case DoSetWaiting(d) =>
      var i := P.calls[d].target.value;
      assert Claims(P.calls[d], i);
      if Has(P, i) { EntryKeepsClaim(P, P.active[i], Current(P, i).(status := Waiting), c, id); }
    case DoAttachResponder(i, responder) =>
      if Has(P, i) { EntryKeepsClaim(P, P.active[i], Current(P, i).(responder := Some(responder)), c, id); }
    case DoFinalize(i, result) =>
      if Has(P, i) { EntryKeepsClaim(P, P.active[i], Settled(P, i, Resolved(result)), c, id); }
    case DoStop(i) =>
      if Has(P, i) { EntryKeepsClaim(P, P.active[i], Settled(P, i, Rejected), c, id); }
    case _ =>
  }

  /** A step of its own process that does not abandon it leaves a claimed execution claimed by the same call. */
  lemma LocalKeepsClaim(s: System, p: nat, e: Event, c: CallId, id: ExecutionId)
    requires p < |s.procs| && Enabled(s, p, e) && IsLocal(e) && Valid(s.procs[p]) && ClaimedIsCurrent(s.procs[p])
    requires Claimant(s, p, c, id) && id in s.store && !Abandons(s, Step(p, e), id)
    ensures KeepsClaim(s.procs[p], Local(s.procs[p], e), c, id)
  {
    var P := s.procs[p];
    match e
    case DoThrow(d) => ThrowFrame(P, d); QueuedKeepsClaim(P, Throw(P, d), c, id);
    case DoCallback(d) => CallbackKeepsClaim(P, d, c, id);
    case DoSetWaiting(_) => EntryStepKeepsClaim(s, p, e, c, id);
    case DoEndEngine(_) => EntryStepKeepsClaim(s, p, e, c, id);
    case DoAttachResponder(_, _) => EntryStepKeepsClaim(s, p, e, c, id);
    case DoFinalize(_, _) => EntryStepKeepsClaim(s, p, e, c, id);
    case DoStop(_) => EntryStepKeepsClaim(s, p, e, c, id);
    case DoRemoveQueued(i) => RemovalKeepsClaimIff(P, i, c, id);
    case DoShutdown(ids, cancelAll) => ShutdownKeepsClaim(Disable(P), ids, cancelAll, c, id);
    case _ =>
  }

  lemma CallbackKeepsClaim(P: Process, d: CallId, c: CallId, id: ExecutionId)
    requires WaitersValid(P) && CallbackDue(P, d)
    ensures KeepsClaim(P, RunCallback(P, d), c, id)
  {
    CallbackFrame(P, d);
    if c in P.calls && c != d {
      QueuedKeepsClaim(P, RunCallback(P, d), c, id);
    }
  }

  lemma SharedKeepsClaim(s: System, step: Step, c: CallId, id: ExecutionId)
    requires Inv(s) && step.proc < |s.procs| && Enabled(s, step.proc, step.event) && !IsLocal(step.event)
    requires Claimant(s, step.proc, c, id) && !Abandons(s, step, id)
    ensures var s' := Next(s, step.proc, step.event);
      Claimant(s', step.proc, c, id) || id in s'.jobs || (id in s'.store && s'.store[id].Waiting?)
  {
  }

  /** A step that does not abandon it leaves a claimed execution claimed, handed to a job, or waiting. */
  lemma ClaimedStays(s: System, step: Step, q: nat, c: CallId, id: ExecutionId)
    requires Inv(s) && step.proc < |s.procs| && Enabled(s, step.proc, step.event)
    requires Claimant(s, q, c, id) && !Abandons(s, step, id)
    ensures !Stranded(Next(s, step.proc, step.event), id)
  {
    var p, e, s' := step.proc, step.event, Next(s, step.proc, step.event);
    if p != q {
      OthersStay(s, p, e, q);
      assert Claimant(s', q, c, id);
    } else if IsLocal(e) {
      LocalNext(s, p, e);
      LocalKeepsClaim(s, p, e, c, id);
      assert Claimant(s', q, c, id);
    } else {
      SharedKeepsClaim(s, step, c, id);
    }
  }

  /** The same for an execution that no call claims: it waits, is a job's, or does not exist yet. */
  lemma UnclaimedStays(s: System, step: Step, id: ExecutionId)
    requires Inv(s) && step.proc < |s.procs| && Enabled(s, step.proc, step.event)
    requires !Stranded(s, id) && (forall q, c :: !Claimant(s, q, c, id)) && !Abandons(s, step, id)
    ensures !Stranded(Next(s, step.proc, step.event), id)
  {
    var p, e, s' := step.proc, step.event, Next(s, step.proc, step.event);
    match e
    case DoCreate(c, i) =>
      assert Valid(s.procs[p]) && CallValid(s.procs[p].calls[c]);
      assert Claimant(s', p, c, i);
    case DoWrite(c) =>
      assert !Claimant(s, p, c, id);
      if s.procs[p].calls[c].target == Some(id) && WriteMatches(s, s.procs[p].calls[c]) {
        assert Claimant(s', p, c, id);
      }
    case DoFailWrite(c, _) => assert !Claimant(s, p, c, id);
    case DoStoreWaiting(c) => assert !Claimant(s, p, c, id);
    case _ =>
  }

  /** Call `c` loses the only claim of `id`, and no call gains one. */
  lemma OneClaimLost(s: System, s': System, p: nat, c: CallId, id: ExecutionId)
    requires Inv(s) && Claimant(s, p, c, id) && !Claimant(s', p, c, id)
    requires |s'.procs| == |s.procs| && p < |s.procs| && Shrinks(s.procs[p], s'.procs[p])
    requires forall q :: 0 <= q < |s.procs| && q != p ==> s'.procs[q] == s.procs[q]
    requires NoNewWaiting(s.store, s'.store) && s'.jobs == s.jobs
    ensures Stranded(s', id)
  {
    forall q, d
      ensures !Claimant(s', q, d, id)
    {
      assert Claimant(s', q, d, id) ==> Claimant(s, q, d, id);
    }
  }

  lemma FailedWriteStrands(s: System, step: Step, id: ExecutionId)
    requires Inv(s) && step.proc < |s.procs| && Enabled(s, step.proc, step.event) && step.event.DoFailWrite?
    requires Abandons(s, step, id)
    ensures Stranded(Next(s, step.proc, step.event), id)
  {
    var p, c, P := step.proc, step.event.call, s.procs[step.proc];
    if P.calls[c].resuming {
      LostAnswerStrands(s, step, id);
    } else {
      CallsShrink(P, Written(P, c, false));
      assert Claimant(s, p, c, id);
      OneClaimLost(s, Next(s, p, step.event), p, c, id);
    }
  }

  lemma LocalStrands(s: System, step: Step, c: CallId, id: ExecutionId)
    requires Inv(s) && step.proc < |s.procs| && Enabled(s, step.proc, step.event)
    requires (step.event.DoEndEngine? && step.event.call == c) ||
      (step.event.DoRemoveQueued? && RemovesCall(s.procs[step.proc], step.event.id, c))
    requires Claimant(s, step.proc, c, id) && Abandons(s, step, id)
    ensures Stranded(Next(s, step.proc, step.event), id)
  {
    var p, e, P := step.proc, step.event, s.procs[step.proc];
    assert Valid(P);
    LocalNext(s, p, e);
    LocalShrinks(s, p, e);
    if e.DoRemoveQueued? {
      RemovalKeepsClaimIff(P, e.id, c, id);
    }
    OneClaimLost(s, Next(s, p, e), p, c, id);
  }

  lemma UnclaimedStrands(s: System, step: Step, id: ExecutionId)
    requires Inv(s) && step.proc < |s.procs| && Enabled(s, step.proc, step.event) && Abandons(s, step, id)
    requires step.event.DoJobEnds? || step.event.DoStore?
    ensures Stranded(Next(s, step.proc, step.event), id)
  {
    forall q, d
      ensures !Claimant(Next(s, step.proc, step.event), q, d, id)
    {
      assert !Claimant(s, q, d, id);
    }
  }

  /** A step that abandons an execution strands it. */
  lemma AbandonedIsStranded(s: System, step: Step, id: ExecutionId)
    requires Inv(s) && step.proc < |s.procs| && Enabled(s, step.proc, step.event) && Abandons(s, step, id)
    ensures Stranded(Next(s, step.proc, step.event), id)
  {
    var p, e, P := step.proc, step.event, s.procs[step.proc];
    match e
    case DoRestart(_, _, _, _) =>
      var c :| Claimant(s, p, c, id);
      RestartStrands(s, p, e, c, id);
    case DoFailWrite(_, _) => FailedWriteStrands(s, step, id);
    case DoEndEngine(c) =>
      assert Claimant(s, p, c, id);
      LocalStrands(s, step, c, id);
    case DoRemoveQueued(i) =>
      var c :| RemovesCall(P, i, c) && Target(P, c) && P.calls[c].target == Some(id) && !P.calls[c].resuming;
      assert Valid(P) && InPhase(P, c, Queued);
      assert Claimant(s, p, c, id);
      LocalStrands(s, step, c, id);
    case DoJobEnds(_) => UnclaimedStrands(s, step, id);
    case DoStore(_, _) => UnclaimedStrands(s, step, id);
    case _ =>
  }

  /** Of an execution that is not stranded: a step strands it exactly if it abandons it. */
  lemma StepStrandsIff(s: System, step: Step, id: ExecutionId)
    requires Inv(s) && step.proc < |s.procs| && Enabled(s, step.proc, step.event) && !Stranded(s, id)
    ensures Stranded(Next(s, step.proc, step.event), id) <==> Abandons(s, step, id)
  {
    if Abandons(s, step, id) {
      AbandonedIsStranded(s, step, id);
    } else if q, c :| Claimant(s, q, c, id) {
      ClaimedStays(s, step, q, c, id);
    } else {
      UnclaimedStays(s, step, id);
    }
  }

  /**
   Over any run: an execution that was not stranded at `i` is stranded at `n`
   exactly if some step in between abandoned it. Nothing that happens later
   repairs that.
   */
  lemma {:induction false} StrandedIff(ss: seq<System>, steps: seq<Step>, i: nat, n: nat, id: ExecutionId)
    requires Run(ss, steps) && i <= n <= |steps| && !Stranded(ss[i], id)
    ensures Stranded(ss[n], id) <==> exists k :: i <= k < n && Abandons(ss[k], steps[k], id)
  {
    if i < n {
      var last := n - 1;
      assert StepAt(ss, steps, last);
      StrandedIff(ss, steps, i, last, id);
      ReachableInv(ss, steps, last);
      if Stranded(ss[last], id) {
        StrandedForEver(ss, steps, last, n, id);
      } else {
        StepStrandsIff(ss[last], steps[last], id);
      }
    }
  }

  /**
   An execution that was throttled when its process restarted is never run: the
   start-up code that takes it up again calls `add` with its id, as a resume does,
   and its guarded update does not match, since the execution never waited.
   */
  lemma EnqueuedIsNeverRun(
      ss: seq<System>, steps: seq<Step>, i: nat, n: nat, p: nat, c: CallId, id: ExecutionId, q: nat, d: CallId)
    requires Run(ss, steps) && i < n < |steps| && steps[i].proc == p && steps[i].event.DoRestart?
    requires p < |ss[i].procs|
    requires InPhase(ss[i].procs[p], c, Queued) && !ss[i].procs[p].calls[c].resuming
    requires ss[i].procs[p].calls[c].target == Some(id)
    requires q < |ss[n].procs| && d in ss[n].procs[q].calls && ss[n].procs[q].calls[d].target == Some(id)
    ensures !Engine(ss[n].procs[q], d) && !Resumes(ss[n], steps[n], id) && id !in ss[n].jobs
    ensures ss[n].procs[q].calls[d].resuming ==> !WriteMatches(ss[n], ss[n].procs[q].calls[d])
  {
    assert StepAt(ss, steps, i);
    ReachableInv(ss, steps, i);
    assert Claimant(ss[i], p, c, id);
    RestartStrands(ss[i], p, steps[i].event, c, id);
    StrandedForEver(ss, steps, i + 1, n, id);
    assert !Claimant(ss[n], q, d, id);
  }
}
