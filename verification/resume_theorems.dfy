/** What holds in every run of the resume protocol. */
module ResumeTheorems {
  import opened Basics
  import opened Registry
  import opened ResumeProtocol
  import opened ResumeInvariant
  import opened ResumeRuns
  import opened ResumeCalls
  import opened SlotTheorems

  // ---- losing the race ----

  /** The losing call throws: its slot goes back and nothing else changes but who waits in the queue. */
  lemma LoserThrows(s: System, p: nat, c: CallId)
    requires Inv(s) && p < |s.procs| && InPhase(s.procs[p], c, Refused)
    ensures var P := s.procs[p]; var s' := Next(s, p, DoThrow(c)); var P' := s'.procs[p];
      && s'.store == s.store && P'.active == P.active && P'.responseModes == P.responseModes
      && InPhase(P', c, Failed) && !P'.calls[c].slot.Held?
      && (forall d :: d in P.calls && d != c && P.calls[d].phase.Registered? ==> P'.calls[d] == P.calls[d])
      && (P.calls[c].slot.Held? <==> !P.calls[c].mode.Evaluation?)
  {
    assert CallValid(s.procs[p].calls[c]);
    ThrowFrame(s.procs[p], c);
  }

  /** However the run goes on, a call that lost never appears in the registry and ends without a slot. */
  lemma LoserNeverRegisters(ss: seq<System>, steps: seq<Step>, i: nat, n: nat, p: nat, c: CallId, id: ExecutionId)
    requires Run(ss, steps) && i <= n <= |steps| && Lives(steps, i, n, p)
    requires p < |ss[i].procs| && (InPhase(ss[i].procs[p], c, Refused) || InPhase(ss[i].procs[p], c, Failed))
    ensures p < |ss[n].procs| && (InPhase(ss[n].procs[p], c, Refused) || InPhase(ss[n].procs[p], c, Failed))
    ensures id in ss[n].procs[p].active ==> ss[n].procs[p].active[id] != c
    ensures InPhase(ss[n].procs[p], c, Failed) ==> !ss[n].procs[p].calls[c].slot.Held?
  {
    CallDevelops(ss, steps, i, n, p, c);
    ReachableInv(ss, steps, n);
    assert Valid(ss[n].procs[p]) && CallValid(ss[n].procs[p].calls[c]);
    assert id in ss[n].procs[p].active ==> Has(ss[n].procs[p], id);
  }

  // ---- what a step does to a registration ----

  /** The registry leads from `id` to registration `c`. */
  predicate Leads(P: Process, id: ExecutionId, c: CallId) {
    id in P.active && P.active[id] == c
  }

  /** The event sets the status of registration `c` to `waiting`. */
  predicate Marks(P: Process, e: Event, c: CallId) {
    e.DoSetWaiting? && Target(P, e.call) && Leads(P, P.calls[e.call].target.value, c)
  }

  predicate Attaches(P: Process, e: Event, c: CallId) {
    e.DoAttachResponder? && Leads(P, e.id, c)
  }

  /** The promise of registration `c` settles once: it is rejected, or resolved by finalizing its id. */
  predicate PromiseStep(P: Process, e: Event, c: CallId, promise: Promise, promise': Promise) {
    || promise' == promise
    || promise' == Settle(promise, Rejected)
    || (e.DoFinalize? && Leads(P, e.id, c) && promise' == Settle(promise, Resolved(e.result)))
  }

  /** What a step keeps of a registration, apart from its callback and its engine. */
  predicate KeepsEntry(P: Process, e: Event, c: CallId, P': Process)
    requires IsRegistered(P, c)
  {
    && IsRegistered(P', c)
    && var x, y := P.calls[c].phase.entry, P'.calls[c].phase.entry;
       && y.startedAt == x.startedAt
       && (!Marks(P, e, c) ==> y.status == x.status)
       && (!Attaches(P, e, c) ==> y.responder == x.responder)
       && (e != DoEnqueue(c) ==> y.offloaded == x.offloaded)
       && PromiseStep(P, e, c, x.promise, y.promise)
  }

  lemma OneKeepsEntry(P: Process, e: Event, id: ExecutionId, cancelAll: bool, c: CallId)
    requires IsRegistered(P, c) && e.DoShutdown?
    ensures KeepsEntry(P, e, c, ShutdownOne(P, id, cancelAll))
  {
  }

  lemma EntryKept(P: Process, P1: Process, P2: Process, e: Event, c: CallId)
    requires IsRegistered(P, c) && e.DoShutdown? && KeepsEntry(P, e, c, P1) && KeepsEntry(P1, e, c, P2)
    ensures KeepsEntry(P, e, c, P2)
  {
  }

  lemma {:induction false} ShutdownKeepsEntry(P: Process, e: Event, ids: seq<ExecutionId>, cancelAll: bool, c: CallId)
    requires IsRegistered(P, c) && e.DoShutdown?
    ensures KeepsEntry(P, e, c, ShutdownEach(P, ids, cancelAll))
    decreases |ids|
  {
    if ids != [] {
      OneKeepsEntry(P, e, ids[0], cancelAll, c);
      var P1 := ShutdownOne(P, ids[0], cancelAll);
      ShutdownKeepsEntry(P1, e, ids[1..], cancelAll, c);
      EntryKept(P, P1, ShutdownEach(P, ids, cancelAll), e, c);
    }
  }

  lemma ThrowKeepsEntry(P: Process, d: CallId, c: CallId)
    requires WaitersValid(P) && IsRegistered(P, c) && (InPhase(P, d, Creating) || InPhase(P, d, Refused))
    ensures KeepsEntry(P, DoThrow(d), c, Throw(P, d))
  {
    ThrowFrame(P, d);
  }

  lemma CallbackKeepsEntry(P: Process, d: CallId, c: CallId)
    requires WaitersValid(P) && IsRegistered(P, c) && CallbackDue(P, d)
    ensures KeepsEntry(P, DoCallback(d), c, RunCallback(P, d))
  {
    CallbackFrame(P, d);
  }

  lemma RemoveKeepsEntry(P: Process, id: ExecutionId, c: CallId)
    requires WaitersValid(P) && IsRegistered(P, c)
    ensures KeepsEntry(P, DoRemoveQueued(id), c, RemoveQueued(P, id))
  {
    RemoveQueuedFrame(P, id);
  }

  lemma WithEntryKeeps(P: Process, e: Event, c: CallId, d: CallId, entry: Entry)
    requires IsRegistered(P, c) && IsRegistered(P, d)
    requires var x := P.calls[d].phase.entry;
      && entry.startedAt == x.startedAt && entry.offloaded == x.offloaded
      && (!Marks(P, e, d) ==> entry.status == x.status) && (!Attaches(P, e, d) ==> entry.responder == x.responder)
      && PromiseStep(P, e, d, x.promise, entry.promise)
    ensures KeepsEntry(P, e, c, WithEntry(P, d, entry))
  {
  }

  lemma EntryStepKeepsEntry(P: Process, e: Event, c: CallId)
    requires IsRegistered(P, c) && Enabled(Alone(P), 0, e)
    requires e.DoSetWaiting? || e.DoEndEngine? || e.DoAttachResponder? || e.DoFinalize? || e.DoStop? || e.DoRegister?
    ensures KeepsEntry(P, e, c, Local(P, e))
  {
    match e
    case DoSetWaiting(d) =>
      var id := P.calls[d].target.value;
      if Has(P, id) { WithEntryKeeps(P, e, c, P.active[id], Current(P, id).(status := Waiting)); }
    case DoEndEngine(d) => WithEntryKeeps(P, e, c, d, P.calls[d].phase.entry.(engine := false));
    case DoAttachResponder(id, responder) =>
      if Has(P, id) { WithEntryKeeps(P, e, c, P.active[id], Current(P, id).(responder := Some(responder))); }
    case DoFinalize(id, result) =>
      if Has(P, id) { WithEntryKeeps(P, e, c, P.active[id], Settled(P, id, Resolved(result))); }
    case DoStop(id) =>
      if Has(P, id) { WithEntryKeeps(P, e, c, P.active[id], Settled(P, id, Rejected)); }
    case _ =>
  }

  lemma LocalKeepsEntry(P: Process, e: Event, c: CallId)
    requires WaitersValid(P) && IsRegistered(P, c) && IsLocal(e) && !e.DoRestart? && Enabled(Alone(P), 0, e)
    ensures KeepsEntry(P, e, c, Local(P, e))
  {
    match e
    case DoSetWaiting(_) => EntryStepKeepsEntry(P, e, c);
    case DoEndEngine(_) => EntryStepKeepsEntry(P, e, c);
    case DoAttachResponder(_, _) => EntryStepKeepsEntry(P, e, c);
    case DoFinalize(_, _) => EntryStepKeepsEntry(P, e, c);
    case DoStop(_) => EntryStepKeepsEntry(P, e, c);
    case DoRegister(_, _) => EntryStepKeepsEntry(P, e, c);
    case DoCallback(d) => CallbackKeepsEntry(P, d, c);
    case DoThrow(d) => ThrowKeepsEntry(P, d, c);
    case DoRemoveQueued(i) => RemoveKeepsEntry(P, i, c);
    case DoShutdown(ids, cancelAll) => ShutdownKeepsEntry(Disable(P), e, ids, cancelAll, c);
    case _ =>
  }

  lemma SharedKeepsEntry(P: Process, e: Event, c: CallId, P': Process)
    requires IsRegistered(P, c) && !IsLocal(e) && SharedChange(P, e, P')
    ensures KeepsEntry(P, e, c, P')
  {
  }

  lemma StepKeepsEntry(s: System, p: nat, e: Event, q: nat, c: CallId)
    requires p < |s.procs| && q < |s.procs| && Enabled(s, p, e) && WaitersValid(s.procs[q])
    requires IsRegistered(s.procs[q], c)
    ensures p != q ==> Next(s, p, e).procs[q] == s.procs[q]
    ensures p == q && !e.DoRestart? ==> KeepsEntry(s.procs[q], e, c, Next(s, p, e).procs[q])
  {
    if p != q {
      OthersStay(s, p, e, q);
    } else if !e.DoRestart? {
      if IsLocal(e) {
        LocalNext(s, p, e);
        LocalKeepsEntry(s.procs[q], e, c);
      } else {
        SharedNext(s, p, e);
        SharedKeepsEntry(s.procs[q], e, c, Next(s, p, e).procs[q]);
      }
    }
  }

  lemma {:induction false} ShutdownRegistersNone(P: Process, ids: seq<ExecutionId>, cancelAll: bool, c: CallId)
    requires !IsRegistered(P, c)
    ensures !IsRegistered(ShutdownEach(P, ids, cancelAll), c)
    decreases |ids|
  {
    if ids != [] {
      ShutdownRegistersNone(ShutdownOne(P, ids[0], cancelAll), ids[1..], cancelAll, c);
    }
  }

  lemma ThrowRegistersNone(P: Process, d: CallId, c: CallId)
    requires WaitersValid(P) && !IsRegistered(P, c) && (InPhase(P, d, Creating) || InPhase(P, d, Refused))
    ensures !IsRegistered(Throw(P, d), c)
  {
    ThrowFrame(P, d);
  }

  lemma CallbackRegistersNone(P: Process, d: CallId, c: CallId)
    requires WaitersValid(P) && !IsRegistered(P, c) && CallbackDue(P, d)
    ensures !IsRegistered(RunCallback(P, d), c)
  {
    CallbackFrame(P, d);
  }

  lemma LocalRegistersNone(P: Process, e: Event, c: CallId)
    requires WaitersValid(P) && IsLocal(e) && Enabled(Alone(P), 0, e) && !IsRegistered(P, c)
    requires !(e.DoRegister? && e.call == c)
    ensures !IsRegistered(Local(P, e), c)
  {
    match e
    case DoCallback(d) => CallbackRegistersNone(P, d, c);
    case DoThrow(d) => ThrowRegistersNone(P, d, c);
    case DoRemoveQueued(i) => RemoveQueuedFrame(P, i);
    case DoShutdown(ids, cancelAll) => ShutdownRegistersNone(Disable(P), ids, cancelAll, c);
    case _ =>
  }

  /** A call is registered by its own `DoRegister` only, with an engine in this process. */
  lemma OnlyRegisterRegisters(s: System, p: nat, e: Event, q: nat, c: CallId)
    requires p < |s.procs| && q < |s.procs| && Enabled(s, p, e) && WaitersValid(s.procs[q])
    requires !IsRegistered(s.procs[q], c)
    ensures IsRegistered(Next(s, p, e).procs[q], c) ==>
      p == q && e.DoRegister? && e.call == c && !Next(s, p, e).procs[q].calls[c].phase.entry.offloaded
  {
    if p != q {
      OthersStay(s, p, e, q);
    } else if IsLocal(e) {
      LocalNext(s, p, e);
      if !(e.DoRegister? && e.call == c) {
        LocalRegistersNone(s.procs[q], e, c);
      }
    } else {
      SharedNext(s, p, e);
    }
  }

  // ---- statuses ----

  predicate HasStatus(P: Process, c: CallId, status: Status) {
    IsRegistered(P, c) && P.calls[c].phase.entry.status == status
  }

  lemma MarksOwn(s: System, p: nat, e: Event, c: CallId)
    requires Inv(s) && p < |s.procs| && Enabled(s, p, e) && e.DoSetWaiting? && Marks(s.procs[p], e, c)
    ensures e.call == c
  {
    assert ClaimedIsCurrent(s.procs[p]);
    assert Claims(s.procs[p].calls[e.call], s.procs[p].calls[e.call].target.value);
  }

  /** Nobody but its own engine changes the status of a registration. */
  lemma StaysRunning(s: System, p: nat, e: Event, q: nat, c: CallId, status: Status)
    requires Inv(s) && p < |s.procs| && q < |s.procs| && Enabled(s, p, e)
    requires HasStatus(s.procs[q], c, status)
    requires p == q ==> !e.DoRestart? && e != DoSetWaiting(c)
    ensures HasStatus(Next(s, p, e).procs[q], c, status)
  {
    assert Valid(s.procs[q]);
    StepKeepsEntry(s, p, e, q, c);
    if p == q && Marks(s.procs[q], e, c) {
      MarksOwn(s, p, e, c);
    }
  }

  lemma StatusStays(ss: seq<System>, steps: seq<Step>, k: nat, p: nat, c: CallId, status: Status)
    requires Run(ss, steps) && k < |steps| && p < |ss[k].procs| && HasStatus(ss[k].procs[p], c, status)
    requires steps[k].proc == p ==> !steps[k].event.DoRestart? && steps[k].event != DoSetWaiting(c)
    ensures p < |ss[k + 1].procs| && HasStatus(ss[k + 1].procs[p], c, status)
  {
    ReachableInv(ss, steps, k);
    assert StepAt(ss, steps, k);
    StaysRunning(ss[k], steps[k].proc, steps[k].event, p, c, status);
  }

  // ---- what a resumed registration takes over ----

  /** `id` is registered, since `startedAt`, with the response promise `responder`. */
  predicate Serves(P: Process, id: ExecutionId, startedAt: int, responder: Option<nat>) {
    Has(P, id) && Current(P, id).startedAt == startedAt && Current(P, id).responder == responder
  }

  /** After a step the registry leads to the same registration, or the step registered the execution again. */
  lemma StepKeepsActive(s: System, p: nat, e: Event, q: nat, id: ExecutionId)
    requires p < |s.procs| && q < |s.procs| && Enabled(s, p, e) && WaitersValid(s.procs[q])
    requires id in Next(s, p, e).procs[q].active
    ensures var P, P' := s.procs[q], Next(s, p, e).procs[q];
      || (id in P.active && P'.active[id] == P.active[id])
      || (p == q && e.DoRegister? && P.calls[e.call].target == Some(id))
  {
    if p != q {
      OthersStay(s, p, e, q);
    } else if IsLocal(e) {
      LocalNext(s, p, e);
      if !e.DoRegister? {
        LocalShrinks(s, p, e);
      }
    } else {
      SharedNext(s, p, e);
    }
  }

  /** The response promise of `id` is not replaced in process `p` by the steps `i` to `n`. */
  ghost predicate NotReattached(steps: seq<Step>, i: nat, n: nat, p: nat, id: ExecutionId)
    requires n <= |steps|
  {
    forall k :: i <= k < n ==> !(steps[k].proc == p && steps[k].event.DoAttachResponder? && steps[k].event.id == id)
  }

  /** Process `p` has `id` in its registry from state `i` to state `n`. */
  ghost predicate StaysActive(ss: seq<System>, i: nat, n: nat, p: nat, id: ExecutionId) {
    n < |ss| && forall k :: i <= k <= n ==> p < |ss[k].procs| && id in ss[k].procs[p].active
  }

  lemma RegisterServes(P: Process, c: CallId, now: int, id: ExecutionId, startedAt: int, responder: Option<nat>)
    requires InPhase(P, c, Claimed) && P.calls[c].target == Some(id) && Serves(P, id, startedAt, responder)
    ensures Serves(Register(P, c, now), id, startedAt, responder)
  {
  }

  lemma StepServes(s: System, step: Step, s': System, p: nat, id: ExecutionId, startedAt: int, responder: Option<nat>)
    requires step.proc < |s.procs| && Enabled(s, step.proc, step.event) && s' == Next(s, step.proc, step.event)
    requires p < |s.procs| && p < |s'.procs| && WaitersValid(s.procs[p]) && ActiveValid(s.procs[p])
    requires Serves(s.procs[p], id, startedAt, responder) && id in s'.procs[p].active
    requires step.proc == p ==> !step.event.DoRestart? && !(step.event.DoAttachResponder? && step.event.id == id)
    ensures Serves(s'.procs[p], id, startedAt, responder)
  {
    var P, e := s.procs[p], step.event;
    if step.proc == p && e.DoRegister? && P.calls[e.call].target == Some(id) {
      LocalNext(s, p, e);
      RegisterServes(P, e.call, e.now, id, startedAt, responder);
    } else {
      StepKeepsActive(s, step.proc, e, p, id);
      StepKeepsEntry(s, step.proc, e, p, P.active[id]);
      assert P.calls[P.active[id]].target == Some(id);
      assert e.DoAttachResponder? && e.id in P.active ==> P.calls[P.active[e.id]].target == Some(e.id);
    }
  }

  lemma RunServes(
      ss: seq<System>, steps: seq<Step>, k: nat, p: nat, id: ExecutionId, startedAt: int, responder: Option<nat>)
    requires Run(ss, steps) && k < |steps| && p < |ss[k].procs| && p < |ss[k + 1].procs|
    requires Serves(ss[k].procs[p], id, startedAt, responder) && id in ss[k + 1].procs[p].active
    requires steps[k].proc == p ==>
      !steps[k].event.DoRestart? && !(steps[k].event.DoAttachResponder? && steps[k].event.id == id)
    ensures Serves(ss[k + 1].procs[p], id, startedAt, responder)
  {
    ReachableInv(ss, steps, k);
    assert Valid(ss[k].procs[p]);
    assert StepAt(ss, steps, k);
    StepServes(ss[k], steps[k], ss[k + 1], p, id, startedAt, responder);
  }

  lemma {:induction false} ServesUpTo(
      ss: seq<System>, steps: seq<Step>, i: nat, k: nat, n: nat, p: nat, id: ExecutionId, startedAt: int,
      responder: Option<nat>)
    requires Run(ss, steps) && i <= k <= n <= |steps| && Lives(steps, i, n, p) && NotReattached(steps, i, n, p, id)
    requires p < |ss[i].procs| && Serves(ss[i].procs[p], id, startedAt, responder)
    requires StaysActive(ss, i, n, p, id)
    ensures p < |ss[k].procs| && Serves(ss[k].procs[p], id, startedAt, responder)
  {
    if i < k {
      ServesUpTo(ss, steps, i, k - 1, n, p, id, startedAt, responder);
      RunServes(ss, steps, k - 1, p, id, startedAt, responder);
    }
  }

  /**
   However often a process registers an execution again while it is in the
   registry, it keeps its first start time and the response promise that the
   caller attached.
   */
  lemma ResumesKeepStartAndResponder(
      ss: seq<System>, steps: seq<Step>, i: nat, n: nat, p: nat, id: ExecutionId, startedAt: int,
      responder: Option<nat>)
    requires Run(ss, steps) && i <= n <= |steps| && Lives(steps, i, n, p) && NotReattached(steps, i, n, p, id)
    requires p < |ss[i].procs| && Serves(ss[i].procs[p], id, startedAt, responder)
    requires StaysActive(ss, i, n, p, id)
    ensures p < |ss[n].procs| && Serves(ss[n].procs[p], id, startedAt, responder)
  {
    ServesUpTo(ss, steps, i, n, n, p, id, startedAt, responder);
  }

  // ---- registrations whose engine was handed to a job ----

  lemma LocalKeepsRegular(P: Process, e: Event)
    requires IsLocal(e) && Enabled(Alone(P), 0, e) && !e.DoRestart?
    ensures Local(P, e).regular == P.regular
  {
    match e
    case DoThrow(c) => ReleaseKeeps(P, c);
    case DoCallback(c) => ReleaseKeeps(P, c);
    case DoShutdown(ids, cancelAll) => ShutdownQueue(Disable(P), ids, cancelAll);
    case _ =>
  }

  lemma StepKeepsRegular(s: System, p: nat, e: Event, q: nat)
    requires p < |s.procs| && q < |s.procs| && Enabled(s, p, e) && !(p == q && e.DoRestart?)
    ensures Next(s, p, e).procs[q].regular == s.procs[q].regular
  {
    if p != q {
      OthersStay(s, p, e, q);
    } else if IsLocal(e) {
      LocalNext(s, p, e);
      LocalKeepsRegular(s.procs[q], e);
    } else {
      SharedNext(s, p, e);
    }
  }

  ghost predicate MarksAll(P: Process) {
    P.regular ==> forall c :: IsRegistered(P, c) ==> !P.calls[c].phase.entry.offloaded
  }

  lemma StepMarksAll(s: System, p: nat, e: Event, q: nat)
    requires p < |s.procs| && q < |s.procs| && Enabled(s, p, e) && WaitersValid(s.procs[q]) && MarksAll(s.procs[q])
    ensures MarksAll(Next(s, p, e).procs[q])
  {
    var P, P' := s.procs[q], Next(s, p, e).procs[q];
    if P'.regular && !(p == q && e.DoRestart?) {
      StepKeepsRegular(s, p, e, q);
      forall c | IsRegistered(P', c)
        ensures !P'.calls[c].phase.entry.offloaded
      {
        if IsRegistered(P, c) {
          StepKeepsEntry(s, p, e, q, c);
        } else {
          OnlyRegisterRegisters(s, p, e, q, c);
        }
      }
    }
  }

  /** In regular mode every engine runs in the process itself. */
  lemma {:induction false} RegularMarksAll(ss: seq<System>, steps: seq<Step>, n: nat, p: nat)
    requires Run(ss, steps) && n <= |steps| && p < |ss[n].procs|
    ensures MarksAll(ss[n].procs[p])
  {
    if n > 0 {
      assert StepAt(ss, steps, n - 1);
      RegularMarksAll(ss, steps, n - 1, p);
      ReachableInv(ss, steps, n - 1);
      assert Valid(ss[n - 1].procs[p]);
      StepMarksAll(ss[n - 1], steps[n - 1].proc, steps[n - 1].event, p);
    }
  }

  // ---- settle callbacks ----

  /** The id of registration `c` has since been registered again by another call of this process. */
  predicate Superseded(P: Process, c: CallId) {
    IsRegistered(P, c) && P.calls[c].target.value in P.active && P.active[P.calls[c].target.value] != c
  }

  /**
   A superseded registration is still waiting, or its engine was handed to a job,
   which happens in queue mode only. Its settle callback leaves the
   registry and the response modes alone exactly if it is marked as waiting.
   */
  lemma SupersededCallbackIsHarmless(ss: seq<System>, steps: seq<Step>, n: nat, p: nat, c: CallId)
    requires Run(ss, steps) && n <= |steps| && p < |ss[n].procs| && Superseded(ss[n].procs[p], c)
    ensures var P := ss[n].procs[p]; var entry := P.calls[c].phase.entry;
      && !entry.engine && (entry.status.Waiting? || entry.offloaded)
      && (P.regular ==> entry.status.Waiting?)
    ensures CallbackDue(ss[n].procs[p], c) ==>
      var P, P' := ss[n].procs[p], Next(ss[n], p, DoCallback(c)).procs[p];
      (P'.active == P.active && P'.responseModes == P.responseModes) <==> P.calls[c].phase.entry.status.Waiting?
  {
    ReachableInv(ss, steps, n);
    RegularMarksAll(ss, steps, n, p);
    var P := ss[n].procs[p];
    SupersededClaimsNothing(P, c);
    if CallbackDue(P, c) {
      assert Valid(P);
      CallbackFrame(P, c);
    }
  }

  lemma SupersededClaimsNothing(P: Process, c: CallId)
    requires ClaimedIsCurrent(P) && Superseded(P, c)
    ensures var entry := P.calls[c].phase.entry; !entry.engine && (entry.status.Waiting? || entry.offloaded)
  {
    assert !Claims(P.calls[c], P.calls[c].target.value);
  }

  lemma DoneEngineStep(ss: seq<System>, steps: seq<Step>, k: nat, p: nat, c: CallId, status: Status)
    requires Run(ss, steps) && k < |steps| && p < |ss[k].procs| && HasStatus(ss[k].procs[p], c, status)
    requires !ss[k].procs[p].calls[c].phase.entry.engine && !(steps[k].proc == p && steps[k].event.DoRestart?)
    ensures p < |ss[k + 1].procs| && HasStatus(ss[k + 1].procs[p], c, status)
  {
    assert StepAt(ss, steps, k);
    StatusStays(ss, steps, k, p, c, status);
  }

  lemma {:induction false} DoneEngineStatus(
      ss: seq<System>, steps: seq<Step>, i: nat, n: nat, p: nat, c: CallId, status: Status)
    requires Run(ss, steps) && i <= n <= |steps| && Lives(steps, i, n, p)
    requires p < |ss[i].procs| && HasStatus(ss[i].procs[p], c, status) && !ss[i].procs[p].calls[c].phase.entry.engine
    ensures p < |ss[n].procs| && HasStatus(ss[n].procs[p], c, status)
    ensures !ss[n].procs[p].calls[c].phase.entry.engine
  {
    CallDevelops(ss, steps, i, n, p, c);
    if i < n {
      DoneEngineStatus(ss, steps, i, n - 1, p, c, status);
      DoneEngineStep(ss, steps, n - 1, p, c, status);
    }
  }

  /** The status that a superseded registration has captured never changes; in regular mode it is `waiting` for ever. */
  lemma SupersededWaitsForEver(
      ss: seq<System>, steps: seq<Step>, i: nat, n: nat, p: nat, c: CallId, status: Status)
    requires Run(ss, steps) && i <= n <= |steps| && Lives(steps, i, n, p)
    requires p < |ss[i].procs| && Superseded(ss[i].procs[p], c) && HasStatus(ss[i].procs[p], c, status)
    ensures ss[i].procs[p].regular ==> status.Waiting?
    ensures p < |ss[n].procs| && HasStatus(ss[n].procs[p], c, status)
  {
    SupersededCallbackIsHarmless(ss, steps, i, p, c);
    DoneEngineStatus(ss, steps, i, n, p, c, status);
  }

  /**
   The callback of a registration that is not waiting removes that registration
   and no other, unless its engine was handed to a job: afterwards the id is
   unknown and the slot is returned.
   */
  lemma CallbackCleansUp(ss: seq<System>, steps: seq<Step>, n: nat, p: nat, c: CallId)
    requires Run(ss, steps) && n <= |steps| && p < |ss[n].procs| && CallbackDue(ss[n].procs[p], c)
    requires !ss[n].procs[p].calls[c].phase.entry.status.Waiting?
    ensures var P, P' := ss[n].procs[p], Next(ss[n], p, DoCallback(c)).procs[p]; var id := P.calls[c].target.value;
      && (id in P.active && P.active[id] != c ==> P.calls[c].phase.entry.offloaded && !P.regular)
      && P'.active == P.active - {id} && P'.responseModes == P.responseModes - {id}
      && !P'.calls[c].slot.Held?
  {
    ReachableInv(ss, steps, n);
    RegularMarksAll(ss, steps, n, p);
    var P := ss[n].procs[p];
    assert Valid(P);
    if Superseded(P, c) {
      SupersededClaimsNothing(P, c);
    }
    CallbackFrame(P, c);
  }

  lemma FinalizeSettlesCurrent(P: Process, id: ExecutionId, result: Result, c: CallId)
    requires Has(P, id) && IsRegistered(P, c) && c != P.active[id]
    ensures var P', d := Finalize(P, id, result), P.active[id];
      && P'.calls[c] == P.calls[c]
      && P' == WithEntry(P, d, Settled(P, id, Resolved(result)))
  {
  }

  /** An engine, in this process or as a job, works for the registration. */
  predicate Working(P: Process, c: CallId) {
    IsRegistered(P, c) && (P.calls[c].phase.entry.engine || P.calls[c].phase.entry.offloaded)
  }

  lemma CallbackDropsEntry(P: Process, d: CallId)
    requires WaitersValid(P) && CallbackDue(P, d) && Working(P, d)
    requires !P.calls[d].phase.entry.status.Waiting?
    ensures P.calls[d].target.value !in RunCallback(P, d).active && Working(RunCallback(P, d), d)
  {
    CallbackFrame(P, d);
  }

  /**
   In queue mode a resumed execution can lose its entry to the job of the run
   before: when that job finishes late, it settles the promise of the new
   registration, whose callback then removes the entry although its engine works.
   */
  lemma LateJobDropsResumed(P: Process, c: CallId, d: CallId, id: ExecutionId, result: Result)
    requires Valid(P) && Superseded(P, c) && P.calls[c].target == Some(id) && P.calls[c].phase.entry.promise.Pending?
    requires P.active[id] == d && Working(P, d) && HasStatus(P, d, Running)
    ensures var late := Finalize(P, id, result);
      && !CallbackDue(late, c) && CallbackDue(late, d)
      && id !in RunCallback(late, d).active && Working(RunCallback(late, d), d)
  {
    assert ActiveValid(P) && Has(P, id);
    FinalizeSettlesCurrent(P, id, result, c);
    CallbackDropsEntry(Finalize(P, id, result), d);
  }

  // ---- failing before the engine starts ----

  /** Between `i` and `n` the engine of registration `c` does not put it to wait. */
  ghost predicate NeverPutToWait(steps: seq<Step>, i: nat, n: nat, p: nat, c: CallId)
    requires n <= |steps|
  {
    forall k :: i <= k < n ==> steps[k] != Step(p, DoSetWaiting(c))
  }

  lemma {:induction false} RunStaysRunning(ss: seq<System>, steps: seq<Step>, i: nat, n: nat, p: nat, c: CallId)
    requires Run(ss, steps) && i <= n <= |steps| && Lives(steps, i, n, p) && NeverPutToWait(steps, i, n, p, c)
    requires p < |ss[i].procs| && HasStatus(ss[i].procs[p], c, Running)
    ensures p < |ss[n].procs| && HasStatus(ss[n].procs[p], c, Running)
  {
    if i < n {
      RunStaysRunning(ss, steps, i, n - 1, p, c);
      StatusStays(ss, steps, n - 1, p, c, Running);
    }
  }

  /**
   A run that fails before its engine starts, for a new execution or a resumed
   one: whatever else happens in between, once its settle callback has run it has
   left no registry entry, no response mode and no slot.
   */
  lemma PreflightFailureLeavesNothing(ss: seq<System>, steps: seq<Step>, i: nat, n: nat, p: nat, c: CallId, now: int)
    requires Run(ss, steps) && i < n < |steps|
    requires steps[i] == Step(p, DoRegister(c, now)) && steps[n] == Step(p, DoCallback(c))
    requires Lives(steps, i + 1, n, p) && NeverPutToWait(steps, i + 1, n, p, c)
    ensures p < |ss[n + 1].procs| && c in ss[n + 1].procs[p].calls && ss[n + 1].procs[p].calls[c].target.Some?
    ensures var P := ss[n + 1].procs[p]; var id := P.calls[c].target.value;
      id !in P.active && id !in P.responseModes && !P.calls[c].slot.Held?
  {
    assert StepAt(ss, steps, n);
    assert StepAt(ss, steps, i);
    RunStaysRunning(ss, steps, i + 1, n, p, c);
    CallbackCleansUp(ss, steps, n, p, c);
    ReachableInv(ss, steps, n);
    StepDevelops(ss[n], p, DoCallback(c), p);
  }

  /** Finalizing an execution makes the callback of a pending registration due exactly if it is the current one. */
  lemma FinalizeMakesCallbackDue(s: System, p: nat, c: CallId, result: Result)
    requires Inv(s) && p < |s.procs| && IsRegistered(s.procs[p], c)
    requires s.procs[p].calls[c].phase.entry.promise.Pending? && !s.procs[p].calls[c].phase.entry.settled
    ensures var P := s.procs[p]; var id := P.calls[c].target.value;
      CallbackDue(Next(s, p, DoFinalize(id, result)).procs[p], c) <==> id in P.active && P.active[id] == c
  {
    var P := s.procs[p];
    assert Valid(P) && ActiveValid(P);
  }
}
