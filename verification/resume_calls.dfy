/** How one call of `add` develops in one step: phase, slot, promise and start time only move forward. */
module ResumeCalls {
  import opened Basics
  import opened Registry
  import opened ResumeProtocol

  /** The call has got past the queue, or has left it for good. */
  predicate PastQueue(phase: Phase) {
    !phase.Creating? && !phase.Reserving? && !phase.Queued?
  }

  /** Allowed developments of one call: phases and slots only move forward. */
  predicate Develops(call: Call, call': Call) {
    && call'.mode == call.mode && call'.resuming == call.resuming
    && (call.target.Some? ==> call'.target == call.target)
    && (call.slot.Returned? ==> call'.slot.Returned?)
    && (call.slot.Held? ==> !call'.slot.Never?)
    && match call.phase
       case Registered(e) =>
         && call'.phase.Registered?
         && (e.status.Waiting? ==> call'.phase.entry.status.Waiting?)
         && (call'.phase.entry.engine ==> e.engine)
         && (e.offloaded ==> call'.phase.entry.offloaded)
         && (e.settled ==> call'.phase.entry.settled)
         && (!e.promise.Pending? ==> call'.phase.entry.promise == e.promise)
         && call'.phase.entry.startedAt == e.startedAt
       case Queued => call'.phase.Queued? || PastQueue(call'.phase)
       case Writing => PastQueue(call'.phase) && !call'.phase.Abandoned?
       case Claimed => call'.phase.Claimed? || call'.phase.Registered?
       case Refused => call'.phase.Refused? || call'.phase.Failed?
       case Failed => call'.phase.Failed?
       case Abandoned => call'.phase.Abandoned?
       case _ => true
  }

  ghost predicate AllDevelop(P: Process, P': Process) {
    forall c :: c in P.calls ==> c in P'.calls && Develops(P.calls[c], P'.calls[c])
  }

  lemma {:induction false} ShutdownDevelops(P: Process, ids: seq<ExecutionId>, cancelAll: bool)
    ensures AllDevelop(P, ShutdownEach(P, ids, cancelAll))
    decreases |ids|
  {
    if ids != [] {
      ShutdownDevelops(ShutdownOne(P, ids[0], cancelAll), ids[1..], cancelAll);
    }
  }

  lemma CallsDevelop(P: Process, P': Process)
    requires CallsValid(P) && P.calls.Keys == P'.calls.Keys
    requires forall c :: c in P.calls ==>
      || P'.calls[c] == P.calls[c]
      || (P.calls[c].phase.Queued? && P'.calls[c] in {WithSlot(P, P.calls[c]), P.calls[c].(phase := Abandoned)})
      || Develops(P.calls[c], P'.calls[c])
    ensures AllDevelop(P, P')
  {
    forall c | c in P.calls
      ensures Develops(P.calls[c], P'.calls[c])
    {
      assert CallValid(P.calls[c]);
    }
  }

  lemma ThrottleDevelops(P: Process, c: CallId)
    requires CallsValid(P) && InPhase(P, c, Reserving) && Target(P, c)
    ensures AllDevelop(P, Throttle(P, c))
  {
    CallsDevelop(P, Throttle(P, c));
  }

  lemma RegisterDevelops(P: Process, c: CallId, now: int)
    requires CallsValid(P) && InPhase(P, c, Claimed) && Target(P, c)
    ensures AllDevelop(P, Register(P, c, now))
  {
    CallsDevelop(P, Register(P, c, now));
  }

  lemma ThrowDevelops(P: Process, c: CallId)
    requires CallsValid(P) && WaitersValid(P) && (InPhase(P, c, Creating) || InPhase(P, c, Refused))
    ensures AllDevelop(P, Throw(P, c))
  {
    ThrowFrame(P, c);
    CallsDevelop(P, Throw(P, c));
  }

  lemma CallbackDevelops(P: Process, c: CallId)
    requires CallsValid(P) && WaitersValid(P) && CallbackDue(P, c)
    ensures AllDevelop(P, RunCallback(P, c))
  {
    CallbackFrame(P, c);
    CallsDevelop(P, RunCallback(P, c));
  }

  lemma RemoveQueuedDevelops(P: Process, id: ExecutionId)
    requires CallsValid(P) && WaitersValid(P)
    ensures AllDevelop(P, RemoveQueued(P, id))
  {
    RemoveQueuedFrame(P, id);
    CallsDevelop(P, RemoveQueued(P, id));
  }

  lemma EntryDevelops(P: Process, c: CallId, e: Entry)
    requires IsRegistered(P, c) && Develops(P.calls[c], P.calls[c].(phase := Registered(e)))
    ensures AllDevelop(P, WithEntry(P, c, e))
  {
    forall d | d in P.calls
      ensures Develops(P.calls[d], WithEntry(P, c, e).calls[d])
    {
      assert d != c ==> WithEntry(P, c, e).calls[d] == P.calls[d];
    }
  }

  lemma SetWaitingDevelops(P: Process, id: ExecutionId)
    ensures AllDevelop(P, SetStatus(P, id, Waiting))
  {
    if Has(P, id) { EntryDevelops(P, P.active[id], Current(P, id).(status := Waiting)); }
  }

  lemma AttachDevelops(P: Process, id: ExecutionId, responder: nat)
    ensures AllDevelop(P, AttachResponder(P, id, responder))
  {
    if Has(P, id) { EntryDevelops(P, P.active[id], Current(P, id).(responder := Some(responder))); }
  }

  lemma FinalizeDevelops(P: Process, id: ExecutionId, result: Result)
    ensures AllDevelop(P, Finalize(P, id, result))
  {
    if Has(P, id) { EntryDevelops(P, P.active[id], Settled(P, id, Resolved(result))); }
  }

  lemma StopDevelops(P: Process, id: ExecutionId)
    ensures AllDevelop(P, Stop(P, id))
  {
    if Has(P, id) { EntryDevelops(P, P.active[id], Settled(P, id, Rejected)); }
  }

  lemma LocalDevelops(P: Process, e: Event)
    requires CallsValid(P) && WaitersValid(P) && !e.DoRestart? && IsLocal(e)
    requires Enabled(Alone(P), 0, e)
    ensures AllDevelop(P, Local(P, e))
  {
    match e
    case DoThrottle(c) => ThrottleDevelops(P, c);
    case DoThrow(c) => ThrowDevelops(P, c);
    case DoCallback(c) => CallbackDevelops(P, c);
    case DoRemoveQueued(id) => RemoveQueuedDevelops(P, id);
    case DoShutdown(ids, cancelAll) => ShutdownDevelops(Disable(P), ids, cancelAll);
    case DoSetWaiting(c) => SetWaitingDevelops(P, P.calls[c].target.value);
    case DoEndEngine(c) => EntryDevelops(P, c, P.calls[c].phase.entry.(engine := false));
    case DoAttachResponder(id, responder) => AttachDevelops(P, id, responder);
    case DoFinalize(id, result) => FinalizeDevelops(P, id, result);
    case DoStop(id) => StopDevelops(P, id);
    case DoRegister(c, now) => RegisterDevelops(P, c, now);
    case _ =>
  }

  lemma SharedDevelops(s: System, p: nat, e: Event)
    requires p < |s.procs| && Enabled(s, p, e) && !IsLocal(e) && CallsValid(s.procs[p])
    ensures AllDevelop(s.procs[p], Next(s, p, e).procs[p])
  {
    var P := s.procs[p];
    match e
    case DoCreate(c, id) => CallsDevelop(P, Created(P, c, id));
    case DoWrite(c) => WrittenDevelops(P, c);
    case DoFailWrite(c, _) => WrittenDevelops(P, c);
    case DoStoreWaiting(c) => EntryDevelops(P, c, P.calls[c].phase.entry.(engine := false));
    case DoEnqueue(c) => EntryDevelops(P, c, P.calls[c].phase.entry.(engine := false, offloaded := true));
    case DoJobWaits(_) =>
    case DoJobEnds(_) =>
    case DoStore(_, _) =>
  }

  lemma WrittenDevelops(P: Process, c: CallId)
    requires InPhase(P, c, Writing)
    ensures AllDevelop(P, Written(P, c, true)) && AllDevelop(P, Written(P, c, false))
  {
  }

  lemma OwnStepDevelops(s: System, p: nat, e: Event)
    requires p < |s.procs| && Enabled(s, p, e) && !e.DoRestart?
    requires CallsValid(s.procs[p]) && WaitersValid(s.procs[p])
    ensures AllDevelop(s.procs[p], Next(s, p, e).procs[p])
  {
    if IsLocal(e) {
      LocalDevelops(s.procs[p], e);
    } else {
      SharedDevelops(s, p, e);
    }
  }

  lemma StepDevelops(s: System, p: nat, e: Event, q: nat)
    requires p < |s.procs| && q < |s.procs| && Enabled(s, p, e)
    requires Valid(s.procs[q])
    requires !(e.DoRestart? && p == q)
    ensures AllDevelop(s.procs[q], Next(s, p, e).procs[q])
  {
    if p == q {
      OwnStepDevelops(s, p, e);
    } else {
      OthersStay(s, p, e, q);
    }
  }
}
