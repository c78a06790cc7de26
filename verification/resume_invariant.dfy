/**
 The invariant of the resume protocol, and how each kind of step keeps it: one claimant
 per execution over all processes and jobs, and no claimed execution is stored as
 `waiting`.
 */
module ResumeInvariant {
  import opened Basics
  import opened Registry
  import opened ResumeProtocol

  /** Call `call` may be the one that drives execution `id`, or could store a new status for it. */
  predicate Claims(call: Call, id: ExecutionId) {
    && call.target == Some(id)
    && match call.phase
       case Registered(entry) => entry.engine || (!entry.status.Waiting? && !entry.offloaded)
       case Claimed => true
       case Reserving => !call.resuming
       case Queued => !call.resuming
       case Writing => !call.resuming
       case _ => false
  }

  predicate Claimant(s: System, p: nat, c: CallId, id: ExecutionId) {
    p < |s.procs| && c in s.procs[p].calls && Claims(s.procs[p].calls[c], id)
  }

  ghost predicate OneClaimant(s: System) {
    forall p, c, q, d, id :: Claimant(s, p, c, id) && Claimant(s, q, d, id) ==> p == q && c == d
  }

  /** A claimed execution is stored, and not as `waiting`. */
  ghost predicate ClaimedIsStored(s: System) {
    forall p, c, id :: Claimant(s, p, c, id) ==> id in s.store && !s.store[id].Waiting?
  }

  /** An execution that a job works for is claimed by no call, stored, and not as `waiting`. */
  ghost predicate JobsHold(s: System) {
    forall id :: id in s.jobs ==>
      id in s.store && !s.store[id].Waiting? && forall p, c :: !Claimant(s, p, c, id)
  }

  /** A registration that claims its execution is the one the registry leads to, if any. */
  ghost predicate ClaimedIsCurrent(P: Process) {
    forall c, id :: IsRegistered(P, c) && Claims(P.calls[c], id) && id in P.active ==> P.active[id] == c
  }

  ghost predicate Inv(s: System) {
    && (forall p :: 0 <= p < |s.procs| ==> Valid(s.procs[p]) && ClaimedIsCurrent(s.procs[p]))
    && OneClaimant(s)
    && ClaimedIsStored(s)
    && JobsHold(s)
  }

  /** `P'` has no claim that `P` does not have, and registers no more ids. */
  ghost predicate Shrinks(P: Process, P': Process) {
    && (forall c, id :: c in P'.calls && Claims(P'.calls[c], id) ==>
          && c in P.calls && Claims(P.calls[c], id)
          && (P'.calls[c].phase.Registered? ==> P.calls[c].phase.Registered?))
    && (forall id :: id in P'.active ==> id in P.active && P'.active[id] == P.active[id])
  }

  /** No status in `store'` has become `waiting`, and none has been dropped. */
  ghost predicate NoNewWaiting(store: map<ExecutionId, Status>, store': map<ExecutionId, Status>) {
    forall id :: id in store ==> id in store' && (store'[id].Waiting? ==> store[id].Waiting?)
  }

  lemma ShrinkKeepsInv(s: System, p: nat, P': Process, store': map<ExecutionId, Status>)
    requires Inv(s) && p < |s.procs| && Valid(P') && Shrinks(s.procs[p], P') && NoNewWaiting(s.store, store')
    ensures Inv(s.(store := store', procs := s.procs[p := P']))
  {
    var s' := s.(store := store', procs := s.procs[p := P']);
    assert ClaimedIsCurrent(s.procs[p]);
    forall q, c, id | Claimant(s', q, c, id)
      ensures Claimant(s, q, c, id) && id in store' && !store'[id].Waiting?
    {
      assert Claimant(s, q, c, id);
    }
  }

  lemma CallsShrink(P: Process, P': Process)
    requires P'.calls.Keys == P.calls.Keys
    requires forall id :: id in P'.active ==> id in P.active && P'.active[id] == P.active[id]
    requires forall c :: c in P.calls ==> P'.calls[c] == P.calls[c] || LosesClaim(P.calls[c], P'.calls[c])
    ensures Shrinks(P, P')
  {
  }

  /** The second call claims no more than the first. */
  predicate LosesClaim(call: Call, call': Call) {
    && call'.target == call.target
    && match call'.phase
       case Registered(e') =>
         call.phase.Registered? && (e'.engine ==> call.phase.entry.engine)
         && (!e'.status.Waiting? ==> e'.status == call.phase.entry.status)
         && (call.phase.entry.offloaded ==> e'.offloaded)
       case Claimed =>
         || call.phase.Claimed?
         || (!call.resuming && (call.phase.Reserving? || call.phase.Queued? || call.phase.Writing?))
       case Creating => false
       case Reserving => call'.resuming
       case Queued => call'.resuming == call.resuming && call.phase.Reserving?
       case Writing => call'.resuming == call.resuming && (call.phase.Reserving? || call.phase.Queued?)
       case _ => true
  }

  lemma StopShrinks(P: Process, id: ExecutionId)
    ensures Shrinks(P, Stop(P, id))
  {
    CallsShrink(P, Stop(P, id));
  }

  lemma ShutdownShrinks(P: Process, ids: seq<ExecutionId>, cancelAll: bool)
    ensures Shrinks(P, ShutdownEach(P, ids, cancelAll))
    decreases |ids|
  {
    if ids != [] {
      var P1 := ShutdownOne(P, ids[0], cancelAll);
      CallsShrink(P, P1);
      ShutdownShrinks(P1, ids[1..], cancelAll);
    }
  }

  lemma LocalValid(s: System, p: nat, e: Event)
    requires p < |s.procs| && Enabled(s, p, e) && IsLocal(e) && Valid(s.procs[p])
    ensures Valid(Local(s.procs[p], e))
  {
    var P := s.procs[p];
    match e
    case DoBegin(c, mode, resume) => BeginValid(P, c, mode, resume);
    case DoThrottle(c) => ThrottleValid(P, c);
    case DoThrow(c) => ThrowValid(P, c);
    case DoRegister(c, now) => RegisterValid(P, c, now);
    case DoSetWaiting(c) =>
      var id := P.calls[c].target.value;
      if Has(P, id) { EntryValid(P, P.active[id], Current(P, id).(status := Waiting)); }
    case DoEndEngine(c) => EntryValid(P, c, P.calls[c].phase.entry.(engine := false));
    case DoAttachResponder(id, responder) =>
      if Has(P, id) { EntryValid(P, P.active[id], Current(P, id).(responder := Some(responder))); }
    case DoFinalize(id, result) =>
      if Has(P, id) { EntryValid(P, P.active[id], Settled(P, id, Resolved(result))); }
    case DoStop(id) => StopValid(P, id);
    case DoCallback(c) => CallbackValid(P, c);
    case DoRemoveQueued(id) => RemoveQueuedValid(P, id);
    case DoShutdown(ids, cancelAll) => DisableValid(P); ShutdownValid(Disable(P), ids, cancelAll);
    case _ =>
  }

  lemma EntryShrinks(P: Process, c: CallId, e: Entry)
    requires IsRegistered(P, c)
    requires e.engine ==> P.calls[c].phase.entry.engine
    requires e.status.Waiting? || e.status == P.calls[c].phase.entry.status
    requires P.calls[c].phase.entry.offloaded ==> e.offloaded
    ensures Shrinks(P, WithEntry(P, c, e))
  {
    CallsShrink(P, WithEntry(P, c, e));
  }

  lemma ThrowShrinks(P: Process, c: CallId)
    requires WaitersValid(P) && (InPhase(P, c, Creating) || InPhase(P, c, Refused))
    ensures Shrinks(P, Throw(P, c))
  {
    ThrowFrame(P, c);
    CallsShrink(P, Throw(P, c));
  }

  lemma CallbackShrinks(P: Process, c: CallId)
    requires WaitersValid(P) && CallbackDue(P, c)
    ensures Shrinks(P, RunCallback(P, c))
  {
    CallbackFrame(P, c);
    CallsShrink(P, RunCallback(P, c));
  }

  lemma RemoveQueuedShrinks(P: Process, id: ExecutionId)
    requires WaitersValid(P)
    ensures Shrinks(P, RemoveQueued(P, id))
  {
    RemoveQueuedFrame(P, id);
    CallsShrink(P, RemoveQueued(P, id));
  }

  lemma EntryStepShrinks(s: System, p: nat, e: Event)
    requires p < |s.procs| && Enabled(s, p, e)
    requires e.DoSetWaiting? || e.DoEndEngine? || e.DoAttachResponder? || e.DoFinalize?
    ensures Shrinks(s.procs[p], Local(s.procs[p], e))
  {
    var P := s.procs[p];
    match e
    case DoSetWaiting(c) =>
      var id := P.calls[c].target.value;
      if Has(P, id) { EntryShrinks(P, P.active[id], Current(P, id).(status := Waiting)); }
    case DoEndEngine(c) => EntryShrinks(P, c, P.calls[c].phase.entry.(engine := false));
    case DoAttachResponder(id, responder) =>
      if Has(P, id) { EntryShrinks(P, P.active[id], Current(P, id).(responder := Some(responder))); }
    case DoFinalize(id, result) =>
      if Has(P, id) { EntryShrinks(P, P.active[id], Settled(P, id, Resolved(result))); }
  }

  lemma ThrottleShrinks(P: Process, c: CallId)
    requires InPhase(P, c, Reserving) && Target(P, c)
    ensures Shrinks(P, Throttle(P, c))
  {
    CallsShrink(P, Throttle(P, c));
  }

  lemma LocalShrinks(s: System, p: nat, e: Event)
    requires p < |s.procs| && Enabled(s, p, e) && IsLocal(e) && !e.DoRegister? && WaitersValid(s.procs[p])
    ensures Shrinks(s.procs[p], Local(s.procs[p], e))
  {
    var P := s.procs[p];
    match e
    case DoThrottle(c) => ThrottleShrinks(P, c);
    case DoThrow(c) => ThrowShrinks(P, c);
    case DoSetWaiting(c) => EntryStepShrinks(s, p, e);
    case DoEndEngine(c) => EntryStepShrinks(s, p, e);
    case DoAttachResponder(_, _) => EntryStepShrinks(s, p, e);
    case DoFinalize(_, _) => EntryStepShrinks(s, p, e);
    case DoStop(id) => StopShrinks(P, id);
    case DoCallback(c) => CallbackShrinks(P, c);
    case DoRemoveQueued(id) => RemoveQueuedShrinks(P, id);
    case DoShutdown(ids, cancelAll) => ShutdownShrinks(Disable(P), ids, cancelAll);
    case _ =>
  }

  /** Call `c` of process `p` moves on and claims `id`, which nobody else claims. */
  lemma ClaimKeepsInv(s: System, p: nat, c: CallId, id: ExecutionId, P': Process, store': map<ExecutionId, Status>)
    requires Inv(s) && p < |s.procs| && Valid(P') && NoNewWaiting(s.store, store')
    requires id in store' && !store'[id].Waiting?
    requires c in P'.calls && P'.calls[c].target == Some(id)
    requires P' == s.procs[p].(calls := s.procs[p].calls[c := P'.calls[c]])
    requires (forall q, d :: Claimant(s, q, d, id) ==> q == p && d == c) && id !in s.jobs
    requires !P'.calls[c].phase.Registered?
    ensures Inv(s.(store := store', procs := s.procs[p := P']))
  {
    var s' := s.(store := store', procs := s.procs[p := P']);
    assert ClaimedIsCurrent(s.procs[p]);
    forall q, d, i | Claimant(s', q, d, i)
      ensures Claimant(s, q, d, i) || (q == p && d == c && i == id)
      ensures i in store' && !store'[i].Waiting?
    {
    }
  }

  lemma RegisterKeepsInv(s: System, p: nat, c: CallId, now: int)
    requires Inv(s) && p < |s.procs| && Enabled(s, p, DoRegister(c, now))
    ensures Inv(Next(s, p, DoRegister(c, now)))
  {
    var P := s.procs[p];
    var P' := Register(P, c, now);
    var s' := Next(s, p, DoRegister(c, now));
    var id := P.calls[c].target.value;
    RegisterValid(P, c, now);
    assert Claimant(s, p, c, id);
    assert ClaimedIsCurrent(P);
    forall q, d, i | Claimant(s', q, d, i)
      ensures Claimant(s, q, d, i)
    {
    }
    forall d, i | IsRegistered(P', d) && Claims(P'.calls[d], i) && i in P'.active
      ensures P'.active[i] == d
    {
      assert Claimant(s, p, d, i);
    }
  }

  lemma CreateKeepsInv(s: System, p: nat, c: CallId, id: ExecutionId)
    requires Inv(s) && p < |s.procs| && Enabled(s, p, DoCreate(c, id))
    ensures Inv(Next(s, p, DoCreate(c, id)))
  {
    var P := s.procs[p];
    assert Valid(P) && CallsValid(P);
    CreatedValid(P, c, id);
    ClaimKeepsInv(s, p, c, id, Created(P, c, id), s.store[id := New]);
  }

  lemma WriteKeepsInv(s: System, p: nat, e: Event)
    requires Inv(s) && p < |s.procs| && Enabled(s, p, e) && (e.DoWrite? || e.DoFailWrite?)
    ensures Inv(Next(s, p, e))
  {
    var P := s.procs[p];
    var c := e.call;
    var call := P.calls[c];
    var id := call.target.value;
    WrittenValid(P, c, false);
    WrittenValid(P, c, true);
    if e.DoWrite? && WriteMatches(s, call) {
      assert !call.resuming ==> Claimant(s, p, c, id);
      ClaimKeepsInv(s, p, c, id, Written(P, c, true), s.store[id := Running]);
    } else {
      CallsShrink(P, Written(P, c, false));
      ShrinkKeepsInv(s, p, Written(P, c, false), Next(s, p, e).store);
    }
  }

  lemma StoreWaitingKeepsInv(s: System, p: nat, c: CallId)
    requires Inv(s) && p < |s.procs| && Enabled(s, p, DoStoreWaiting(c))
    ensures Inv(Next(s, p, DoStoreWaiting(c)))
  {
    var P := s.procs[p];
    var entry := P.calls[c].phase.entry;
    var id := P.calls[c].target.value;
    EntryValid(P, c, entry.(engine := false));
    EntryShrinks(P, c, entry.(engine := false));
    ShrinkKeepsInv(s, p, EngineDone(P, c), s.store);
    assert Claimant(s, p, c, id);
    var s1 := s.(procs := s.procs[p := EngineDone(P, c)]);
    assert s1.store == s.store && Inv(s1);
    forall q, d
      ensures !Claimant(s1, q, d, id)
    {
      assert Claimant(s1, q, d, id) ==> Claimant(s, q, d, id);
    }
    WaitKeepsInv(s1, id);
  }

  /** Nobody claims the execution, so it may come to wait; its job, if it had one, has ended. */
  lemma WaitKeepsInv(s: System, id: ExecutionId)
    requires Inv(s) && forall q, d :: !Claimant(s, q, d, id)
    ensures Inv(s.(store := s.store[id := Waiting], jobs := s.jobs - {id}))
    ensures id !in s.jobs ==> Inv(s.(store := s.store[id := Waiting]))
  {
    var s' := s.(store := s.store[id := Waiting], jobs := s.jobs - {id});
    forall q, d, i | Claimant(s', q, d, i)
      ensures Claimant(s, q, d, i) && i != id
    {
      assert Claimant(s, q, d, i);
    }
    assert id !in s.jobs ==> s.jobs - {id} == s.jobs;
  }

  lemma EnqueueKeepsInv(s: System, p: nat, c: CallId)
    requires Inv(s) && p < |s.procs| && Enabled(s, p, DoEnqueue(c))
    ensures Inv(Next(s, p, DoEnqueue(c)))
  {
    var P := s.procs[p];
    var id := P.calls[c].target.value;
    var entry := P.calls[c].phase.entry.(engine := false, offloaded := true);
    EntryValid(P, c, entry);
    EntryShrinks(P, c, entry);
    ShrinkKeepsInv(s, p, Offload(P, c), s.store);
    assert Claimant(s, p, c, id);
    var s1 := s.(procs := s.procs[p := Offload(P, c)]);
    assert s1.store == s.store && Inv(s1);
    forall q, d
      ensures !Claimant(s1, q, d, id)
    {
      assert Claimant(s1, q, d, id) ==> Claimant(s, q, d, id);
    }
    JobKeepsInv(s1, id);
  }

  lemma JobKeepsInv(s: System, id: ExecutionId)
    requires Inv(s) && id in s.store && !s.store[id].Waiting? && forall q, d :: !Claimant(s, q, d, id)
    ensures Inv(s.(jobs := s.jobs + {id}))
  {
    var s' := s.(jobs := s.jobs + {id});
    forall q, d, i
      ensures Claimant(s', q, d, i) <==> Claimant(s, q, d, i)
    {
    }
  }

  lemma JobEndKeepsInv(s: System, id: ExecutionId)
    requires Inv(s)
    ensures Inv(s.(jobs := s.jobs - {id}))
  {
    var s' := s.(jobs := s.jobs - {id});
    forall q, d, i
      ensures Claimant(s', q, d, i) <==> Claimant(s, q, d, i)
    {
    }
  }
}
