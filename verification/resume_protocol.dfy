/**
 Any number of processes that share one execution store. A step is the code
 between two `await`s of one process, or one atomic statement on the store.
 The engine of an execution is the environment, and the only one to store
 `waiting`. One that runs in the process of its registration marks that as waiting
 first. In queue mode it may be handed to a job, which outlives the process and
 stores `waiting` without marking anything.
 */
module ResumeProtocol {
  import opened Basics
  import opened Registry

  /** `jobs`: the executions that a job of the queue works for. */
  datatype System = System(store: map<ExecutionId, Status>, procs: seq<Process>, jobs: set<ExecutionId>)

  datatype Event =
    | DoBegin(call: CallId, mode: Mode, resume: Option<ExecutionId>)
    | DoCreate(call: CallId, id: ExecutionId)
    | DoThrottle(call: CallId)
      /** The status write returned; for a resumed execution it is the guarded update. */
    | DoWrite(call: CallId)
      /** The status write threw, before or after the store committed it. */
    | DoFailWrite(call: CallId, committed: bool)
    | DoThrow(call: CallId)
    | DoRegister(call: CallId, now: int)
    | DoSetWaiting(call: CallId)
    | DoStoreWaiting(call: CallId)
      /** In queue mode the engine's work goes to a job. */
    | DoEnqueue(call: CallId)
      /** The job of an execution puts it to wait, whatever has become of the process that enqueued it. */
    | DoJobWaits(id: ExecutionId)
    | DoJobEnds(id: ExecutionId)
    | DoEndEngine(call: CallId)
    | DoAttachResponder(id: ExecutionId, responder: nat)
    | DoFinalize(id: ExecutionId, result: Result)
    | DoStop(id: ExecutionId)
    | DoCallback(call: CallId)
    | DoSetResponseMode(id: ExecutionId, responseMode: ResponseMode)
    | DoRemoveQueued(id: ExecutionId)
    | DoShutdown(ids: seq<ExecutionId>, cancelAll: bool)
      /** The process starts anew, with the settings it then has. */
    | DoRestart(regular: bool, enabled: bool, lazy: bool, limit: nat)
      /** An evaluation case asks for capacity, also during shutdown. */
    | DoResolveEvaluation(limited: bool)
      /** Anybody may overwrite a stored status with one other than `waiting`. */
    | DoStore(id: ExecutionId, status: Status)

  /** A process by itself; what its local steps may do depends on nothing else. */
  function Alone(P: Process): System {
    System(map[], [P], {})
  }

  predicate Target(P: Process, c: CallId) {
    c in P.calls && P.calls[c].target.Some?
  }

  predicate Engine(P: Process, c: CallId) {
    IsRegistered(P, c) && P.calls[c].phase.entry.engine
  }

  predicate Enabled(s: System, p: nat, e: Event)
    requires p < |s.procs|
  {
    var P := s.procs[p];
    match e
    case DoBegin(c, _, _) => c !in P.calls
    case DoCreate(c, id) => InPhase(P, c, Creating) && id !in s.store
    case DoThrottle(c) => InPhase(P, c, Reserving) && Target(P, c)
    case DoWrite(c) => InPhase(P, c, Writing) && Target(P, c)
    case DoFailWrite(c, _) => InPhase(P, c, Writing) && Target(P, c)
    case DoThrow(c) => InPhase(P, c, Creating) || InPhase(P, c, Refused)
    case DoRegister(c, _) => InPhase(P, c, Claimed) && Target(P, c)
    case DoSetWaiting(c) => Engine(P, c)
    case DoStoreWaiting(c) => Engine(P, c) && P.calls[c].phase.entry.status.Waiting?
    case DoEnqueue(c) => Engine(P, c) && !P.regular && !P.calls[c].phase.entry.status.Waiting?
    case DoJobWaits(id) => id in s.jobs
    case DoEndEngine(c) => IsRegistered(P, c)
    case DoCallback(c) => CallbackDue(P, c)
    case DoStore(id, status) => id in s.store && !status.Waiting?
    case _ => true
  }

  /** The guarded update of `add`: `running`, provided the stored status is `waiting`. */
  predicate WriteMatches(s: System, call: Call)
    requires call.target.Some?
  {
    call.resuming ==> call.target.value in s.store && s.store[call.target.value].Waiting?
  }

  function Local(P: Process, e: Event): Process
    requires !e.DoWrite? && !e.DoFailWrite? && !e.DoCreate?
    requires e.DoBegin? ==> e.call !in P.calls
    requires e.DoThrottle? ==> InPhase(P, e.call, Reserving) && Target(P, e.call)
    requires e.DoThrow? ==> InPhase(P, e.call, Creating) || InPhase(P, e.call, Refused)
    requires e.DoRegister? ==> InPhase(P, e.call, Claimed) && Target(P, e.call)
    requires e.DoSetWaiting? || e.DoEndEngine? ==> IsRegistered(P, e.call)
    requires e.DoCallback? ==> CallbackDue(P, e.call)
  {
    match e
    case DoBegin(c, mode, resume) => Begin(P, c, mode, resume)
    case DoThrottle(c) => Throttle(P, c)
    case DoThrow(c) => Throw(P, c)
    case DoRegister(c, now) => Register(P, c, now)
    case DoSetWaiting(c) => SetStatus(P, P.calls[c].target.value, Waiting)
    case DoEndEngine(c) => EngineDone(P, c)
    case DoAttachResponder(id, responder) => AttachResponder(P, id, responder)
    case DoFinalize(id, result) => Finalize(P, id, result)
    case DoStop(id) => Stop(P, id)
    case DoCallback(c) => RunCallback(P, c)
    case DoSetResponseMode(id, mode) => SetResponseMode(P, id, mode)
    case DoRemoveQueued(id) => RemoveQueued(P, id)
    case DoShutdown(ids, cancelAll) => ShutdownEach(Disable(P), ids, cancelAll)
    case DoRestart(regular, enabled, lazy, limit) => Started(regular, enabled, lazy, limit)
    case DoResolveEvaluation(limited) => ResolveEvaluation(P, limited)
    case _ => P
  }

  function Next(s: System, p: nat, e: Event): System
    requires p < |s.procs| && Enabled(s, p, e)
  {
    var P := s.procs[p];
    match e
    case DoCreate(c, id) =>
      s.(store := s.store[id := New], procs := s.procs[p := Created(P, c, id)])
    case DoWrite(c) =>
      var call := P.calls[c];
      if WriteMatches(s, call)
      then s.(store := s.store[call.target.value := Running], procs := s.procs[p := Written(P, c, true)])
      else s.(procs := s.procs[p := Written(P, c, false)])
    case DoFailWrite(c, committed) =>
      var call := P.calls[c];
      var store := if committed && WriteMatches(s, call) then s.store[call.target.value := Running] else s.store;
      s.(store := store, procs := s.procs[p := Written(P, c, false)])
    case DoStoreWaiting(c) =>
      s.(store := s.store[P.calls[c].target.value := Waiting], procs := s.procs[p := EngineDone(P, c)])
    case DoEnqueue(c) =>
      s.(jobs := s.jobs + {P.calls[c].target.value}, procs := s.procs[p := Offload(P, c)])
    case DoJobWaits(id) => s.(store := s.store[id := Waiting], jobs := s.jobs - {id})
    case DoJobEnds(id) => s.(jobs := s.jobs - {id})
    case DoStore(id, status) => s.(store := s.store[id := status])
    case _ => s.(procs := s.procs[p := Local(P, e)])
  }

  // ---- what a step does to one process ----

  predicate IsLocal(e: Event) {
    && !e.DoCreate? && !e.DoWrite? && !e.DoFailWrite? && !e.DoStoreWaiting? && !e.DoStore?
    && !e.DoEnqueue? && !e.DoJobWaits? && !e.DoJobEnds?
  }

  /** The current registration of `id` once its promise has been settled. */
  function Settled(P: Process, id: ExecutionId, outcome: Promise): Entry
    requires Has(P, id)
  {
    Current(P, id).(promise := Settle(Current(P, id).promise, outcome))
  }

  lemma OthersStay(s: System, p: nat, e: Event, q: nat)
    requires p < |s.procs| && q < |s.procs| && Enabled(s, p, e) && p != q
    ensures Next(s, p, e).procs[q] == s.procs[q]
  {
  }

  lemma LocalNext(s: System, p: nat, e: Event)
    requires p < |s.procs| && Enabled(s, p, e) && IsLocal(e)
    ensures Next(s, p, e).procs[p] == Local(s.procs[p], e) && Enabled(Alone(s.procs[p]), 0, e)
  {
  }

  /** What a step that is not local does to its own process. */
  predicate SharedChange(P: Process, e: Event, P': Process) {
    match e
    case DoCreate(c, id) => InPhase(P, c, Creating) && P' == Created(P, c, id)
    case DoWrite(c) => InPhase(P, c, Writing) && (P' == Written(P, c, true) || P' == Written(P, c, false))
    case DoFailWrite(c, _) => InPhase(P, c, Writing) && P' == Written(P, c, false)
    case DoStoreWaiting(c) => IsRegistered(P, c) && P' == EngineDone(P, c)
    case DoEnqueue(c) => IsRegistered(P, c) && P' == Offload(P, c)
    case _ => P' == P
  }

  lemma SharedNext(s: System, p: nat, e: Event)
    requires p < |s.procs| && Enabled(s, p, e) && !IsLocal(e)
    ensures SharedChange(s.procs[p], e, Next(s, p, e).procs[p])
  {
  }
}
