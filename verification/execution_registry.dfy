/**
 The registry of active executions of one process. `Process` is its value;
 every function below is the code between two `await`s of `ActiveExecutions`,
 of its settle callback, or of the capacity reservation that `add` creates.
 Registered executions are named by the call of `add` that created them, so
 the callback of an old registration still refers to that registration after
 the same execution id has been registered again.
 */
module Registry {
  import opened Basics
  import opened Concurrency

  /** Which concurrency queue an execution mode is counted in. */
  datatype Mode =
    | Evaluation  // counted by the test runner, never by `add`
    | Limited     // webhook, trigger, chat: the production queue
    | Unlimited   // manual, integrated, error, cli, internal, retry: no queue

  datatype Status = New | Running | Waiting | Success | Error | Canceled | Crashed

  /** What an execution is finalized with: run data, which may be that of a run that waits, or none. */
  datatype Result = NoData | Data(waiting: bool)

  datatype Promise = Pending | Resolved(result: Result) | Rejected

  type ResponseMode = string

  /** `IExecutingWorkflowData`. */
  datatype Entry = Entry(
    status: Status,
    startedAt: int,
    responder: Option<nat>,
    promise: Promise,
    /** The settle callback has run. */
    settled: bool,
    /** The workflow engine in this process still works for this registration. */
    engine: bool,
    /** The engine was handed to a job of the queue, which does not tell this registration its status. */
    offloaded: bool)

  datatype Phase =
    | Creating    // waits for the new execution row
    | Reserving   // has an id, is about to reserve capacity
    | Queued      // throttled by the concurrency queue
    | Abandoned   // removed from the queue; its promise never settles
    | Writing     // waits for the status write (`setRunning`, or the guarded update)
    | Claimed     // the status write succeeded; about to register
    | Refused     // the status write failed or matched no row; about to throw
    | Failed      // threw
    | Registered(entry: Entry)

  /** The capacity reservation of one call. */
  datatype Slot = Never | Held | Returned

  datatype Call = Call(mode: Mode, resuming: bool, target: Option<ExecutionId>, phase: Phase, slot: Slot)

  datatype Process = Process(
    calls: map<CallId, Call>,
    active: map<ExecutionId, CallId>,
    responseModes: map<ExecutionId, ResponseMode>,
    queue: Queue,
    /** Concurrency control is on; shutdown turns it off. */
    enabled: bool,
    /** The limit on evaluations is still to be resolved, which can turn control on again. */
    lazy: bool,
    /** A history variable: production slots taken less those returned while control was off. */
    drift: int,
    /** Regular execution mode, as opposed to queue mode. */
    regular: bool,
    limit: nat)

  /** Control is off from the start in queue mode and without a production limit; resolving does not change that. */
  function Started(regular: bool, enabled: bool, lazy: bool, limit: nat): Process {
    Process(map[], map[], map[], Queue(limit, []), enabled, regular && enabled && lazy, 0, regular, limit)
  }

  predicate InPhase(P: Process, c: CallId, phase: Phase) {
    c in P.calls && P.calls[c].phase == phase
  }

  predicate IsRegistered(P: Process, c: CallId) {
    c in P.calls && P.calls[c].phase.Registered? && P.calls[c].target.Some?
  }

  // ---- add ----

  function Begin(P: Process, c: CallId, mode: Mode, resume: Option<ExecutionId>): Process
    requires c !in P.calls
  {
    var phase := if resume.None? then Creating else if mode.Evaluation? then Writing else Reserving;
    P.(calls := P.calls[c := Call(mode, resume.Some?, resume, phase, Never)])
  }

  /** Where `add` goes once it may proceed: queue mode does not mark a new execution as running. */
  function AfterReserving(P: Process, call: Call): Phase {
    if call.resuming || P.regular then Writing else Claimed
  }

  function Created(P: Process, c: CallId, id: ExecutionId): Process
    requires InPhase(P, c, Creating)
  {
    var call := P.calls[c].(target := Some(id));
    P.(calls := P.calls[c := call.(phase := if call.mode.Evaluation? then AfterReserving(P, call) else Reserving)])
  }

  function WithSlot(P: Process, call: Call): Call {
    call.(phase := AfterReserving(P, call), slot := Held)
  }

  function Throttle(P: Process, c: CallId): Process
    requires InPhase(P, c, Reserving) && P.calls[c].target.Some?
  {
    var call := P.calls[c];
    if !P.enabled || !call.mode.Limited? then
      P.(calls := P.calls[c := WithSlot(P, call)], drift := P.drift + if call.mode.Limited? then 1 else 0)
    else
      P.(queue := Enqueued(P.queue, Waiter(call.target.value, c)),
         calls := P.calls[c := if Admits(P.queue) then WithSlot(P, call) else call.(phase := Queued)])
  }

  /** The head of `waiting` continues in `add`, if there is a head. */
  function Grant(P: Process, waiting: seq<Waiter>): Process {
    if waiting == [] || waiting[0].call !in P.calls then P
    else P.(calls := P.calls[waiting[0].call := WithSlot(P, P.calls[waiting[0].call])])
  }

  /** `ConcurrencyCapacityReservation.release`. */
  function Release(P: Process, c: CallId): Process
    requires c in P.calls
  {
    var call := P.calls[c];
    if call.slot != Held then P
    else
      var P' := P.(calls := P.calls[c := call.(slot := Returned)]);
      if !P.enabled || !call.mode.Limited? then P'.(drift := P.drift - if call.mode.Limited? then 1 else 0)
      else Grant(P'.(queue := Dequeued(P.queue)), P.queue.waiting)
  }

  function Written(P: Process, c: CallId, succeeded: bool): Process
    requires InPhase(P, c, Writing)
  {
    P.(calls := P.calls[c := P.calls[c].(phase := if succeeded then Claimed else Refused)])
  }

  /** The catch block of `add`. */
  function Throw(P: Process, c: CallId): Process
    requires InPhase(P, c, Creating) || InPhase(P, c, Refused)
  {
    var P' := Release(P, c);
    P'.(calls := P'.calls[c := P'.calls[c].(phase := Failed)])
  }

  function NewEntry(P: Process, id: ExecutionId, now: int): Entry {
    if id in P.active && IsRegistered(P, P.active[id]) then
      var previous := P.calls[P.active[id]].phase.entry;
      Entry(Running, previous.startedAt, previous.responder, Pending, false, true, false)
    else
      Entry(Running, now, None, Pending, false, true, false)
  }

  function Register(P: Process, c: CallId, now: int): Process
    requires InPhase(P, c, Claimed) && P.calls[c].target.Some?
  {
    var id := P.calls[c].target.value;
    P.(calls := P.calls[c := P.calls[c].(phase := Registered(NewEntry(P, id, now)))],
       active := P.active[id := c])
  }

  // ---- registered executions ----

  function WithEntry(P: Process, c: CallId, e: Entry): Process
    requires c in P.calls
  {
    P.(calls := P.calls[c := P.calls[c].(phase := Registered(e))])
  }

  /** The registration an execution id currently leads to. */
  predicate Has(P: Process, id: ExecutionId) {
    id in P.active && IsRegistered(P, P.active[id])
  }

  function Current(P: Process, id: ExecutionId): Entry
    requires Has(P, id)
  {
    P.calls[P.active[id]].phase.entry
  }

  function WithCurrent(P: Process, id: ExecutionId, e: Entry): Process
    requires Has(P, id)
  {
    WithEntry(P, P.active[id], e)
  }

  /** `setStatus` throws for an unknown id, which changes nothing. */
  function SetStatus(P: Process, id: ExecutionId, status: Status): Process {
    if Has(P, id) then WithCurrent(P, id, Current(P, id).(status := status)) else P
  }

  function Settle(promise: Promise, outcome: Promise): Promise {
    if promise.Pending? then outcome else promise
  }

  function Finalize(P: Process, id: ExecutionId, result: Result): Process {
    if Has(P, id) then
      WithCurrent(P, id, Current(P, id).(promise := Settle(Current(P, id).promise, Resolved(result))))
    else P
  }

  /** `attachResponsePromise` throws for an unknown id, which changes nothing. */
  function AttachResponder(P: Process, id: ExecutionId, responder: nat): Process {
    if Has(P, id) then WithCurrent(P, id, Current(P, id).(responder := Some(responder))) else P
  }

  function Unregister(P: Process, id: ExecutionId): Process {
    P.(active := P.active - {id}, responseModes := P.responseModes - {id})
  }

  function Stop(P: Process, id: ExecutionId): Process {
    if !Has(P, id) then P
    else if Current(P, id).status.Waiting? then Unregister(P, id)
    else WithCurrent(P, id, Current(P, id).(promise := Settle(Current(P, id).promise, Rejected)))
  }

  predicate CallbackDue(P: Process, c: CallId) {
    IsRegistered(P, c) && !P.calls[c].phase.entry.promise.Pending? && !P.calls[c].phase.entry.settled
  }

  /** The `finally` callback attached by the registration `c`. */
  function RunCallback(P: Process, c: CallId): Process
    requires CallbackDue(P, c)
  {
    var entry := P.calls[c].phase.entry;
    var P' := WithEntry(Release(P, c), c, entry.(settled := true));
    if entry.status.Waiting? then P' else Unregister(P', P.calls[c].target.value)
  }

  function SetResponseMode(P: Process, id: ExecutionId, mode: ResponseMode): Process {
    P.(responseModes := P.responseModes[id := mode])
  }

  /** The engine of registration `c` has stopped working for it. */
  function EngineDone(P: Process, c: CallId): Process
    requires IsRegistered(P, c)
  {
    WithEntry(P, c, P.calls[c].phase.entry.(engine := false))
  }

  /** The engine of registration `c` is handed to a job of the queue. */
  function Offload(P: Process, c: CallId): Process
    requires IsRegistered(P, c)
  {
    WithEntry(P, c, P.calls[c].phase.entry.(engine := false, offloaded := true))
  }

  // ---- queue removal and shutdown ----

  /** The removed call hangs: nobody resolves its promise any more. */
  function WithoutWaiter(P: Process, id: ExecutionId): Process
    requires var k := IndexOf(P.queue.waiting, id); k < |P.queue.waiting| && P.queue.waiting[k].call in P.calls
  {
    var removed := P.queue.waiting[IndexOf(P.queue.waiting, id)].call;
    P.(queue := Removed(P.queue, id), calls := P.calls[removed := P.calls[removed].(phase := Abandoned)])
  }

  /** `ConcurrencyControlService.remove` for the production queue. */
  function RemoveQueued(P: Process, id: ExecutionId): Process {
    var k := IndexOf(P.queue.waiting, id);
    if !P.enabled || k == |P.queue.waiting| || P.queue.waiting[k].call !in P.calls then P
    else Grant(WithoutWaiter(P, id), Splice(P.queue, k).waiting)
  }

  function Disable(P: Process): Process {
    P.(enabled := if P.regular then false else P.enabled)
  }

  /** `ensureEvalQueueResolved`: the first use turns control on if a limit on evaluations applies. */
  function ResolveEvaluation(P: Process, limited: bool): Process {
    if P.lazy then P.(enabled := P.enabled || limited, lazy := false) else P
  }

  predicate Idle(status: Status) {
    status.Waiting? || status.New?
  }

  /** One iteration of the first pass of `shutdown`. */
  function ShutdownOne(P: Process, id: ExecutionId, cancelAll: bool): Process {
    if P.regular && cancelAll then Stop(P, id)
    else if Has(P, id) && Idle(Current(P, id).status) then P.(active := P.active - {id})
    else P
  }

  function ShutdownEach(P: Process, ids: seq<ExecutionId>, cancelAll: bool): Process
    decreases |ids|
  {
    if ids == [] then P else ShutdownEach(ShutdownOne(P, ids[0], cancelAll), ids[1..], cancelAll)
  }

  // ---- what every process keeps ----

  predicate PastReserving(phase: Phase) {
    phase.Writing? || phase.Claimed? || phase.Refused? || (phase.Registered? && !phase.entry.settled)
  }

  predicate CallValid(call: Call) {
    && (call.resuming ==> call.target.Some?)
    && (call.phase.Creating? ==> call.target.None?)
    && (!call.phase.Creating? && !call.phase.Failed? ==> call.target.Some?)
    && (call.slot.Held? <==> !call.mode.Evaluation? && PastReserving(call.phase))
    && (call.slot.Returned? ==> call.phase.Failed? || call.phase.Registered?)
    && (call.phase.Registered? && call.slot.Never? ==> call.mode.Evaluation?)
    && (call.mode.Evaluation? ==> call.slot.Never?)
    && (call.phase.Reserving? ==> !call.mode.Evaluation?)
    && (call.phase.Queued? || call.phase.Abandoned? ==> call.mode.Limited?)
  }

  ghost predicate CallsValid(P: Process) {
    forall c :: c in P.calls ==> CallValid(P.calls[c])
  }

  ghost predicate ActiveValid(P: Process) {
    forall id :: id in P.active ==>
      && Has(P, id)
      && P.calls[P.active[id]].target == Some(id)
      && (!Current(P, id).status.Waiting? ==> !Current(P, id).settled)
  }

  ghost predicate WaitersValid(P: Process) {
    && (forall k :: 0 <= k < |P.queue.waiting| ==> InPhase(P, P.queue.waiting[k].call, Queued))
    && (forall j, k :: 0 <= j < k < |P.queue.waiting| ==> P.queue.waiting[j].call != P.queue.waiting[k].call)
  }

  /** The calls that occupy a production slot. */
  ghost function Holders(calls: map<CallId, Call>): set<CallId> {
    set c | c in calls && calls[c].slot.Held? && calls[c].mode.Limited?
  }

  /** The holders are those the queue's counters see, and those that passed it by while control was off. */
  ghost predicate SlotsConserved(P: Process) {
    |Holders(P.calls)| == InUse(P.queue, P.limit) + P.drift
  }

  ghost predicate Valid(P: Process) {
    CallsValid(P) && ActiveValid(P) && WaitersValid(P) && SlotsConserved(P)
  }

  lemma HoldersUpdate(calls: map<CallId, Call>, c: CallId, call: Call)
    ensures Holders(calls[c := call])
         == Holders(calls) - {c} + if call.slot.Held? && call.mode.Limited? then {c} else {}
  {
  }

  /** Moving a call that is not registered leaves the registered ones alone. */
  lemma OthersActive(P: Process, P': Process, c: CallId)
    requires ActiveValid(P) && c in P.calls && !P.calls[c].phase.Registered?
    requires P'.active == P.active && c in P'.calls && P'.calls == P.calls[c := P'.calls[c]]
    ensures ActiveValid(P')
  {
    forall id | id in P'.active
      ensures Has(P', id) && P'.calls[P'.active[id]] == P.calls[P.active[id]]
    {
      assert Has(P, id);
    }
  }

  lemma GrantWaiters(P: Process, waiting: seq<Waiter>)
    requires waiting != [] && P.queue.waiting == waiting[1..]
    requires WaitersValid(P.(queue := P.queue.(waiting := waiting)))
    ensures InPhase(P, waiting[0].call, Queued) && WaitersValid(Grant(P, waiting))
  {
    var Q := P.(queue := P.queue.(waiting := waiting));
    assert InPhase(Q, waiting[0].call, Queued);
    forall k | 0 <= k < |P.queue.waiting|
      ensures InPhase(Grant(P, waiting), P.queue.waiting[k].call, Queued)
    {
      assert P.queue.waiting[k] == waiting[k + 1] && InPhase(Q, waiting[k + 1].call, Queued);
    }
  }

  /** The waiting call at the head takes the slot that is one too many for the holders. */
  lemma GrantValid(P: Process, waiting: seq<Waiter>)
    requires P.enabled && CallsValid(P) && ActiveValid(P)
    requires P.queue.waiting == if waiting == [] then [] else waiting[1..]
    requires WaitersValid(P.(queue := P.queue.(waiting := waiting)))
    requires |Holders(P.calls)| + (if waiting == [] then 0 else 1) == InUse(P.queue, P.limit) + P.drift
    ensures Valid(Grant(P, waiting))
  {
    if waiting != [] {
      var c := waiting[0].call;
      GrantWaiters(P, waiting);
      assert CallValid(P.calls[c]);
      HoldersUpdate(P.calls, c, WithSlot(P, P.calls[c]));
      OthersActive(P, Grant(P, waiting), c);
    }
  }

  lemma HoldersKept(calls: map<CallId, Call>, c: CallId, call: Call)
    requires call.mode.Limited? && call.slot.Held? <==> c in Holders(calls)
    ensures Holders(calls[c := call]) == Holders(calls)
  {
  }

  lemma CallReplaced(P: Process, P': Process, c: CallId, call: Call)
    requires CallsValid(P) && WaitersValid(P) && P'.calls == P.calls[c := call] && P'.queue == P.queue
    requires CallValid(call) && (c in P.calls ==> !P.calls[c].phase.Queued?)
    ensures CallsValid(P') && WaitersValid(P')
  {
    assert forall k :: 0 <= k < |P.queue.waiting| ==> InPhase(P, P.queue.waiting[k].call, Queued);
  }

  /** Replacing a call that neither waits nor gains or loses a slot. */
  lemma UpdateValid(P: Process, P': Process, c: CallId, call: Call)
    requires Valid(P) && P' == P.(calls := P.calls[c := call], active := P'.active, responseModes := P'.responseModes)
    requires CallValid(call) && ActiveValid(P')
    requires c in P.calls ==> !P.calls[c].phase.Queued?
    requires call.mode.Limited? && call.slot.Held? <==> c in Holders(P.calls)
    ensures Valid(P')
  {
    HoldersKept(P.calls, c, call);
    CallReplaced(P, P', c, call);
  }

  lemma BeginValid(P: Process, c: CallId, mode: Mode, resume: Option<ExecutionId>)
    requires Valid(P) && c !in P.calls
    ensures Valid(Begin(P, c, mode, resume))
  {
    UpdateValid(P, Begin(P, c, mode, resume), c, Begin(P, c, mode, resume).calls[c]);
  }

  lemma CreatedValid(P: Process, c: CallId, id: ExecutionId)
    requires Valid(P) && InPhase(P, c, Creating)
    ensures Valid(Created(P, c, id))
  {
    UpdateValid(P, Created(P, c, id), c, Created(P, c, id).calls[c]);
  }

  lemma ThrottleWaiters(P: Process, c: CallId)
    requires WaitersValid(P) && InPhase(P, c, Reserving) && P.calls[c].target.Some?
    ensures WaitersValid(Throttle(P, c))
  {
    var before, after := P.queue.waiting, Throttle(P, c).queue.waiting;
    assert forall k :: 0 <= k < |before| ==> InPhase(P, before[k].call, Queued);
    assert forall k :: 0 <= k < |after| ==>
      after[k] == if k < |before| then before[k] else Waiter(P.calls[c].target.value, c);
  }

  lemma HoldersGain(calls: map<CallId, Call>, c: CallId, call: Call)
    requires c in calls && !calls[c].slot.Held?
    ensures |Holders(calls[c := call])| == |Holders(calls)| + if call.slot.Held? && call.mode.Limited? then 1 else 0
  {
    HoldersUpdate(calls, c, call);
    assert Holders(calls) - {c} == Holders(calls);
  }

  lemma ThrottleSlots(P: Process, c: CallId)
    requires CallsValid(P) && SlotsConserved(P) && InPhase(P, c, Reserving) && P.calls[c].target.Some?
    ensures SlotsConserved(Throttle(P, c))
  {
    assert CallValid(P.calls[c]);
    var call := Throttle(P, c).calls[c];
    assert Throttle(P, c).calls == P.calls[c := call];
    HoldersGain(P.calls, c, call);
  }

  lemma ThrottledCall(P: Process, c: CallId)
    requires CallsValid(P) && InPhase(P, c, Reserving) && P.calls[c].target.Some?
    ensures var P' := Throttle(P, c);
      P'.active == P.active && c in P'.calls && P'.calls == P.calls[c := P'.calls[c]] && CallValid(P'.calls[c])
  {
    assert CallValid(P.calls[c]);
  }

  lemma ThrottleCalls(P: Process, c: CallId)
    requires CallsValid(P) && ActiveValid(P) && InPhase(P, c, Reserving) && P.calls[c].target.Some?
    ensures CallsValid(Throttle(P, c)) && ActiveValid(Throttle(P, c))
  {
    ThrottledCall(P, c);
    OthersActive(P, Throttle(P, c), c);
  }

  lemma ThrottleValid(P: Process, c: CallId)
    requires Valid(P) && InPhase(P, c, Reserving)
    ensures Valid(Throttle(P, c))
  {
    assert CallValid(P.calls[c]);
    ThrottleCalls(P, c);
    ThrottleWaiters(P, c);
    ThrottleSlots(P, c);
  }

  lemma WrittenValid(P: Process, c: CallId, succeeded: bool)
    requires Valid(P) && InPhase(P, c, Writing)
    ensures Valid(Written(P, c, succeeded))
  {
    UpdateValid(P, Written(P, c, succeeded), c, Written(P, c, succeeded).calls[c]);
  }

  lemma RegisterValid(P: Process, c: CallId, now: int)
    requires Valid(P) && InPhase(P, c, Claimed)
    ensures Valid(Register(P, c, now))
  {
    var P' := Register(P, c, now);
    assert CallValid(P.calls[c]);
    UpdateValid(P, P', c, P'.calls[c]);
  }

  /** Registration `c` keeps its slot and its callback flag. */
  lemma EntryValid(P: Process, c: CallId, e: Entry)
    requires Valid(P) && IsRegistered(P, c)
    requires e.settled == P.calls[c].phase.entry.settled
    requires e.status.Waiting? || e.status == P.calls[c].phase.entry.status
    ensures Valid(WithEntry(P, c, e))
  {
    var P' := WithEntry(P, c, e);
    assert CallValid(P.calls[c]);
    forall id | id in P'.active
      ensures Has(P', id) && P'.calls[P'.active[id]].target == Some(id)
      ensures !Current(P', id).status.Waiting? ==> !Current(P', id).settled
    {
      assert Has(P, id);
    }
    UpdateValid(P, P', c, P'.calls[c]);
  }

  lemma StopValid(P: Process, id: ExecutionId)
    requires Valid(P)
    ensures Valid(Stop(P, id))
  {
    if Has(P, id) && !Current(P, id).status.Waiting? {
      EntryValid(P, P.active[id], Current(P, id).(promise := Settle(Current(P, id).promise, Rejected)));
    }
  }

  /** Call `c` after it has given up its slot, if it has one, and moved to its last phase. */
  function Leave(call: Call, phase: Phase): Call {
    call.(phase := phase, slot := if call.slot.Held? then Returned else call.slot)
  }

  predicate HandsOn(P: Process, call: Call) {
    call.slot.Held? && P.enabled && call.mode.Limited?
  }

  /** `P'` has moved `c` to its last phase; the freed slot goes to the longest waiting call. */
  function HandOver(P: Process, P': Process, c: CallId): Process
    requires c in P.calls
  {
    if HandsOn(P, P.calls[c]) then Grant(P'.(queue := Dequeued(P.queue)), P.queue.waiting)
    else P'.(drift := P.drift - if P.calls[c].slot.Held? && P.calls[c].mode.Limited? then 1 else 0)
  }

  lemma WaitersKept(P: Process, P': Process, c: CallId)
    requires WaitersValid(P) && c in P.calls && !P.calls[c].phase.Queued? && c in P'.calls
    requires P'.calls == P.calls[c := P'.calls[c]] && P'.queue.waiting == P.queue.waiting
    ensures WaitersValid(P')
  {
    assert forall k :: 0 <= k < |P.queue.waiting| ==> InPhase(P, P.queue.waiting[k].call, Queued);
  }

  lemma HandOverSlots(P: Process, P': Process, c: CallId)
    requires SlotsConserved(P) && c in P.calls && HandsOn(P, P.calls[c])
    requires c in P'.calls && P'.calls == P.calls[c := P'.calls[c]] && P'.calls[c].slot.Returned?
    requires P'.queue == Dequeued(P.queue) && P'.limit == P.limit
    ensures |Holders(P'.calls)| + (if P.queue.waiting == [] then 0 else 1) == InUse(P'.queue, P.limit) + P.drift
  {
    HoldersUpdate(P.calls, c, P'.calls[c]);
    assert c in Holders(P.calls);
    assert Holders(P'.calls) == Holders(P.calls) - {c};
  }

  lemma HoldersLoss(P: Process, P': Process, c: CallId)
    requires c in P.calls && c in P'.calls && P'.calls == P.calls[c := P'.calls[c]] && !P'.calls[c].slot.Held?
    ensures |Holders(P'.calls)| ==
      |Holders(P.calls)| - if P.calls[c].slot.Held? && P.calls[c].mode.Limited? then 1 else 0
  {
    HoldersUpdate(P.calls, c, P'.calls[c]);
    assert c in Holders(P.calls) <==> P.calls[c].slot.Held? && P.calls[c].mode.Limited?;
  }

  lemma HandOverValid(P: Process, P': Process, c: CallId, phase: Phase)
    requires Valid(P) && c in P.calls && !P.calls[c].phase.Queued?
    requires P' ==
      P.(calls := P.calls[c := Leave(P.calls[c], phase)], active := P'.active, responseModes := P'.responseModes)
    requires CallValid(P'.calls[c]) && ActiveValid(P')
    ensures Valid(HandOver(P, P', c))
  {
    WaitersKept(P, P', c);
    assert CallsValid(P');
    if HandsOn(P, P.calls[c]) {
      var P1 := P'.(queue := Dequeued(P.queue));
      HandOverSlots(P, P1, c);
      assert P1.(queue := P1.queue.(waiting := P.queue.waiting)).calls == P'.calls;
      GrantValid(P1, P.queue.waiting);
    } else {
      HoldersLoss(P, P', c);
    }
  }

  lemma HandThenMove(P: Process, c: CallId, phase: Phase)
    requires WaitersValid(P) && c in P.calls && !P.calls[c].phase.Queued? && HandsOn(P, P.calls[c])
    ensures c in Release(P, c).calls
    ensures Release(P, c).(calls := Release(P, c).calls[c := Release(P, c).calls[c].(phase := phase)])
         == HandOver(P, P.(calls := P.calls[c := Leave(P.calls[c], phase)]), c)
  {
    if P.queue.waiting == [] {
      assert P.calls[c := P.calls[c].(slot := Returned)][c := Leave(P.calls[c], phase)]
          == P.calls[c := Leave(P.calls[c], phase)];
    } else {
      var w: CallId := P.queue.waiting[0].call;
      assert InPhase(P, w, Queued);
      assert P.calls[c := P.calls[c].(slot := Returned)][w := WithSlot(P, P.calls[w])][c := Leave(P.calls[c], phase)]
          == P.calls[c := Leave(P.calls[c], phase)][w := WithSlot(P, P.calls[w])];
    }
  }

  /** Releasing first and moving `c` afterwards, as the code does, comes to the same. */
  lemma ReleaseThenMove(P: Process, c: CallId, phase: Phase)
    requires WaitersValid(P) && c in P.calls && !P.calls[c].phase.Queued?
    ensures c in Release(P, c).calls
    ensures Release(P, c).(calls := Release(P, c).calls[c := Release(P, c).calls[c].(phase := phase)])
         == HandOver(P, P.(calls := P.calls[c := Leave(P.calls[c], phase)]), c)
  {
    if HandsOn(P, P.calls[c]) {
      HandThenMove(P, c, phase);
    } else {
      assert P.calls[c := P.calls[c].(slot := Returned)][c := Leave(P.calls[c], phase)]
          == P.calls[c := Leave(P.calls[c], phase)];
    }
  }

  lemma ThrowValid(P: Process, c: CallId)
    requires Valid(P) && (InPhase(P, c, Creating) || InPhase(P, c, Refused))
    ensures Valid(Throw(P, c))
  {
    assert CallValid(P.calls[c]);
    ReleaseThenMove(P, c, Failed);
    var P' := P.(calls := P.calls[c := Leave(P.calls[c], Failed)]);
    OthersActive(P, P', c);
    HandOverValid(P, P', c, Failed);
  }

  /** The callback's effect apart from handing on the slot. */
  function AfterCallback(P: Process, c: CallId): Process
    requires CallbackDue(P, c)
  {
    var entry := P.calls[c].phase.entry;
    var P' := P.(calls := P.calls[c := Leave(P.calls[c], Registered(entry.(settled := true)))]);
    if entry.status.Waiting? then P' else Unregister(P', P.calls[c].target.value)
  }

  lemma CallbackIs(P: Process, c: CallId)
    requires WaitersValid(P) && CallbackDue(P, c)
    ensures RunCallback(P, c) == HandOver(P, AfterCallback(P, c), c)
  {
    ReleaseThenMove(P, c, Registered(P.calls[c].phase.entry.(settled := true)));
  }

  lemma CallbackActive(P: Process, c: CallId)
    requires ActiveValid(P) && CallbackDue(P, c)
    ensures ActiveValid(AfterCallback(P, c))
  {
    var P' := AfterCallback(P, c);
    forall i | i in P'.active
      ensures Has(P', i) && P'.calls[P'.active[i]].target == Some(i)
      ensures !Current(P', i).status.Waiting? ==> !Current(P', i).settled
    {
      assert Has(P, i);
    }
  }

  lemma CallbackValid(P: Process, c: CallId)
    requires Valid(P) && CallbackDue(P, c)
    ensures Valid(RunCallback(P, c))
  {
    assert CallValid(P.calls[c]);
    CallbackIs(P, c);
    CallbackActive(P, c);
    HandOverValid(P, AfterCallback(P, c), c, Registered(P.calls[c].phase.entry.(settled := true)));
  }

  lemma SplicedWaiters(P: Process, k: nat)
    requires WaitersValid(P) && k < |P.queue.waiting|
    ensures var rest := Splice(P.queue, k).waiting; var removed := P.queue.waiting[k].call;
      && (forall j :: 0 <= j < |rest| ==> rest[j].call != removed && InPhase(P, rest[j].call, Queued))
      && (forall j, l :: 0 <= j < l < |rest| ==> rest[j].call != rest[l].call)
  {
    var rest := Splice(P.queue, k).waiting;
    assert forall j :: 0 <= j < |rest| ==> rest[j] == P.queue.waiting[if j < k then j else j + 1];
  }

  lemma RemovedWaiters(P: Process, id: ExecutionId)
    requires WaitersValid(P) && IndexOf(P.queue.waiting, id) < |P.queue.waiting|
    requires P.queue.waiting[IndexOf(P.queue.waiting, id)].call in P.calls
    ensures var rest := Splice(P.queue, IndexOf(P.queue.waiting, id)).waiting; var P' := WithoutWaiter(P, id);
      WaitersValid(P'.(queue := P'.queue.(waiting := rest)))
  {
    SplicedWaiters(P, IndexOf(P.queue.waiting, id));
  }

  lemma RemovedSlots(P: Process, id: ExecutionId)
    requires WaitersValid(P) && P.enabled && SlotsConserved(P) && CallsValid(P)
    requires IndexOf(P.queue.waiting, id) < |P.queue.waiting|
    requires P.queue.waiting[IndexOf(P.queue.waiting, id)].call in P.calls
    ensures var rest := Splice(P.queue, IndexOf(P.queue.waiting, id)).waiting; var P' := WithoutWaiter(P, id);
      |Holders(P'.calls)| + (if rest == [] then 0 else 1) == InUse(P'.queue, P.limit) + P.drift
  {
    var removed := P.queue.waiting[IndexOf(P.queue.waiting, id)].call;
    assert InPhase(P, removed, Queued) && CallValid(P.calls[removed]);
    HoldersUpdate(P.calls, removed, P.calls[removed].(phase := Abandoned));
    assert Holders(P.calls) - {removed} == Holders(P.calls);
  }

  lemma RemoveQueuedValid(P: Process, id: ExecutionId)
    requires Valid(P)
    ensures Valid(RemoveQueued(P, id))
  {
    var k := IndexOf(P.queue.waiting, id);
    if P.enabled && k < |P.queue.waiting| {
      var removed := P.queue.waiting[k].call;
      assert InPhase(P, removed, Queued) && CallValid(P.calls[removed]);
      var P' := WithoutWaiter(P, id);
      OthersActive(P, P', removed);
      RemovedWaiters(P, id);
      RemovedSlots(P, id);
      GrantValid(P', Splice(P.queue, k).waiting);
    }
  }

  /** Handing on a slot changes no registration and no queue mode. */
  lemma HandOverFrame(P: Process, P': Process, c: CallId)
    requires WaitersValid(P) && c in P.calls && !P.calls[c].phase.Queued? && c in P'.calls
    requires P'.calls == P.calls[c := P'.calls[c]]
    ensures var Q := HandOver(P, P', c);
      && Q.active == P'.active && Q.responseModes == P'.responseModes && Q.calls.Keys == P.calls.Keys
      && (forall d :: d in P'.calls && !P'.calls[d].phase.Queued? ==> Q.calls[d] == P'.calls[d])
      && (forall d :: d in P'.calls && P'.calls[d].phase.Queued? ==>
            Q.calls[d] in {P'.calls[d], WithSlot(P', P'.calls[d])})
  {
    if HandsOn(P, P.calls[c]) && P.queue.waiting != [] {
      assert InPhase(P, P.queue.waiting[0].call, Queued);
    }
  }

  lemma AfterCallbackIs(P: Process, c: CallId)
    requires CallbackDue(P, c)
    ensures var P' := AfterCallback(P, c); var entry := P.calls[c].phase.entry; var id := P.calls[c].target.value;
      && (entry.status.Waiting? ==> P'.active == P.active && P'.responseModes == P.responseModes)
      && (!entry.status.Waiting? ==> P'.active == P.active - {id} && P'.responseModes == P.responseModes - {id})
      && P'.calls == P.calls[c := Leave(P.calls[c], Registered(entry.(settled := true)))]
      && P'.regular == P.regular
  {
  }

  /** What a settle callback does to the registry: it concerns its own id only, and nothing if it saw `waiting`. */
  lemma CallbackFrame(P: Process, c: CallId)
    requires WaitersValid(P) && CallbackDue(P, c)
    ensures var P' := RunCallback(P, c); var entry := P.calls[c].phase.entry; var id := P.calls[c].target.value;
      && (entry.status.Waiting? ==> P'.active == P.active && P'.responseModes == P.responseModes)
      && (!entry.status.Waiting? ==> P'.active == P.active - {id} && P'.responseModes == P.responseModes - {id})
      && P'.calls.Keys == P.calls.Keys
      && P'.calls[c] == Leave(P.calls[c], Registered(entry.(settled := true)))
      && (forall d :: d in P.calls && d != c && !P.calls[d].phase.Queued? ==> P'.calls[d] == P.calls[d])
      && (forall d :: d in P.calls && P.calls[d].phase.Queued? ==> P'.calls[d] in {P.calls[d], WithSlot(P, P.calls[d])})
  {
    CallbackIs(P, c);
    AfterCallbackIs(P, c);
    HandOverFrame(P, AfterCallback(P, c), c);
  }

  lemma ThrowFrame(P: Process, c: CallId)
    requires WaitersValid(P) && (InPhase(P, c, Creating) || InPhase(P, c, Refused))
    ensures var P' := Throw(P, c);
      && P'.active == P.active && P'.responseModes == P.responseModes && P'.calls.Keys == P.calls.Keys
      && P'.calls[c] == Leave(P.calls[c], Failed)
      && (forall d :: d in P.calls && d != c && !P.calls[d].phase.Queued? ==> P'.calls[d] == P.calls[d])
      && (forall d :: d in P.calls && P.calls[d].phase.Queued? ==> P'.calls[d] in {P.calls[d], WithSlot(P, P.calls[d])})
  {
    ReleaseThenMove(P, c, Failed);
    HandOverFrame(P, P.(calls := P.calls[c := Leave(P.calls[c], Failed)]), c);
  }

  lemma RemoveQueuedFrame(P: Process, id: ExecutionId)
    requires WaitersValid(P)
    ensures var P' := RemoveQueued(P, id);
      && P'.active == P.active && P'.responseModes == P.responseModes && P'.calls.Keys == P.calls.Keys
      && (forall d :: d in P.calls && !P.calls[d].phase.Queued? ==> P'.calls[d] == P.calls[d])
      && (forall d :: d in P.calls && P.calls[d].phase.Queued? ==>
            P'.calls[d] in {P.calls[d], WithSlot(P, P.calls[d]), P.calls[d].(phase := Abandoned)})
  {
    var k := IndexOf(P.queue.waiting, id);
    if P.enabled && k < |P.queue.waiting| {
      SplicedWaiters(P, k);
      var removed := P.queue.waiting[k].call;
      assert InPhase(P, removed, Queued);
      var rest := Splice(P.queue, k).waiting;
      var P' := WithoutWaiter(P, id);
      assert RemoveQueued(P, id) == Grant(P', rest);
      assert rest != [] ==> rest[0].call != removed && InPhase(P, rest[0].call, Queued);
    }
  }

  // ---- shutdown ----

  lemma ShutdownOneValid(P: Process, id: ExecutionId, cancelAll: bool)
    requires Valid(P)
    ensures Valid(ShutdownOne(P, id, cancelAll))
  {
    if P.regular && cancelAll {
      StopValid(P, id);
    } else {
      EntriesValid(P, ShutdownOne(P, id, cancelAll));
    }
  }

  /** Dropping entries from the registry keeps everything else. */
  lemma EntriesValid(P: Process, P': Process)
    requires Valid(P) && P' == P.(active := P'.active)
    requires forall id :: id in P'.active ==> id in P.active && P'.active[id] == P.active[id]
    ensures Valid(P')
  {
    forall id | id in P'.active
      ensures Has(P', id) && P'.calls[P'.active[id]].target == Some(id)
      ensures !Current(P', id).status.Waiting? ==> !Current(P', id).settled
    {
      assert Has(P, id);
    }
  }

  lemma ShutdownValid(P: Process, ids: seq<ExecutionId>, cancelAll: bool)
    requires Valid(P)
    ensures Valid(ShutdownEach(P, ids, cancelAll))
    decreases |ids|
  {
    if ids != [] {
      ShutdownOneValid(P, ids[0], cancelAll);
      ShutdownValid(ShutdownOne(P, ids[0], cancelAll), ids[1..], cancelAll);
    }
  }

  function IdleIds(P: Process, ids: seq<ExecutionId>): set<ExecutionId> {
    set id | id in ids && Has(P, id) && Idle(Current(P, id).status)
  }

  /** Without cancellation the first pass drops exactly the visited entries that are waiting or new. */
  lemma {:induction false} FirstPassDropsIdle(P: Process, ids: seq<ExecutionId>, cancelAll: bool)
    requires !(P.regular && cancelAll)
    ensures ShutdownEach(P, ids, cancelAll) == P.(active := P.active - IdleIds(P, ids))
    decreases |ids|
  {
    if ids == [] {
      assert P.active - {} == P.active;
    } else {
      var P1 := ShutdownOne(P, ids[0], cancelAll);
      FirstPassDropsIdle(P1, ids[1..], cancelAll);
      OneDropsIdle(P, ids[0], cancelAll);
      assert ids[..1] == [ids[0]];
      IdleIdsSplit(P, P1, ids);
    }
  }

  lemma OneDropsIdle(P: Process, id: ExecutionId, cancelAll: bool)
    requires !(P.regular && cancelAll)
    ensures ShutdownOne(P, id, cancelAll) == P.(active := P.active - IdleIds(P, [id]))
  {
    assert IdleIds(P, [id]) == if Has(P, id) && Idle(Current(P, id).status) then {id} else {};
    assert P.active - {} == P.active;
  }

  lemma IdleIdsSplit(P: Process, P1: Process, ids: seq<ExecutionId>)
    requires ids != [] && P1 == P.(active := P.active - IdleIds(P, ids[..1]))
    ensures P1.active - IdleIds(P1, ids[1..]) == P.active - IdleIds(P, ids)
  {
    var first, rest, later := IdleIds(P, ids[..1]), IdleIds(P, ids[1..]), IdleIds(P1, ids[1..]);
    assert forall id :: Has(P1, id) <==> Has(P, id) && id !in first;
    assert later == rest - first;
    assert ids == ids[..1] + ids[1..];
    assert IdleIds(P, ids) == first + rest;
    assert P.active - first - (rest - first) == P.active - (first + rest);
  }

  /** Every visited entry is out of the registry or has had its promise settled. */
  ghost predicate Cancelled(P: Process, ids: set<ExecutionId>) {
    forall id :: id in ids && id in P.active ==>
      Has(P, id) && !Current(P, id).status.Waiting? && !Current(P, id).promise.Pending?
  }

  lemma StopCancels(P: Process, stopped: ExecutionId, done: set<ExecutionId>)
    requires ActiveValid(P) && Cancelled(P, done)
    ensures Cancelled(Stop(P, stopped), done + {stopped}) && Stop(P, stopped).active.Keys <= P.active.Keys
  {
    var P1 := Stop(P, stopped);
    assert stopped in P.active ==> Has(P, stopped) && P.calls[P.active[stopped]].target == Some(stopped);
    forall id | id in done + {stopped} && id in P1.active
      ensures Has(P1, id) && !Current(P1, id).status.Waiting? && !Current(P1, id).promise.Pending?
    {
      assert Has(P, id) && P.calls[P.active[id]].target == Some(id);
    }
  }

  lemma {:induction false} FirstPassCancels(P: Process, ids: seq<ExecutionId>, done: set<ExecutionId>)
    requires Valid(P) && P.regular && Cancelled(P, done)
    ensures Cancelled(ShutdownEach(P, ids, true), done + set id | id in ids)
    ensures ShutdownEach(P, ids, true).active.Keys <= P.active.Keys
    decreases |ids|
  {
    if ids == [] {
      assert done + (set id | id in ids) == done;
    } else {
      var P1 := Stop(P, ids[0]);
      StopValid(P, ids[0]);
      StopCancels(P, ids[0], done);
      FirstPassCancels(P1, ids[1..], done + {ids[0]});
      assert (done + {ids[0]}) + (set id | id in ids[1..]) == done + (set id | id in ids);
    }
  }

  /** The registrations whose settle callback is still to run. */
  ghost function DueCalls(P: Process): set<CallId> {
    set c | c in P.calls && CallbackDue(P, c)
  }

  /** A run in which nothing happens but the settle callbacks of `cs`. */
  ghost predicate CallbacksRun(ps: seq<Process>, cs: seq<CallId>) {
    && |ps| == |cs| + 1
    && forall i :: 0 <= i < |cs| ==> CallbackDue(ps[i], cs[i]) && ps[i + 1] == RunCallback(ps[i], cs[i])
  }

  /** Each callback runs once, so their number bounds the run. */
  lemma CallbackLeavesFewer(P: Process, c: CallId)
    requires Valid(P) && CallbackDue(P, c)
    ensures DueCalls(RunCallback(P, c)) == DueCalls(P) - {c}
  {
    CallbackFrame(P, c);
  }

  lemma CallbackKeepsCancelled(P: Process, c: CallId)
    requires WaitersValid(P) && ActiveValid(P) && CallbackDue(P, c) && Cancelled(P, P.active.Keys)
    ensures Cancelled(RunCallback(P, c), RunCallback(P, c).active.Keys)
  {
    var P' := RunCallback(P, c);
    CallbackFrame(P, c);
    forall id | id in P'.active
      ensures Has(P', id) && !Current(P', id).status.Waiting? && !Current(P', id).promise.Pending?
    {
      assert id in P.active && Has(P, id) && P'.active[id] == P.active[id];
    }
  }

  lemma {:induction false} CallbacksKeepCancelled(ps: seq<Process>, cs: seq<CallId>, n: nat)
    requires CallbacksRun(ps, cs) && n <= |cs| && Valid(ps[0]) && Cancelled(ps[0], ps[0].active.Keys)
    ensures Valid(ps[n]) && Cancelled(ps[n], ps[n].active.Keys)
    ensures |DueCalls(ps[n])| == |DueCalls(ps[0])| - n
  {
    if n > 0 {
      CallbacksKeepCancelled(ps, cs, n - 1);
      assert ps[n - 1 + 1] == RunCallback(ps[n - 1], cs[n - 1]);
      CallbackValid(ps[n - 1], cs[n - 1]);
      CallbackKeepsCancelled(ps[n - 1], cs[n - 1]);
      CallbackLeavesFewer(ps[n - 1], cs[n - 1]);
    }
  }

  lemma DisableValid(P: Process)
    requires Valid(P)
    ensures Valid(Disable(P))
  {
    assert forall id :: id in P.active ==> Has(P, id) && Has(Disable(P), id);
  }

  lemma CancelledIsDue(P: Process, id: ExecutionId)
    requires ActiveValid(P) && Cancelled(P, P.active.Keys) && id in P.active
    ensures P.active[id] in DueCalls(P)
  {
    assert Has(P, id);
  }

  /**
   Shutdown with `cancelAll` in regular mode: once the callbacks of the settled
   promises have run, whatever their order, the registry is empty and the wait
   loop exits. It takes at most as many callbacks as were due.
   */
  lemma CancelAllEmptiesRegistry(P: Process, ids: seq<ExecutionId>, ps: seq<Process>, cs: seq<CallId>)
    requires Valid(P) && P.regular && P.active.Keys == set id | id in ids
    requires CallbacksRun(ps, cs) && ps[0] == ShutdownEach(Disable(P), ids, true)
    ensures |cs| <= |DueCalls(ps[0])|
    ensures DueCalls(ps[|cs|]) == {} ==> ps[|cs|].active == map[]
  {
    var P0 := Disable(P);
    DisableValid(P);
    ShutdownValid(P0, ids, true);
    FirstPassCancels(P0, ids, {});
    assert Cancelled(ps[0], ps[0].active.Keys);
    CallbacksKeepCancelled(ps, cs, |cs|);
    var last := ps[|cs|];
    if DueCalls(last) == {} && last.active != map[] {
      var id :| id in last.active;
      CancelledIsDue(last, id);
    }
  }
}
