/**
 What `add` does with one call, from its first step to its registration, in
 every run: which calls write a status and when, what a write does to the store,
 in which order throttled calls go on, and what a registration starts with.
 */
module AddTheorems {
  import opened Basics
  import opened Concurrency
  import opened Registry
  import opened ResumeProtocol
  import opened ResumeInvariant
  import opened ResumeRuns
  import opened ResumeCalls
  import opened SlotTheorems
  import opened ResumeTheorems

  // ---- from phase to phase ----

  /** Where a call goes once nothing holds it up: to a status write exactly if it resumes or the mode is regular. */
  function Onward(P: Process, call: Call): Phase {
    if call.resuming || P.regular then Writing else Claimed
  }

  /** The stored status that a resumed execution needs. */
  predicate StoredWaiting(s: System, id: Option<ExecutionId>) {
    id.Some? && id.value in s.store && s.store[id.value].Waiting?
  }

  /**
   The phases of a call as an automaton: what a step of its own process, other
   than a restart or its registration, makes of its phase.
   */
  function After(s: System, step: Step, p: nat, c: CallId): Phase
    requires p < |s.procs| && c in s.procs[p].calls
  {
    var P, e := s.procs[p], step.event;
    var call := P.calls[c];
    match call.phase
    case Creating =>
      if e.DoCreate? && e.call == c then (if call.mode.Evaluation? then Onward(P, call) else Reserving)
      else if e == DoThrow(c) then Failed else Creating
    case Reserving =>
      if e != DoThrottle(c) then Reserving
      else if P.enabled && call.mode.Limited? && P.queue.capacity <= 0 then Queued
      else Onward(P, call)
    case Queued =>
      if Grants(s, step, p, c) then Onward(P, call) else if Removes(s, step, p, c) then Abandoned else Queued
    case Writing =>
      if e == DoWrite(c) then (if call.resuming && !StoredWaiting(s, call.target) then Refused else Claimed)
      else if e.DoFailWrite? && e.call == c then Refused else Writing
    case Refused => if e == DoThrow(c) then Failed else Refused
    case other => other
  }

  /** A call that neither waits in the queue nor is the one that the step is about keeps its phase. */
  lemma UntouchedPhase(s: System, e: Event, p: nat, c: CallId)
    requires p < |s.procs| && Enabled(s, p, e) && WaitersValid(s.procs[p]) && !e.DoRestart?
    requires c in s.procs[p].calls && !s.procs[p].calls[c].phase.Queued? && !s.procs[p].calls[c].phase.Registered?
    requires !(e.DoCreate? || e.DoThrottle? || e.DoWrite? || e.DoFailWrite? || e.DoThrow? || e.DoRegister?) || e.call != c
    ensures InPhase(Next(s, p, e).procs[p], c, s.procs[p].calls[c].phase)
  {
    var P := s.procs[p];
    match e
    case DoThrow(d) => ThrowFrame(P, d);
    case DoCallback(d) => CallbackFrame(P, d);
    case DoRemoveQueued(id) => RemoveQueuedFrame(P, id);
    case DoShutdown(ids, cancelAll) => ShutdownKeepsPhase(Disable(P), ids, cancelAll, c);
    case _ => PlainPhase(s, e, p, c);
  }

  /** A step that takes no call out of the queue. */
  predicate PlainStep(e: Event) {
    !e.DoRestart? && !e.DoThrow? && !e.DoCallback? && !e.DoRemoveQueued? && !e.DoShutdown?
  }

  lemma PlainPhase(s: System, e: Event, p: nat, c: CallId)
    requires p < |s.procs| && Enabled(s, p, e) && PlainStep(e)
    requires c in s.procs[p].calls && !s.procs[p].calls[c].phase.Queued? && !s.procs[p].calls[c].phase.Registered?
    requires !(e.DoCreate? || e.DoThrottle? || e.DoWrite? || e.DoFailWrite? || e.DoRegister?) || e.call != c
    ensures InPhase(Next(s, p, e).procs[p], c, s.procs[p].calls[c].phase)
  {
    if IsLocal(e) {
      LocalNext(s, p, e);
      PlainLocalPhase(s.procs[p], e, c);
    } else {
      SharedNext(s, p, e);
    }
  }

  lemma PlainLocalPhase(P: Process, e: Event, c: CallId)
    requires IsLocal(e) && PlainStep(e) && Enabled(Alone(P), 0, e)
    requires c in P.calls && !P.calls[c].phase.Queued? && !P.calls[c].phase.Registered?
    requires !(e.DoThrottle? || e.DoRegister?) || e.call != c
    ensures InPhase(Local(P, e), c, P.calls[c].phase)
  {
  }

  lemma {:induction false} ShutdownKeepsPhase(P: Process, ids: seq<ExecutionId>, cancelAll: bool, c: CallId)
    requires c in P.calls && !P.calls[c].phase.Registered?
    ensures InPhase(ShutdownEach(P, ids, cancelAll), c, P.calls[c].phase)
    decreases |ids|
  {
    if ids != [] {
      ShutdownKeepsPhase(ShutdownOne(P, ids[0], cancelAll), ids[1..], cancelAll, c);
    }
  }

  lemma TouchedPhase(s: System, e: Event, p: nat, c: CallId)
    requires p < |s.procs| && Enabled(s, p, e) && CallsValid(s.procs[p]) && WaitersValid(s.procs[p])
    requires e.DoCreate? || e.DoThrottle? || e.DoWrite? || e.DoFailWrite? || e.DoThrow?
    requires e.call == c && c in s.procs[p].calls
    ensures InPhase(Next(s, p, e).procs[p], c, After(s, Step(p, e), p, c))
  {
    assert CallValid(s.procs[p].calls[c]);
    if e.DoThrow? {
      ThrowFrame(s.procs[p], c);
    }
  }

  /** Every step of the call's process follows the automaton. */
  lemma StepFollowsAutomaton(s: System, step: Step, p: nat, c: CallId)
    requires Inv(s) && step.proc == p < |s.procs| && Enabled(s, p, step.event) && !step.event.DoRestart?
    requires c in s.procs[p].calls && !s.procs[p].calls[c].phase.Registered? && !(step.event.DoRegister? && step.event.call == c)
    ensures InPhase(Next(s, p, step.event).procs[p], c, After(s, step, p, c))
  {
    var e := step.event;
    assert Valid(s.procs[p]);
    if s.procs[p].calls[c].phase.Queued? {
      StepPhase(s, step, Next(s, p, e), p, c);
    } else if (e.DoCreate? || e.DoThrottle? || e.DoWrite? || e.DoFailWrite? || e.DoThrow?) && e.call == c {
      TouchedPhase(s, e, p, c);
    } else {
      UntouchedPhase(s, e, p, c);
    }
  }

  /** A call begins by creating an execution, by reserving capacity, or, to resume an evaluation, by writing. */
  lemma BeginsIn(s: System, p: nat, c: CallId, mode: Mode, resume: Option<ExecutionId>)
    requires p < |s.procs| && Enabled(s, p, DoBegin(c, mode, resume))
    ensures var P, P' := s.procs[p], Next(s, p, DoBegin(c, mode, resume)).procs[p];
      && c in P'.calls && P'.calls - {c} == P.calls && P'.active == P.active && P'.queue == P.queue
      && var call := P'.calls[c];
         && call.mode == mode && call.resuming == resume.Some? && call.target == resume && call.slot.Never?
         && (call.phase.Creating? <==> resume.None?)
         && (call.phase.Reserving? <==> resume.Some? && !mode.Evaluation?)
         && (call.phase.Writing? <==> resume.Some? && mode.Evaluation?)
  {
  }

  // ---- which calls write a status ----

  ghost predicate WritersAllowed(P: Process) {
    forall c :: InPhase(P, c, Writing) ==> P.calls[c].resuming || P.regular
  }

  lemma StepKeepsWriters(s: System, step: Step, p: nat)
    requires Inv(s) && step.proc < |s.procs| && p < |s.procs| && Enabled(s, step.proc, step.event)
    requires WritersAllowed(s.procs[p])
    ensures WritersAllowed(Next(s, step.proc, step.event).procs[p])
  {
    var P, P' := s.procs[p], Next(s, step.proc, step.event).procs[p];
    if step.proc != p {
      OthersStay(s, step.proc, step.event, p);
    } else if !step.event.DoRestart? {
      StepKeepsRegular(s, p, step.event, p);
      forall c | InPhase(P', c, Writing)
        ensures P'.calls[c].resuming || P'.regular
      {
        WriterWasAllowed(s, step, p, c);
      }
    }
  }

  lemma WriterWasAllowed(s: System, step: Step, p: nat, c: CallId)
    requires Inv(s) && step.proc == p < |s.procs| && Enabled(s, p, step.event) && !step.event.DoRestart?
    requires WritersAllowed(s.procs[p]) && InPhase(Next(s, p, step.event).procs[p], c, Writing)
    ensures Next(s, p, step.event).procs[p].calls[c].resuming || s.procs[p].regular
  {
    var P, e := s.procs[p], step.event;
    assert Valid(P);
    if c in P.calls {
      OldWriterWasAllowed(s, step, p, c);
    } else {
      NewCallBegins(s, step, p, c);
    }
  }

  lemma OldWriterWasAllowed(s: System, step: Step, p: nat, c: CallId)
    requires Inv(s) && step.proc == p < |s.procs| && Enabled(s, p, step.event) && !step.event.DoRestart?
    requires WritersAllowed(s.procs[p]) && c in s.procs[p].calls && InPhase(Next(s, p, step.event).procs[p], c, Writing)
    ensures Next(s, p, step.event).procs[p].calls[c].resuming || s.procs[p].regular
  {
    var P, e := s.procs[p], step.event;
    assert Valid(P);
    StepDevelops(s, p, e, p);
    assert Develops(P.calls[c], Next(s, p, e).procs[p].calls[c]);
    if !P.calls[c].phase.Registered? && !(e.DoRegister? && e.call == c) {
      StepFollowsAutomaton(s, step, p, c);
    }
  }

  lemma NewCallBegins(s: System, step: Step, p: nat, c: CallId)
    requires Inv(s) && step.proc == p < |s.procs| && Enabled(s, p, step.event) && !step.event.DoRestart?
    requires c !in s.procs[p].calls && c in Next(s, p, step.event).procs[p].calls
    ensures step.event.DoBegin? && step.event.call == c
  {
    var P, e := s.procs[p], step.event;
    assert Valid(P);
    match e
    case DoThrow(d) => ThrowFrame(P, d);
    case DoCallback(d) => CallbackFrame(P, d);
    case DoRemoveQueued(id) => RemoveQueuedFrame(P, id);
    case DoShutdown(ids, cancelAll) => ShutdownKeepsKeys(Disable(P), ids, cancelAll);
    case _ => PlainKeys(s, e, p, c);
  }

  lemma PlainKeys(s: System, e: Event, p: nat, c: CallId)
    requires p < |s.procs| && Enabled(s, p, e) && PlainStep(e)
    requires c !in s.procs[p].calls && c in Next(s, p, e).procs[p].calls
    ensures e.DoBegin? && e.call == c
  {
    if IsLocal(e) {
      LocalNext(s, p, e);
      PlainLocalKeys(s.procs[p], e, c);
    } else {
      SharedNext(s, p, e);
    }
  }

  lemma PlainLocalKeys(P: Process, e: Event, c: CallId)
    requires IsLocal(e) && PlainStep(e) && Enabled(Alone(P), 0, e)
    requires c !in P.calls && c in Local(P, e).calls
    ensures e.DoBegin? && e.call == c
  {
  }

  lemma {:induction false} ShutdownKeepsKeys(P: Process, ids: seq<ExecutionId>, cancelAll: bool)
    ensures ShutdownEach(P, ids, cancelAll).calls.Keys == P.calls.Keys
    decreases |ids|
  {
    if ids != [] {
      ShutdownKeepsKeys(ShutdownOne(P, ids[0], cancelAll), ids[1..], cancelAll);
    }
  }

  /** In every run a call that is about to write a status resumes an execution, or its process is in regular mode. */
  lemma {:induction false} WritesOnlyIf(ss: seq<System>, steps: seq<Step>, n: nat, p: nat, c: CallId)
    requires Run(ss, steps) && n <= |steps| && p < |ss[n].procs| && InPhase(ss[n].procs[p], c, Writing)
    ensures ss[n].procs[p].calls[c].resuming || ss[n].procs[p].regular
  {
    RunKeepsWriters(ss, steps, n, p);
  }

  lemma {:induction false} RunKeepsWriters(ss: seq<System>, steps: seq<Step>, n: nat, p: nat)
    requires Run(ss, steps) && n <= |steps| && p < |ss[n].procs|
    ensures WritersAllowed(ss[n].procs[p])
  {
    if n > 0 {
      assert StepAt(ss, steps, n - 1);
      RunKeepsWriters(ss, steps, n - 1, p);
      ReachableInv(ss, steps, n - 1);
      StepKeepsWriters(ss[n - 1], steps[n - 1], p);
    }
  }

  // ---- what a status write does to the store ----

  function StatusAt(s: System, id: ExecutionId): Option<Status> {
    if id in s.store then Some(s.store[id]) else None
  }

  /**
   A status write makes its own execution `running`, unless it resumes one that
   is not stored as waiting, and changes the stored status of no other.
   */
  lemma WriteSets(s: System, p: nat, c: CallId, committed: bool, id: ExecutionId)
    requires p < |s.procs| && InPhase(s.procs[p], c, Writing) && Target(s.procs[p], c)
    ensures var call := s.procs[p].calls[c];
      var counts := call.target == Some(id) && (call.resuming ==> id in s.store && s.store[id].Waiting?);
      && StatusAt(Next(s, p, DoWrite(c)), id) == (if counts then Some(Running) else StatusAt(s, id))
      && StatusAt(Next(s, p, DoFailWrite(c, committed)), id) ==
           if counts && committed then Some(Running) else StatusAt(s, id)
  {
  }

  /**
   In queue mode no status write changes the stored status of an execution that
   was not waiting; one that is new stays new until somebody else writes.
   */
  lemma NewStaysNew(ss: seq<System>, steps: seq<Step>, k: nat, id: ExecutionId)
    requires Run(ss, steps) && k < |steps| && (steps[k].event.DoWrite? || steps[k].event.DoFailWrite?)
    requires steps[k].proc < |ss[k].procs| && !ss[k].procs[steps[k].proc].regular
    requires id in ss[k].store && !ss[k].store[id].Waiting?
    ensures id in ss[k + 1].store && ss[k + 1].store[id] == ss[k].store[id]
  {
    assert StepAt(ss, steps, k);
    var p, c := steps[k].proc, steps[k].event.call;
    WritesOnlyIf(ss, steps, k, p, c);
  }

  /** What every other step does to the stored status of an execution. */
  lemma StoreStep(s: System, p: nat, e: Event, id: ExecutionId)
    requires p < |s.procs| && Enabled(s, p, e) && !e.DoWrite? && !e.DoFailWrite?
    ensures StatusAt(Next(s, p, e), id) ==
      if e.DoCreate? && e.id == id then Some(New)
      else if e.DoStore? && e.id == id then Some(e.status)
      else if e == DoJobWaits(id) || (e.DoStoreWaiting? && s.procs[p].calls[e.call].target == Some(id))
      then Some(Status.Waiting)
      else StatusAt(s, id)
  {
  }

  // ---- throttled calls go on in the order in which they came ----

  /** `a` stands before `b` in the queue. */
  ghost predicate Ahead(waiting: seq<Waiter>, a: CallId, b: CallId) {
    exists i, j :: 0 <= i < j < |waiting| && waiting[i].call == a && waiting[j].call == b
  }

  ghost predicate InLine(waiting: seq<Waiter>, c: CallId) {
    exists i :: 0 <= i < |waiting| && waiting[i].call == c
  }

  /** Every throttled call has its place in the queue. */
  ghost predicate AllInLine(P: Process) {
    forall c :: InPhase(P, c, Queued) ==> InLine(P.queue.waiting, c)
  }

  predicate TakesHead(P: Process, d: CallId) {
    d in P.calls && P.calls[d].slot.Held? && P.calls[d].mode.Limited? && P.enabled && P.queue.waiting != []
  }

  /** The queue after a step of its process that is no restart. */
  function LineAfter(P: Process, e: Event): seq<Waiter> {
    match e
    case DoThrottle(c) =>
      if c in P.calls && P.calls[c].target.Some? && P.enabled && P.calls[c].mode.Limited? && P.queue.capacity <= 0
      then P.queue.waiting + [Waiter(P.calls[c].target.value, c)]
      else P.queue.waiting
    case DoThrow(d) => if TakesHead(P, d) then P.queue.waiting[1..] else P.queue.waiting
    case DoCallback(d) => if TakesHead(P, d) then P.queue.waiting[1..] else P.queue.waiting
    case DoRemoveQueued(id) =>
      var k := IndexOf(P.queue.waiting, id);
      if !P.enabled || k == |P.queue.waiting| then P.queue.waiting
      else
        var rest := P.queue.waiting[..k] + P.queue.waiting[k + 1..];
        if rest == [] then [] else rest[1..]
    case _ => P.queue.waiting
  }

  lemma LocalLine(P: Process, e: Event)
    requires WaitersValid(P) && IsLocal(e) && Enabled(Alone(P), 0, e) && !e.DoRestart?
    ensures Local(P, e).queue.waiting == LineAfter(P, e)
  {
    match e
    case DoThrow(c) => ThrowLine(P, c);
    case DoCallback(c) => CallbackLine(P, c);
    case DoRemoveQueued(id) => RemovalLine(P, id);
    case DoShutdown(ids, cancelAll) => ShutdownQueue(Disable(P), ids, cancelAll);
    case _ => PlainLine(P, e);
  }

  lemma RemovalLine(P: Process, id: ExecutionId)
    requires WaitersValid(P)
    ensures RemoveQueued(P, id).queue.waiting == LineAfter(P, DoRemoveQueued(id))
  {
    if P.enabled {
      RemovedQueue(P, id);
    }
  }

  lemma ThrowLine(P: Process, c: CallId)
    requires InPhase(P, c, Creating) || InPhase(P, c, Refused)
    ensures Throw(P, c).queue.waiting == LineAfter(P, DoThrow(c))
  {
    ReleaseLine(P, c);
  }

  lemma CallbackLine(P: Process, c: CallId)
    requires CallbackDue(P, c)
    ensures RunCallback(P, c).queue.waiting == LineAfter(P, DoCallback(c))
  {
    ReleaseLine(P, c);
  }

  lemma PlainLine(P: Process, e: Event)
    requires IsLocal(e) && PlainStep(e) && Enabled(Alone(P), 0, e)
    ensures Local(P, e).queue.waiting == LineAfter(P, e)
  {
  }

  lemma ReleaseLine(P: Process, c: CallId)
    requires c in P.calls
    ensures Release(P, c).queue.waiting == if TakesHead(P, c) then P.queue.waiting[1..] else P.queue.waiting
  {
  }

  lemma StepLine(s: System, e: Event, p: nat)
    requires p < |s.procs| && Enabled(s, p, e) && WaitersValid(s.procs[p]) && !e.DoRestart?
    ensures Next(s, p, e).procs[p].queue.waiting == LineAfter(s.procs[p], e)
  {
    if IsLocal(e) {
      LocalNext(s, p, e);
      LocalLine(s.procs[p], e);
    } else {
      SharedNext(s, p, e);
    }
  }

  /** Where the waiter at `i` stands after the step, if it is still throttled. */
  function Place(P: Process, e: Event, i: nat): int {
    match e
    case DoThrow(d) => if TakesHead(P, d) then i - 1 else i
    case DoCallback(d) => if TakesHead(P, d) then i - 1 else i
    case DoRemoveQueued(id) =>
      var k := IndexOf(P.queue.waiting, id);
      if !P.enabled || k == |P.queue.waiting| then i else if i < k then i - 1 else i - 2
    case _ => i
  }

  /** A call that a step leaves throttled keeps its place among those that it leaves throttled. */
  lemma KeptAt(P: Process, e: Event, i: nat)
    requires WaitersValid(P) && i < |P.queue.waiting|
    requires var c := P.queue.waiting[i].call;
      !Grants(Alone(P), Step(0, e), 0, c) && !Removes(Alone(P), Step(0, e), 0, c)
    ensures 0 <= Place(P, e, i) < |LineAfter(P, e)| && LineAfter(P, e)[Place(P, e, i)] == P.queue.waiting[i]
  {
    if e.DoRemoveQueued? {
      KeptByRemoval(P, e.id, i);
    }
  }

  lemma KeptByRemoval(P: Process, id: ExecutionId, i: nat)
    requires i < |P.queue.waiting|
    requires var c := P.queue.waiting[i].call;
      !Grants(Alone(P), Step(0, DoRemoveQueued(id)), 0, c) && !Removes(Alone(P), Step(0, DoRemoveQueued(id)), 0, c)
    ensures var after, j := LineAfter(P, DoRemoveQueued(id)), Place(P, DoRemoveQueued(id), i);
      0 <= j < |after| && after[j] == P.queue.waiting[i]
  {
    var k := IndexOf(P.queue.waiting, id);
    if P.enabled && k < |P.queue.waiting| {
      var rest := P.queue.waiting[..k] + P.queue.waiting[k + 1..];
      assert rest == Splice(P.queue, k).waiting;
      assert rest[if i < k then i else i - 1] == P.queue.waiting[i];
    }
  }

  lemma LineKeeps(P: Process, e: Event, a: CallId)
    requires WaitersValid(P) && InLine(P.queue.waiting, a)
    requires !Grants(Alone(P), Step(0, e), 0, a) && !Removes(Alone(P), Step(0, e), 0, a)
    ensures InLine(LineAfter(P, e), a)
  {
    var i: nat :| i < |P.queue.waiting| && P.queue.waiting[i].call == a;
    KeptAt(P, e, i);
  }

  /** Nobody is granted a slot past another that the step leaves throttled. */
  lemma NotPast(P: Process, e: Event, i: nat, j: nat)
    requires WaitersValid(P) && i < j < |P.queue.waiting|
    requires var c := P.queue.waiting[i].call;
      !Grants(Alone(P), Step(0, e), 0, c) && !Removes(Alone(P), Step(0, e), 0, c)
    ensures !Grants(Alone(P), Step(0, e), 0, P.queue.waiting[j].call)
  {
    if e.DoRemoveQueued? && P.enabled && IndexOf(P.queue.waiting, e.id) < |P.queue.waiting| {
      var k := IndexOf(P.queue.waiting, e.id);
      var rest := Splice(P.queue, k).waiting;
      assert rest[if i < k then i else i - 1] == P.queue.waiting[i];
    }
  }

  lemma LineKeepsOrder(P: Process, e: Event, a: CallId, b: CallId)
    requires WaitersValid(P) && Ahead(P.queue.waiting, a, b)
    requires !Grants(Alone(P), Step(0, e), 0, a) && !Removes(Alone(P), Step(0, e), 0, a)
    requires !Removes(Alone(P), Step(0, e), 0, b)
    ensures !Grants(Alone(P), Step(0, e), 0, b) && Ahead(LineAfter(P, e), a, b)
  {
    var i: nat, j: nat :| i < j < |P.queue.waiting| && P.queue.waiting[i].call == a && P.queue.waiting[j].call == b;
    NotPast(P, e, i, j);
    KeptAt(P, e, i);
    KeptAt(P, e, j);
    assert Place(P, e, i) < Place(P, e, j);
  }

  lemma StepKeepsLine(s: System, step: Step, p: nat)
    requires Inv(s) && step.proc < |s.procs| && p < |s.procs| && Enabled(s, step.proc, step.event)
    requires AllInLine(s.procs[p])
    ensures AllInLine(Next(s, step.proc, step.event).procs[p])
  {
    var P, P' := s.procs[p], Next(s, step.proc, step.event).procs[p];
    assert Valid(P);
    if step.proc != p {
      OthersStay(s, step.proc, step.event, p);
    } else if !step.event.DoRestart? {
      forall c | InPhase(P', c, Queued)
        ensures InLine(P'.queue.waiting, c)
      {
        KeepsPlace(s, step, p, c);
      }
    }
  }

  lemma KeepsPlace(s: System, step: Step, p: nat, c: CallId)
    requires Inv(s) && step.proc == p < |s.procs| && Enabled(s, p, step.event) && !step.event.DoRestart?
    requires AllInLine(s.procs[p]) && InPhase(Next(s, p, step.event).procs[p], c, Queued)
    ensures InLine(Next(s, p, step.event).procs[p].queue.waiting, c)
  {
    var P, e := s.procs[p], step.event;
    assert Valid(P);
    StepLine(s, e, p);
    ThrottledCameFrom(s, step, p, c);
    if InPhase(P, c, Queued) {
      LineKeeps(P, e, c);
    } else {
      assert LineAfter(P, e)[|P.queue.waiting|].call == c;
    }
  }

  /** A throttled call was so before and is left so by the step, or the step throttles it. */
  lemma ThrottledCameFrom(s: System, step: Step, p: nat, c: CallId)
    requires Inv(s) && step.proc == p < |s.procs| && Enabled(s, p, step.event) && !step.event.DoRestart?
    requires InPhase(Next(s, p, step.event).procs[p], c, Queued)
    ensures var P := s.procs[p];
      if InPhase(P, c, Queued) then !Grants(s, step, p, c) && !Removes(s, step, p, c)
      else
        && step.event == DoThrottle(c) && InPhase(P, c, Reserving)
        && P.enabled && P.calls[c].mode.Limited? && P.queue.capacity <= 0
  {
    var P, e := s.procs[p], step.event;
    assert Valid(P);
    if c !in P.calls {
      NewCallBegins(s, step, p, c);
    } else if P.calls[c].phase.Registered? || e == DoRegister(c, if e.DoRegister? then e.now else 0) {
      NotThrottledAgain(s, step, p, c);
    } else {
      StepFollowsAutomaton(s, step, p, c);
    }
  }

  lemma NotThrottledAgain(s: System, step: Step, p: nat, c: CallId)
    requires Inv(s) && step.proc == p < |s.procs| && Enabled(s, p, step.event) && !step.event.DoRestart?
    requires c in s.procs[p].calls
    requires s.procs[p].calls[c].phase.Registered? || (step.event.DoRegister? && step.event.call == c)
    ensures !InPhase(Next(s, p, step.event).procs[p], c, Queued)
  {
    StepDevelops(s, p, step.event, p);
  }

  lemma {:induction false} RunKeepsLine(ss: seq<System>, steps: seq<Step>, n: nat, p: nat)
    requires Run(ss, steps) && n <= |steps| && p < |ss[n].procs|
    ensures AllInLine(ss[n].procs[p])
  {
    if n > 0 {
      assert StepAt(ss, steps, n - 1);
      RunKeepsLine(ss, steps, n - 1, p);
      ReachableInv(ss, steps, n - 1);
      StepKeepsLine(ss[n - 1], steps[n - 1], p);
    }
  }

  lemma ThrottledBehind(ss: seq<System>, steps: seq<Step>, i: nat, p: nat, a: CallId, b: CallId)
    requires Run(ss, steps) && i < |steps| && steps[i] == Step(p, DoThrottle(b)) && p < |ss[i].procs|
    requires InPhase(ss[i].procs[p], a, Queued)
    requires p < |ss[i + 1].procs| && InPhase(ss[i + 1].procs[p], b, Queued)
    ensures Ahead(ss[i + 1].procs[p].queue.waiting, a, b)
  {
    assert StepAt(ss, steps, i);
    var P := ss[i].procs[p];
    ReachableInv(ss, steps, i);
    assert Valid(P);
    RunKeepsLine(ss, steps, i, p);
    StepLine(ss[i], DoThrottle(b), p);
    StepFollowsAutomaton(ss[i], steps[i], p, b);
    JoinsTheEnd(P, a, b);
  }

  lemma JoinsTheEnd(P: Process, a: CallId, b: CallId)
    requires InLine(P.queue.waiting, a) && b in P.calls && P.calls[b].target.Some?
    requires P.enabled && P.calls[b].mode.Limited? && P.queue.capacity <= 0
    ensures Ahead(LineAfter(P, DoThrottle(b)), a, b)
  {
    var k :| 0 <= k < |P.queue.waiting| && P.queue.waiting[k].call == a;
    var after := LineAfter(P, DoThrottle(b));
    assert after[k].call == a && after[|P.queue.waiting|].call == b;
  }

  /** One step: while `a` is throttled, `b` behind it stays so, or is removed. */
  lemma StepKeepsOrder(ss: seq<System>, steps: seq<Step>, m: nat, p: nat, a: CallId, b: CallId)
    requires Run(ss, steps) && m < |steps| && p < |ss[m].procs| && !(steps[m].proc == p && steps[m].event.DoRestart?)
    requires InPhase(ss[m].procs[p], a, Queued) && InPhase(ss[m].procs[p], b, Queued)
    requires Ahead(ss[m].procs[p].queue.waiting, a, b)
    requires p < |ss[m + 1].procs| && InPhase(ss[m + 1].procs[p], a, Queued)
    ensures InPhase(ss[m + 1].procs[p], b, Abandoned) ||
      (InPhase(ss[m + 1].procs[p], b, Queued) && Ahead(ss[m + 1].procs[p].queue.waiting, a, b))
  {
    assert StepAt(ss, steps, m);
    ReachableInv(ss, steps, m);
    var P, e := ss[m].procs[p], steps[m].event;
    assert Valid(P);
    RunPhase(ss, steps, m, p, a);
    RunPhase(ss, steps, m, p, b);
    if steps[m].proc != p {
      OthersStay(ss[m], steps[m].proc, e, p);
    } else {
      StepLine(ss[m], e, p);
      if !Removes(ss[m], steps[m], p, b) {
        LineKeepsOrder(P, e, a, b);
      }
    }
  }

  lemma {:induction false} BehindOrGone(
      ss: seq<System>, steps: seq<Step>, i: nat, m: nat, n: nat, p: nat, a: CallId, b: CallId)
    requires Run(ss, steps) && i <= m <= n <= |steps| && Lives(steps, i, n, p)
    requires p < |ss[i].procs| && InPhase(ss[i].procs[p], a, Queued) && InPhase(ss[i].procs[p], b, Queued)
    requires Ahead(ss[i].procs[p].queue.waiting, a, b)
    requires p < |ss[n].procs| && InPhase(ss[n].procs[p], a, Queued)
    ensures p < |ss[m].procs|
    ensures InPhase(ss[m].procs[p], b, Abandoned) ||
      (InPhase(ss[m].procs[p], b, Queued) && Ahead(ss[m].procs[p].queue.waiting, a, b))
  {
    if i < m {
      var last := m - 1;
      BehindOrGone(ss, steps, i, last, n, p, a, b);
      StillThrottled(ss, steps, i, last, n, p, a);
      StillThrottled(ss, steps, i, m, n, p, a);
      if InPhase(ss[last].procs[p], b, Abandoned) {
        CallDevelops(ss, steps, last, m, p, b);
      } else {
        StepKeepsOrder(ss, steps, last, p, a, b);
      }
    }
  }

  /** A call that is throttled at two moments was so in between. */
  lemma StillThrottled(ss: seq<System>, steps: seq<Step>, i: nat, m: nat, n: nat, p: nat, a: CallId)
    requires Run(ss, steps) && i <= m <= n <= |steps| && Lives(steps, i, n, p)
    requires p < |ss[i].procs| && InPhase(ss[i].procs[p], a, Queued)
    requires p < |ss[n].procs| && InPhase(ss[n].procs[p], a, Queued)
    ensures p < |ss[m].procs| && InPhase(ss[m].procs[p], a, Queued)
  {
    CallDevelops(ss, steps, i, m, p, a);
    CallDevelops(ss, steps, m, n, p, a);
  }

  /**
   First come, first served: if `b` is throttled while `a` already is, then
   whenever `b` has gone on, `a` is no longer throttled, in every run.
   */
  lemma FirstComeFirstServed(ss: seq<System>, steps: seq<Step>, i: nat, n: nat, p: nat, a: CallId, b: CallId)
    requires Run(ss, steps) && i < n <= |steps| && Lives(steps, i, n, p) && steps[i] == Step(p, DoThrottle(b))
    requires p < |ss[i].procs| && InPhase(ss[i].procs[p], a, Queued)
    requires p < |ss[i + 1].procs| && InPhase(ss[i + 1].procs[p], b, Queued)
    requires p < |ss[n].procs| && WentOn(ss[n].procs[p], b)
    ensures !InPhase(ss[n].procs[p], a, Queued)
  {
    if InPhase(ss[n].procs[p], a, Queued) {
      StillThrottled(ss, steps, i, i + 1, n, p, a);
      ThrottledBehind(ss, steps, i, p, a, b);
      BehindOrGone(ss, steps, i + 1, n, n, p, a, b);
    }
  }

  // ---- what a registration starts with ----

  /**
   A registration starts as running and pending, with an engine in this process.
   One of an execution that is not in the registry starts at the clock's time and
   without a response promise; another takes both over from the one it supersedes.
   */
  lemma RegisterStarts(s: System, p: nat, c: CallId, now: int)
    requires Inv(s) && p < |s.procs| && Enabled(s, p, DoRegister(c, now))
    ensures var P, P' := s.procs[p], Next(s, p, DoRegister(c, now)).procs[p]; var id := P.calls[c].target.value;
      && IsRegistered(P', c) && P'.active == P.active[id := c] && P'.calls - {c} == P.calls - {c}
      && var e := P'.calls[c].phase.entry;
         && e.status == Running && e.promise == Pending && !e.settled && e.engine && !e.offloaded
         && (id !in P.active ==> e.startedAt == now && e.responder == None)
         && (id in P.active ==>
              && IsRegistered(P, P.active[id])
              && e.startedAt == P.calls[P.active[id]].phase.entry.startedAt
              && e.responder == P.calls[P.active[id]].phase.entry.responder)
  {
    var P := s.procs[p];
    assert Valid(P) && ActiveValid(P);
    var id := P.calls[c].target.value;
    assert id in P.active ==> Has(P, id);
  }

  /** Attaching a response promise to a registered execution attaches that promise and changes nothing else of it. */
  lemma AttachAttaches(s: System, p: nat, id: ExecutionId, responder: nat)
    requires Inv(s) && p < |s.procs|
    ensures var P, P' := s.procs[p], Next(s, p, DoAttachResponder(id, responder)).procs[p];
      if id !in P.active then P' == P
      else
        && P'.active == P.active && IsRegistered(P, P.active[id]) && IsRegistered(P', P.active[id])
        && P'.calls[P.active[id]].phase.entry == P.calls[P.active[id]].phase.entry.(responder := Some(responder))
        && P'.calls - {P.active[id]} == P.calls - {P.active[id]}
  {
    assert Valid(s.procs[p]) && ActiveValid(s.procs[p]);
  }

  // ---- waiting and being resumed ----

  /** The engine of the current registration of `id` marks it as waiting, and nothing else of it changes. */
  lemma MarksWaiting(s: System, p: nat, c: CallId, id: ExecutionId)
    requires Inv(s) && p < |s.procs| && Engine(s.procs[p], c) && s.procs[p].calls[c].target == Some(id)
    requires id in s.procs[p].active
    ensures var P, P' := s.procs[p], Next(s, p, DoSetWaiting(c)).procs[p];
      && P.active[id] == c && IsRegistered(P', c) && P'.active == P.active
      && P'.calls[c].phase.entry == P.calls[c].phase.entry.(status := Status.Waiting)
      && P'.calls - {c} == P.calls - {c}
  {
    var P := s.procs[p];
    assert Valid(P) && ActiveValid(P) && ClaimedIsCurrent(P);
    assert Claims(P.calls[c], id);
  }

  /**
   An execution that its engine has put to wait outlives the end of that run: the
   settle callback returns the slot and leaves the entry and the response mode,
   so that a later resume finds both.
   */
  lemma WaitingOutlivesCallback(
      ss: seq<System>, steps: seq<Step>, i: nat, n: nat, p: nat, c: CallId, id: ExecutionId)
    requires Run(ss, steps) && i < n < |steps| && Lives(steps, i, n, p)
    requires steps[i] == Step(p, DoSetWaiting(c)) && steps[n] == Step(p, DoCallback(c))
    requires p < |ss[i].procs| && id in ss[i].procs[p].active && c in ss[i].procs[p].calls
    requires ss[i].procs[p].calls[c].target == Some(id)
    ensures p < |ss[n].procs| && p < |ss[n + 1].procs|
    ensures var P, P' := ss[n].procs[p], ss[n + 1].procs[p];
      && P'.active == P.active && P'.responseModes == P.responseModes
      && c in P'.calls && !P'.calls[c].slot.Held?
  {
    MarkedStays(ss, steps, i, n, p, c, id);
    assert StepAt(ss, steps, n);
    ReachableInv(ss, steps, n);
    assert Valid(ss[n].procs[p]);
    CallbackFrame(ss[n].procs[p], c);
  }

  lemma MarkedStays(ss: seq<System>, steps: seq<Step>, i: nat, n: nat, p: nat, c: CallId, id: ExecutionId)
    requires Run(ss, steps) && i < n <= |steps| && Lives(steps, i, n, p) && steps[i] == Step(p, DoSetWaiting(c))
    requires p < |ss[i].procs| && id in ss[i].procs[p].active && c in ss[i].procs[p].calls
    requires ss[i].procs[p].calls[c].target == Some(id)
    ensures p < |ss[n].procs| && HasStatus(ss[n].procs[p], c, Status.Waiting)
  {
    assert StepAt(ss, steps, i);
    ReachableInv(ss, steps, i);
    MarksWaiting(ss[i], p, c, id);
    CallDevelops(ss, steps, i + 1, n, p, c);
  }

  // ---- settling and control ----

  /** Finalizing hands its result, and stopping a run that does not wait a rejection, to a promise still pending. */
  lemma PromiseIsSettled(s: System, p: nat, id: ExecutionId, result: Result)
    requires Inv(s) && p < |s.procs| && id in s.procs[p].active
    ensures var P := s.procs[p]; var c := P.active[id]; var e := P.calls[c].phase;
      && e.Registered?
      && var finalized, stopped := Next(s, p, DoFinalize(id, result)).procs[p], Next(s, p, DoStop(id)).procs[p];
         && c in finalized.calls && finalized.calls[c].phase ==
              (if e.entry.promise.Pending? then Registered(e.entry.(promise := Resolved(result))) else e)
         && c in stopped.calls && stopped.calls[c].phase ==
              (if e.entry.promise.Pending? && !e.entry.status.Waiting? then Registered(e.entry.(promise := Rejected))
               else e)
  {
    assert Valid(s.procs[p]) && ActiveValid(s.procs[p]);
  }

  /**
   Concurrency control over one step of its process: shutdown switches it off, in
   regular mode only; resolving the limit on evaluations, once, switches it on if
   there is one; nothing else changes it while the process lives.
   */
  lemma ControlStep(s: System, p: nat, e: Event)
    requires p < |s.procs| && Enabled(s, p, e) && !e.DoRestart?
    ensures var P, P' := s.procs[p], Next(s, p, e).procs[p];
      && (P'.enabled <==>
            if e.DoShutdown? then P.enabled && !P.regular
            else P.enabled || (e.DoResolveEvaluation? && P.lazy && e.limited))
      && (P'.lazy <==> P.lazy && !e.DoResolveEvaluation?)
      && P'.regular == P.regular && P'.limit == P.limit
  {
    if e.DoShutdown? {
      ShutdownQueue(Disable(s.procs[p]), e.ids, e.cancelAll);
      ShutdownKeepsLazy(Disable(s.procs[p]), e.ids, e.cancelAll);
    } else {
      ControlPlain(s, p, e);
    }
  }

  lemma ControlPlain(s: System, p: nat, e: Event)
    requires p < |s.procs| && Enabled(s, p, e) && !e.DoRestart? && !e.DoShutdown?
    ensures ControlIs(s.procs[p], e, Next(s, p, e).procs[p])
  {
    if IsLocal(e) {
      LocalNext(s, p, e);
      ControlLocal(s.procs[p], e);
    } else {
      SharedNext(s, p, e);
    }
  }

  predicate ControlIs(P: Process, e: Event, P': Process) {
    && (P'.enabled <==> P.enabled || (e.DoResolveEvaluation? && P.lazy && e.limited))
    && (P'.lazy <==> P.lazy && !e.DoResolveEvaluation?)
    && P'.regular == P.regular && P'.limit == P.limit
  }

  lemma ReleaseControl(P: Process, c: CallId)
    requires c in P.calls
    ensures var P' := Release(P, c);
      P'.enabled == P.enabled && P'.lazy == P.lazy && P'.regular == P.regular && P'.limit == P.limit
  {
  }

  lemma RemovalControl(P: Process, id: ExecutionId)
    ensures ControlIs(P, DoRemoveQueued(id), RemoveQueued(P, id))
  {
  }

  lemma ControlLocal(P: Process, e: Event)
    requires IsLocal(e) && Enabled(Alone(P), 0, e) && !e.DoRestart? && !e.DoShutdown?
    ensures ControlIs(P, e, Local(P, e))
  {
    match e
    case DoThrow(c) => ReleaseControl(P, c);
    case DoCallback(c) => ReleaseControl(P, c);
    case DoRemoveQueued(id) => RemovalControl(P, id);
    case _ => PlainControl(P, e);
  }

  lemma PlainControl(P: Process, e: Event)
    requires IsLocal(e) && PlainStep(e) && Enabled(Alone(P), 0, e)
    ensures ControlIs(P, e, Local(P, e))
  {
  }

  /** A process starts with nothing registered, reserved or queued, and with the limit it is configured with. */
  lemma RestartClears(s: System, p: nat, e: Event)
    requires p < |s.procs| && e.DoRestart?
    ensures var P' := Next(s, p, e).procs[p];
      && P'.calls == map[] && P'.active == map[] && P'.responseModes == map[]
      && P'.queue.waiting == [] && P'.queue.capacity == e.limit == P'.limit && P'.drift == 0
      && P'.regular == e.regular && P'.enabled == e.enabled
      && (P'.lazy <==> e.regular && e.enabled && e.lazy)
    ensures Next(s, p, e).store == s.store && Next(s, p, e).jobs == s.jobs
  {
  }
}
