/**
 Every step of the resume protocol keeps its invariant. So in every run an execution is
 resumed once per waiting spell, at most one engine drives it, and its calls only move
 forward.
 */
module ResumeRuns {
  import opened Basics
  import opened Registry
  import opened ResumeProtocol
  import opened ResumeInvariant
  import opened ResumeCalls

  lemma LocalKeepsInv(s: System, p: nat, e: Event)
    requires Inv(s) && p < |s.procs| && Enabled(s, p, e) && IsLocal(e) && !e.DoRegister?
    ensures Inv(Next(s, p, e))
  {
    LocalValid(s, p, e);
    LocalShrinks(s, p, e);
    ShrinkKeepsInv(s, p, Local(s.procs[p], e), s.store);
  }

  lemma StepKeepsInv(s: System, p: nat, e: Event)
    requires Inv(s) && p < |s.procs| && Enabled(s, p, e)
    ensures Inv(Next(s, p, e))
  {
    var P := s.procs[p];
    match e
    case DoCreate(c, id) => CreateKeepsInv(s, p, c, id);
    case DoWrite(_) => WriteKeepsInv(s, p, e);
    case DoFailWrite(_, _) => WriteKeepsInv(s, p, e);
    case DoStoreWaiting(c) => StoreWaitingKeepsInv(s, p, c);
    case DoEnqueue(c) => EnqueueKeepsInv(s, p, c);
    case DoJobWaits(id) => WaitKeepsInv(s, id);
    case DoJobEnds(id) => JobEndKeepsInv(s, id);
    case DoRegister(c, now) => RegisterKeepsInv(s, p, c, now);
    case DoStore(id, status) =>
      assert Shrinks(P, P);
      ShrinkKeepsInv(s, p, P, s.store[id := status]);
      assert s.procs[p := P] == s.procs;
    case _ => LocalKeepsInv(s, p, e);
  }

  // ---- runs ----

  datatype Step = Step(proc: nat, event: Event)

  /** Stored executions of any status; processes that have just started. */
  ghost predicate Init(s: System) {
    && s.jobs == {}
    && forall p :: 0 <= p < |s.procs| ==>
         var P := s.procs[p]; P == Started(P.regular, P.enabled, P.lazy, P.limit)
  }

  /** Step `i` leads from state `i` to the next. */
  predicate StepAt(ss: seq<System>, steps: seq<Step>, i: nat)
    requires i < |steps| < |ss|
  {
    && steps[i].proc < |ss[i].procs|
    && Enabled(ss[i], steps[i].proc, steps[i].event)
    && ss[i + 1] == Next(ss[i], steps[i].proc, steps[i].event)
  }

  ghost predicate Run(ss: seq<System>, steps: seq<Step>) {
    && |ss| == |steps| + 1
    && Init(ss[0])
    && forall i :: 0 <= i < |steps| ==> StepAt(ss, steps, i)
  }

  lemma {:induction false} ReachableInv(ss: seq<System>, steps: seq<Step>, n: nat)
    requires Run(ss, steps) && n <= |steps|
    ensures Inv(ss[n])
  {
    if n == 0 {
      forall p | 0 <= p < |ss[0].procs|
        ensures Valid(ss[0].procs[p]) && ClaimedIsCurrent(ss[0].procs[p])
      {
        assert Holders(map[]) == {};
      }
    } else {
      assert StepAt(ss, steps, n - 1);
      ReachableInv(ss, steps, n - 1);
      StepKeepsInv(ss[n - 1], steps[n - 1].proc, steps[n - 1].event);
    }
  }

  /** Call `c` of process `p` resumes the waiting execution `id`: its guarded update takes effect. */
  predicate Resumes(s: System, step: Step, id: ExecutionId) {
    && step.proc < |s.procs|
    && (step.event.DoWrite? || (step.event.DoFailWrite? && step.event.committed))
    && Enabled(s, step.proc, step.event)
    && s.procs[step.proc].calls[step.event.call].resuming
    && s.procs[step.proc].calls[step.event.call].target == Some(id)
    && WriteMatches(s, s.procs[step.proc].calls[step.event.call])
  }

  /** The stored status of `id` becomes `waiting`: a new waiting spell begins. */
  predicate BeginsSpell(s: System, step: Step, id: ExecutionId) {
    && step.proc < |s.procs|
    && Enabled(s, step.proc, step.event)
    && (step.event == DoJobWaits(id) ||
        (step.event.DoStoreWaiting? && s.procs[step.proc].calls[step.event.call].target == Some(id)))
  }

  /** Between the states `i` and `j` a waiting spell of `id` begins, if `id` waits at `j` but not at `i`. */
  lemma {:induction false} WaitingHasBegun(ss: seq<System>, steps: seq<Step>, i: nat, j: nat, id: ExecutionId)
    returns (k: nat)
    requires Run(ss, steps) && i <= j <= |steps|
    requires id in ss[i].store && !ss[i].store[id].Waiting?
    requires id in ss[j].store && ss[j].store[id].Waiting?
    ensures i <= k < j && BeginsSpell(ss[k], steps[k], id)
  {
    k := j - 1;
    while !BeginsSpell(ss[k], steps[k], id)
      invariant i <= k < j
      invariant id in ss[k + 1].store && ss[k + 1].store[id].Waiting?
      decreases k
    {
      assert StepAt(ss, steps, k);
      k := k - 1;
    }
  }

  /**
   In every run of any number of processes, each waiting spell is resumed
   successfully at most once: two resumes of the same execution have the
   beginning of a new spell between them.
   */
  lemma ResumedOncePerSpell(ss: seq<System>, steps: seq<Step>, i: nat, j: nat, id: ExecutionId)
    requires Run(ss, steps) && i < j < |steps|
    requires Resumes(ss[i], steps[i], id) && Resumes(ss[j], steps[j], id)
    ensures exists k :: i < k < j && BeginsSpell(ss[k], steps[k], id)
  {
    assert StepAt(ss, steps, i);
    var k := WaitingHasBegun(ss, steps, i + 1, j, id);
  }

  /** Who may drive an execution: a registration in its process, or a job. */
  datatype Driver = InProcess(proc: nat, call: CallId) | AsJob

  predicate Drives(s: System, driver: Driver, id: ExecutionId) {
    match driver
    case InProcess(p, c) => p < |s.procs| && Engine(s.procs[p], c) && s.procs[p].calls[c].target == Some(id)
    case AsJob => id in s.jobs
  }

  /**
   Mutual exclusion: in every reachable state an execution has at most one
   driver, in any process or in the queue, and none while it is stored as
   `waiting`; the one in a process is the registration its id leads to, if any.
   */
  lemma OneDriver(ss: seq<System>, steps: seq<Step>, n: nat, x: Driver, y: Driver, id: ExecutionId)
    requires Run(ss, steps) && n <= |steps| && Drives(ss[n], x, id) && Drives(ss[n], y, id)
    ensures x == y && id in ss[n].store && !ss[n].store[id].Waiting?
    ensures x.InProcess? && id in ss[n].procs[x.proc].active ==> ss[n].procs[x.proc].active[id] == x.call
  {
    ReachableInv(ss, steps, n);
    DriverClaims(ss[n], x, id);
    DriverClaims(ss[n], y, id);
    if x.InProcess? {
      assert ClaimedIsCurrent(ss[n].procs[x.proc]);
    }
  }

  lemma DriverClaims(s: System, driver: Driver, id: ExecutionId)
    requires Inv(s) && Drives(s, driver, id)
    ensures id in s.store && !s.store[id].Waiting?
    ensures driver.InProcess? ==> Claimant(s, driver.proc, driver.call, id)
    ensures driver.AsJob? ==> forall p, c :: !Claimant(s, p, c, id)
  {
    if driver.InProcess? {
      assert Claimant(s, driver.proc, driver.call, id);
    }
  }

  // ---- how one call develops ----

  /** Process `p` is not restarted by the steps `i` to `n`. */
  ghost predicate Lives(steps: seq<Step>, i: nat, n: nat, p: nat)
    requires n <= |steps|
  {
    forall k :: i <= k < n ==> !(steps[k].proc == p && steps[k].event.DoRestart?)
  }

  lemma {:induction false} CallDevelops(ss: seq<System>, steps: seq<Step>, i: nat, n: nat, p: nat, c: CallId)
    requires Run(ss, steps) && i <= n <= |steps| && Lives(steps, i, n, p)
    requires p < |ss[i].procs| && c in ss[i].procs[p].calls
    ensures p < |ss[n].procs| && c in ss[n].procs[p].calls
    ensures Develops(ss[i].procs[p].calls[c], ss[n].procs[p].calls[c])
    decreases n - i
  {
    if i < n {
      assert StepAt(ss, steps, i);
      ReachableInv(ss, steps, i);
      StepDevelops(ss[i], steps[i].proc, steps[i].event, p);
      CallDevelops(ss, steps, i + 1, n, p, c);
    }
  }
}
