/**
 Resuming a waiting parent once its child has finished: the parent is patched,
 then started, and each of the two steps is retried. What an attempt returns is
 the environment's choice; a step is a function from attempt numbers to outcomes.
 */
module WaitTracking {
  import opened Basics
  import opened ParentPatch

  const MAX_PARENT_RESUME_ATTEMPTS: nat := 3

  /** `ExecutionAlreadyResumingError` is operational; `OtherError` stands for all other retryable errors. */
  datatype Error = UserError | UnexpectedError | AlreadyResuming | OtherError

  predicate Retryable(e: Error) {
    !e.UserError? && !e.UnexpectedError?
  }

  datatype Outcome = Done | Threw(error: Error)

  type Operation = nat -> Outcome

  datatype Step = PatchParent | StartParent

  datatype Action = Tried(step: Step, attempt: nat) | Slept(ms: nat) | Logged

  // ---- withRetry ----

  /** Attempt `a` is not followed by another one. */
  predicate Final(op: Operation, max: nat, a: nat) {
    op(a).Done? || !Retryable(op(a).error) || a >= max
  }

  /** The retry loop ends with attempt `a`. */
  ghost predicate EndsAt(op: Operation, max: nat, a: nat) {
    1 <= a && Final(op, max, a) && forall j :: 1 <= j < a ==> !Final(op, max, j)
  }

  /** The number of attempts, counting on from attempt `a`. */
  function Attempts(op: Operation, max: nat, a: nat): nat
    decreases max - a
  {
    if Final(op, max, a) then a else Attempts(op, max, a + 1)
  }

  lemma {:induction false} AttemptsEnd(op: Operation, max: nat, a: nat)
    requires 1 <= a && forall j :: 1 <= j < a ==> !Final(op, max, j)
    ensures EndsAt(op, max, Attempts(op, max, a))
    ensures a <= Attempts(op, max, a) <= Max(max, a)
    decreases max - a
  {
    if !Final(op, max, a) {
      AttemptsEnd(op, max, a + 1);
    }
  }

  /** Attempt `n` is the last: the limit, a success, or an error that is the user's or unexpected. */
  predicate LastAttempt(op: Operation, max: nat, n: nat) {
    n >= max || op(n) == Done || op(n) == Threw(UserError) || op(n) == Threw(UnexpectedError)
  }

  lemma LastIsFinal(op: Operation, max: nat, n: nat)
    ensures LastAttempt(op, max, n) <==> Final(op, max, n)
  {
    if op(n).Threw? {
      match op(n).error
      case UserError =>
      case UnexpectedError =>
      case AlreadyResuming =>
      case OtherError =>
    }
  }

  /**
   How many attempts are made, by the errors themselves: as many as it takes to
   the first that succeeds, fails with an error that is the user's or unexpected,
   or is the last allowed. Every other error, a lost race included, is retried.
   */
  lemma AttemptsIff(op: Operation, max: nat, n: nat)
    ensures Attempts(op, max, 1) == n <==>
      1 <= n && LastAttempt(op, max, n) && forall j :: 1 <= j < n ==> !LastAttempt(op, max, j)
  {
    AttemptsEnd(op, max, 1);
    forall j: nat
      ensures LastAttempt(op, max, j) <==> Final(op, max, j)
    {
      LastIsFinal(op, max, j);
    }
    if EndsAt(op, max, n) {
      EndsOnce(op, max, n, Attempts(op, max, 1));
    }
  }

  lemma EndsOnce(op: Operation, max: nat, a: nat, b: nat)
    requires EndsAt(op, max, a) && EndsAt(op, max, b)
    ensures a == b
  {
  }

  /** What `n` attempts of a step look like, with the pauses between them. */
  function RetryTrace(step: Step, n: nat): seq<Action> {
    if n == 0 then []
    else if n == 1 then [Tried(step, 1)]
    else RetryTrace(step, n - 1) + [Slept(100 * Pow2(n - 2)), Tried(step, n)]
  }

  function TotalSlept(trace: seq<Action>): nat {
    if trace == [] then 0
    else TotalSlept(trace[..|trace| - 1]) + (if trace[|trace| - 1].Slept? then trace[|trace| - 1].ms else 0)
  }

  lemma {:induction false} SleptAppend(a: seq<Action>, b: seq<Action>)
    ensures TotalSlept(a + b) == TotalSlept(a) + TotalSlept(b)
    decreases |b|
  {
    if b == [] {
      assert a + b == a;
    } else {
      var n := |b| - 1;
      assert (a + b)[..|a + b| - 1] == a + b[..n];
      SleptAppend(a, b[..n]);
    }
  }

  /** A step that takes `n` attempts pauses for 100 * (2^(n-1) - 1) ms in all. */
  lemma {:induction false} RetrySleeps(step: Step, n: nat)
    requires n >= 1
    ensures TotalSlept(RetryTrace(step, n)) == 100 * (Pow2(n - 1) - 1)
  {
    if n > 1 {
      RetrySleeps(step, n - 1);
      var pause, tried := Slept(100 * Pow2(n - 2)), Tried(step, n);
      assert [pause, tried] == [pause] + [tried];
      SleptAppend([pause], [tried]);
      SleptAppend(RetryTrace(step, n - 1), [pause, tried]);
    } else {
      assert RetryTrace(step, 1)[..0] == [];
    }
  }

  /** The trace tries attempts 1 to `n` of the step, in that order and once each, and nothing else. */
  lemma {:induction false} RetryTries(step: Step, n: nat, i: nat)
    requires 1 <= n && i < |RetryTrace(step, n)|
    ensures |RetryTrace(step, n)| == 2 * n - 1
    ensures RetryTrace(step, n)[i] == if i % 2 == 0 then Tried(step, i / 2 + 1) else Slept(100 * Pow2(i / 2))
    decreases n
  {
    if n > 1 {
      var earlier := RetryTrace(step, n - 1);
      RetryTries(step, n - 1, if i < |earlier| then i else 0);
    }
  }

  /** Some attempt within the limit succeeds, and all before it fail in a way worth retrying. */
  ghost predicate Recovers(op: Operation, max: nat) {
    exists a :: 1 <= a <= max && op(a).Done? && forall j :: 1 <= j < a ==> op(j).Threw? && Retryable(op(j).error)
  }

  lemma RecoversIffLastSucceeds(op: Operation, max: nat)
    requires 1 <= max
    ensures op(Attempts(op, max, 1)).Done? <==> Recovers(op, max)
  {
    AttemptsEnd(op, max, 1);
    var n := Attempts(op, max, 1);
    if op(n).Done? {
      forall j | 1 <= j < n
        ensures op(j).Threw? && Retryable(op(j).error)
      {
        assert !Final(op, max, j);
      }
    }
    if Recovers(op, max) {
      var a :| 1 <= a <= max && op(a).Done? && forall j :: 1 <= j < a ==> op(j).Threw? && Retryable(op(j).error);
      EndsOnce(op, max, a, n);
    }
  }

  // ---- resumeParentExecution ----

  /** What the child's execution promise settles to. */
  datatype ChildResult = Rejected | Absent | StillWaiting | Finished

  predicate PatchSucceeds(patches: Operation) {
    patches(Attempts(patches, MAX_PARENT_RESUME_ATTEMPTS, 1)).Done?
  }

  predicate StartSucceeds(starts: Operation) {
    starts(Attempts(starts, MAX_PARENT_RESUME_ATTEMPTS, 1)).Done?
  }

  function ResumeTrace(child: ChildResult, patches: Operation, starts: Operation): seq<Action> {
    match child
    case Rejected => [Logged]
    case Absent => []
    case StillWaiting => []
    case Finished =>
      var patching := RetryTrace(PatchParent, Attempts(patches, MAX_PARENT_RESUME_ATTEMPTS, 1));
      if !PatchSucceeds(patches) then patching + [Logged]
      else
        var starting := RetryTrace(StartParent, Attempts(starts, MAX_PARENT_RESUME_ATTEMPTS, 1));
        patching + starting + if StartSucceeds(starts) then [] else [Logged]
  }

  /** The position and kind of the entries of a resume trace. */
  lemma ResumeParts(patches: Operation, starts: Operation, i: nat)
    requires i < |ResumeTrace(Finished, patches, starts)|
    ensures var trace := ResumeTrace(Finished, patches, starts);
      var p, s := Attempts(patches, 3, 1), Attempts(starts, 3, 1);
      && 1 <= p <= 3 && 1 <= s <= 3 && 2 * p - 1 <= |trace|
      && (i < 2 * p - 1 ==> trace[i] == if i % 2 == 0 then Tried(PatchParent, i / 2 + 1) else Slept(100 * Pow2(i / 2)))
      && (2 * p - 1 <= i ==> trace[i].Logged? || (PatchSucceeds(patches) && i - (2 * p - 1) < 2 * s - 1))
      && (2 * p - 1 <= i && !trace[i].Logged? ==>
          var k := i - (2 * p - 1);
          trace[i] == if k % 2 == 0 then Tried(StartParent, k / 2 + 1) else Slept(100 * Pow2(k / 2)))
  {
    AttemptsEnd(patches, 3, 1);
    AttemptsEnd(starts, 3, 1);
    var p, s := Attempts(patches, 3, 1), Attempts(starts, 3, 1);
    RetryTries(PatchParent, p, if i < 2 * p - 1 then i else 0);
    RetryTries(StartParent, s, if 2 * p - 1 <= i < 2 * p + 2 * s - 2 then i - (2 * p - 1) else 0);
  }

  /** The parent is started only after a patch has succeeded, and never for an absent or waiting child result. */
  lemma StartOnlyAfterPatch(child: ChildResult, patches: Operation, starts: Operation, i: nat) returns (j: nat, a: nat)
    requires i < |ResumeTrace(child, patches, starts)|
    requires var action := ResumeTrace(child, patches, starts)[i]; action.Tried? && action.step.StartParent?
    ensures child.Finished?
    ensures j < i && ResumeTrace(child, patches, starts)[j] == Tried(PatchParent, a) && patches(a).Done?
  {
    a := Attempts(patches, 3, 1);
    ResumeParts(patches, starts, i);
    j := 2 * a - 2;
    ResumeParts(patches, starts, j);
  }

  /** No attempt is made twice, and none beyond the third. */
  lemma AtMostThreeTries(child: ChildResult, patches: Operation, starts: Operation, i: nat, j: nat)
    requires i < |ResumeTrace(child, patches, starts)| && j < |ResumeTrace(child, patches, starts)|
    requires ResumeTrace(child, patches, starts)[i].Tried?
    ensures 1 <= ResumeTrace(child, patches, starts)[i].attempt <= 3
    ensures ResumeTrace(child, patches, starts)[j] == ResumeTrace(child, patches, starts)[i] ==> j == i
  {
    ResumeParts(patches, starts, i);
    ResumeParts(patches, starts, j);
  }

  /** All pauses together, for every sequence of failures. */
  lemma ResumeSleeps(patches: Operation, starts: Operation)
    ensures TotalSlept(ResumeTrace(Finished, patches, starts)) ==
      100 * (Pow2(Attempts(patches, 3, 1) - 1) - 1) +
      if PatchSucceeds(patches) then 100 * (Pow2(Attempts(starts, 3, 1) - 1) - 1) else 0
  {
    AttemptsEnd(patches, 3, 1);
    AttemptsEnd(starts, 3, 1);
    RetrySleeps(PatchParent, Attempts(patches, 3, 1));
    RetrySleeps(StartParent, Attempts(starts, 3, 1));
    var patching := RetryTrace(PatchParent, Attempts(patches, 3, 1));
    var starting := RetryTrace(StartParent, Attempts(starts, 3, 1));
    assert [Logged][..0] == [];
    SleptAppend(patching, [Logged]);
    SleptAppend(patching, starting);
    SleptAppend(patching + starting, if StartSucceeds(starts) then [] else [Logged]);
  }

  /** Some attempt to start the parent succeeded. */
  ghost predicate ParentStarted(trace: seq<Action>, starts: Operation) {
    exists i :: 0 <= i < |trace| && trace[i].Tried? && trace[i].step.StartParent? && starts(trace[i].attempt).Done?
  }

  /**
   The parent is started if and only if the child finished and both steps
   recover; a child that finished without that, or whose promise rejected, is
   the only case that is logged.
   */
  lemma ParentStartedIff(child: ChildResult, patches: Operation, starts: Operation)
    ensures ParentStarted(ResumeTrace(child, patches, starts), starts) <==>
      child.Finished? && Recovers(patches, 3) && Recovers(starts, 3)
    ensures Logged in ResumeTrace(child, patches, starts) <==>
      child.Rejected? || (child.Finished? && !(Recovers(patches, 3) && Recovers(starts, 3)))
  {
    if child.Finished? {
      RecoversIffLastSucceeds(patches, 3);
      RecoversIffLastSucceeds(starts, 3);
      StartedIffSucceeds(patches, starts);
      LoggedIffFailed(patches, starts);
    }
  }

  lemma StartedSucceeds(patches: Operation, starts: Operation, i: nat)
    requires i < |ResumeTrace(Finished, patches, starts)|
    requires var action := ResumeTrace(Finished, patches, starts)[i];
      action.Tried? && action.step.StartParent? && starts(action.attempt).Done?
    ensures PatchSucceeds(patches) && StartSucceeds(starts)
  {
    ResumeParts(patches, starts, i);
    AttemptsEnd(starts, 3, 1);
    assert Final(starts, 3, ResumeTrace(Finished, patches, starts)[i].attempt);
  }

  lemma StartedIffSucceeds(patches: Operation, starts: Operation)
    ensures ParentStarted(ResumeTrace(Finished, patches, starts), starts) <==>
      PatchSucceeds(patches) && StartSucceeds(starts)
  {
    var trace := ResumeTrace(Finished, patches, starts);
    var p, s := Attempts(patches, 3, 1), Attempts(starts, 3, 1);
    AttemptsEnd(patches, 3, 1);
    AttemptsEnd(starts, 3, 1);
    if PatchSucceeds(patches) && StartSucceeds(starts) {
      RetryTries(PatchParent, p, 0);
      RetryTries(StartParent, s, 0);
      ResumeParts(patches, starts, 2 * p + 2 * s - 3);
    }
    if i :| 0 <= i < |trace| && trace[i].Tried? && trace[i].step.StartParent? && starts(trace[i].attempt).Done? {
      StartedSucceeds(patches, starts, i);
    }
  }

  lemma LoggedIffFailed(patches: Operation, starts: Operation)
    ensures Logged in ResumeTrace(Finished, patches, starts) <==> !(PatchSucceeds(patches) && StartSucceeds(starts))
  {
    var trace := ResumeTrace(Finished, patches, starts);
    var p, s := Attempts(patches, 3, 1), Attempts(starts, 3, 1);
    if PatchSucceeds(patches) && StartSucceeds(starts) {
      AttemptsEnd(patches, 3, 1);
      AttemptsEnd(starts, 3, 1);
      RetryTries(PatchParent, p, 0);
      RetryTries(StartParent, s, 0);
      forall i | 0 <= i < |trace|
        ensures trace[i] != Logged
      {
        if i < 2 * p - 1 {
          RetryTries(PatchParent, p, i);
        } else {
          RetryTries(StartParent, s, i - (2 * p - 1));
        }
      }
    } else {
      assert trace[|trace| - 1] == Logged;
    }
  }

  // ---- startExecution ----

  datatype Record = Record(finished: bool, saved: bool, parent: Option<Related>)

  /** A start rejects, or stops because somebody else resumes the execution, or runs and then may resume a parent. */
  datatype Started = StartRejected(error: Error) | Absorbed | Ran(parent: Option<Related>)

  function Start(record: Option<Record>, run: Outcome): Started {
    if record.None? || record.value.finished || !record.value.saved then StartRejected(UnexpectedError)
    else
      match run
      case Done => Ran(if ShouldRestart(record.value.parent) then record.value.parent else None)
      case Threw(e) => if e.AlreadyResuming? then Absorbed else StartRejected(e)
  }

  /** What starting an execution comes to, by the stored record and what running it came to. */
  lemma StartMeans(record: Option<Record>, run: Outcome)
    ensures forall p :: Start(record, run) == Ran(Some(p)) <==>
      && Startable(record) && run.Done? && record.value.parent == Some(p) && p.shouldResume != Some(false)
    ensures Start(record, run) == Ran(None) <==>
      && Startable(record) && run.Done?
      && (record.value.parent.None? || record.value.parent.value.shouldResume == Some(false))
    ensures Start(record, run) == Absorbed <==> Startable(record) && run == Threw(AlreadyResuming)
    ensures forall e :: Start(record, run) == StartRejected(e) <==>
      if Startable(record) then run == Threw(e) && e != AlreadyResuming else e == UnexpectedError
  {
  }

  /** What becomes of the parent once the execution has been started: it is resumed if the start says so. */
  function AfterStart(started: Started, child: ChildResult, patches: Operation, starts: Operation): seq<Action> {
    if started.Ran? && started.parent.Some? then ResumeTrace(child, patches, starts) else []
  }

  /**
   From the start of a child to that of its parent: the parent is started exactly
   if the child's record was startable, its run was started and not absorbed, it
   is linked to the parent without saying that this should not resume, it then
   finished with data, and both steps recovered.
   */
  lemma ParentFollowsIff(
      record: Option<Record>, run: Outcome, child: ChildResult, patches: Operation, starts: Operation)
    ensures ParentStarted(AfterStart(Start(record, run), child, patches, starts), starts) <==>
      && record.Some? && !record.value.finished && record.value.saved && run.Done?
      && record.value.parent.Some? && record.value.parent.value.shouldResume != Some(false)
      && child.Finished? && Recovers(patches, 3) && Recovers(starts, 3)
  {
    StartMeans(record, run);
    ParentStartedIff(child, patches, starts);
  }

  /** Starting the parent as `withRetry` sees it: only a rejected start throws. */
  function StartOperation(records: nat -> Option<Record>, runs: nat -> Outcome): Operation {
    (a: nat) => var s := Start(records(a), runs(a)); if s.StartRejected? then Threw(s.error) else Done
  }

  predicate Startable(record: Option<Record>) {
    record.Some? && !record.value.finished && record.value.saved
  }

  /** Attempt `a` finds that somebody else resumes the parent. */
  predicate Loses(records: nat -> Option<Record>, runs: nat -> Outcome, a: nat) {
    Startable(records(a)) && runs(a) == Threw(AlreadyResuming)
  }

  /** Attempt `a` resumes the parent, or finds that somebody else does. */
  predicate Settles(records: nat -> Option<Record>, runs: nat -> Outcome, a: nat) {
    Startable(records(a)) && (runs(a).Done? || runs(a) == Threw(AlreadyResuming))
  }

  /** Attempt `a` fails, and is worth another. */
  predicate FailsRetryably(records: nat -> Option<Record>, runs: nat -> Outcome, a: nat) {
    Startable(records(a)) && runs(a).Threw? && Retryable(runs(a).error) && !runs(a).error.AlreadyResuming?
  }

  ghost predicate AllRetried(records: nat -> Option<Record>, runs: nat -> Outcome, n: nat) {
    forall j: nat :: 1 <= j < n ==> FailsRetryably(records, runs, j)
  }

  /**
   Losing the race is final: there is no attempt after it, and if it comes to be
   made, the start counts as successful and nothing is logged. The error itself
   would be retried, so this is what absorbing it is for.
   */
  lemma LosingIsFinal(records: nat -> Option<Record>, runs: nat -> Outcome, a: nat)
    requires 1 <= a && Loses(records, runs, a)
    ensures Retryable(AlreadyResuming)
    ensures var op := StartOperation(records, runs); var n := Attempts(op, MAX_PARENT_RESUME_ATTEMPTS, 1);
      && n <= a
      && (n == a ==> forall patches :: PatchSucceeds(patches) ==> Logged !in ResumeTrace(Finished, patches, op))
  {
    var op := StartOperation(records, runs);
    AttemptsEnd(op, MAX_PARENT_RESUME_ATTEMPTS, 1);
    assert Final(op, MAX_PARENT_RESUME_ATTEMPTS, a);
    if Attempts(op, MAX_PARENT_RESUME_ATTEMPTS, 1) == a {
      forall patches | PatchSucceeds(patches)
        ensures Logged !in ResumeTrace(Finished, patches, op)
      {
        LoggedIffFailed(patches, op);
      }
    }
  }

  /**
   For all records and outcomes: the retried start succeeds exactly if one of
   three attempts resumes the parent or loses the race, after attempts that all
   found a startable record and failed with an error worth retrying.
   */
  lemma StartRecoversIff(records: nat -> Option<Record>, runs: nat -> Outcome)
    ensures Recovers(StartOperation(records, runs), MAX_PARENT_RESUME_ATTEMPTS) <==>
      exists a: nat :: 1 <= a <= MAX_PARENT_RESUME_ATTEMPTS && Settles(records, runs, a) && AllRetried(records, runs, a)
  {
    var op := StartOperation(records, runs);
    if Recovers(op, MAX_PARENT_RESUME_ATTEMPTS) {
      var a: nat :| 1 <= a <= MAX_PARENT_RESUME_ATTEMPTS && op(a).Done? &&
        forall j :: 1 <= j < a ==> op(j).Threw? && Retryable(op(j).error);
      assert Settles(records, runs, a);
      forall j: nat | 1 <= j < a
        ensures FailsRetryably(records, runs, j)
      {
        assert op(j).Threw? && Retryable(op(j).error);
      }
      assert AllRetried(records, runs, a);
    }
    if a: nat :| 1 <= a <= MAX_PARENT_RESUME_ATTEMPTS && Settles(records, runs, a) && AllRetried(records, runs, a) {
      forall j | 1 <= j < a
        ensures op(j).Threw? && Retryable(op(j).error)
      {
        assert FailsRetryably(records, runs, j);
      }
      assert op(a).Done?;
    }
  }

  // ---- retried starts against the store ----

  /** What happens to one guarded update: it works, its request is lost, or its answer is. */
  datatype Fault = Fine | LostRequest | LostAnswer

  /** `taken`: somebody else resumed the execution before this attempt. */
  datatype Chance = Chance(taken: bool, fault: Fault)

  /** The parent is still waiting when attempt `a` makes its guarded update. */
  function WaitingAt(chances: nat -> Chance, a: nat): bool {
    !chances(a).taken && (a > 1 ==> WaitingAt(chances, a - 1) && chances(a - 1).fault.LostRequest?)
  }

  /** An answered attempt resumes the parent, or finds it resumed and is absorbed: either way it succeeds. */
  function StartAttempts(chances: nat -> Chance): Operation {
    (a: nat) => if chances(a).fault.Fine? then Done else Threw(OtherError)
  }

  /** The retried start ends by resuming the parent itself. */
  predicate ResumedHere(chances: nat -> Chance) {
    var n := Attempts(StartAttempts(chances), MAX_PARENT_RESUME_ATTEMPTS, 1);
    chances(n).fault.Fine? && WaitingAt(chances, n)
  }

  /** It ends as if the parent had been resumed by somebody else. */
  predicate AbsorbedHere(chances: nat -> Chance) {
    var n := Attempts(StartAttempts(chances), MAX_PARENT_RESUME_ATTEMPTS, 1);
    chances(n).fault.Fine? && !WaitingAt(chances, n)
  }

  /** Nobody else was faster than attempt `a`, and no update before it reached the store. */
  ghost predicate UntouchedUntil(chances: nat -> Chance, a: nat) {
    (forall j :: 1 <= j <= a ==> !chances(j).taken) && (forall j :: 1 <= j < a ==> chances(j).fault.LostRequest?)
  }

  lemma {:induction false} WaitingAtIff(chances: nat -> Chance, a: nat)
    requires 1 <= a
    ensures WaitingAt(chances, a) <==> UntouchedUntil(chances, a)
  {
    if a > 1 {
      WaitingAtIff(chances, a - 1);
    }
  }

  /** Attempt `a` is the first that gets an answer. */
  ghost predicate FirstAnswer(chances: nat -> Chance, a: nat) {
    1 <= a <= MAX_PARENT_RESUME_ATTEMPTS && chances(a).fault.Fine? && forall j :: 1 <= j < a ==> !chances(j).fault.Fine?
  }

  lemma FirstAnswerEnds(chances: nat -> Chance)
    ensures var n := Attempts(StartAttempts(chances), MAX_PARENT_RESUME_ATTEMPTS, 1);
      1 <= n <= 3 && (chances(n).fault.Fine? <==> FirstAnswer(chances, n))
    ensures forall a: nat :: FirstAnswer(chances, a) ==>
      a == Attempts(StartAttempts(chances), MAX_PARENT_RESUME_ATTEMPTS, 1)
  {
    var op := StartAttempts(chances);
    AttemptsEnd(op, 3, 1);
    forall a: nat | FirstAnswer(chances, a)
      ensures a == Attempts(op, 3, 1)
    {
      assert EndsAt(op, 3, a);
      EndsOnce(op, 3, a, Attempts(op, 3, 1));
    }
  }

  /**
   The retried start resumes the parent itself exactly if one of three attempts
   is answered, no update before it reached the store, and nobody else was faster.
   */
  lemma ResumedHereIff(chances: nat -> Chance)
    ensures ResumedHere(chances) <==> exists a: nat :: FirstAnswer(chances, a) && UntouchedUntil(chances, a)
  {
    FirstAnswerEnds(chances);
    WaitingAtIff(chances, Attempts(StartAttempts(chances), MAX_PARENT_RESUME_ATTEMPTS, 1));
  }

  /**
   Nobody else touched the parent, yet the retried start reports success without
   having resumed it: exactly if the answer of an update was lost before one of
   three attempts is answered. That update had already made the parent
   `running`, so the next attempt takes it for resumed; nothing is logged.
   */
  lemma SilentlyLostIff(chances: nat -> Chance)
    requires forall j :: !chances(j).taken
    ensures AbsorbedHere(chances) <==>
      exists a: nat, b: nat :: FirstAnswer(chances, a) && 1 <= b < a && chances(b).fault.LostAnswer?
  {
    FirstAnswerEnds(chances);
    var n := Attempts(StartAttempts(chances), MAX_PARENT_RESUME_ATTEMPTS, 1);
    WaitingAtIff(chances, n);
    if AbsorbedHere(chances) {
      var b: nat :| 1 <= b < n && !chances(b).fault.LostRequest?;
      assert FirstAnswer(chances, n) && chances(b).fault.LostAnswer?;
    }
  }

  // ---- the tracked executions and their timers ----

  type TimerId = nat

  datatype Timer = Timer(executionId: ExecutionId, delay: int)

  /** An entry records the timer that was set for it; `live` are the timers that may still fire. */
  datatype Tracker = Tracker(entries: map<ExecutionId, TimerId>, live: map<TimerId, Timer>, next: TimerId)

  datatype Waiting = Waiting(id: ExecutionId, waitTill: int)

  function TrackOne(t: Tracker, w: Waiting, now: int): Tracker {
    if w.id in t.entries then t
    else Tracker(t.entries[w.id := t.next], t.live[t.next := Timer(w.id, w.waitTill - now)], t.next + 1)
  }

  /** `getWaitingExecutions` */
  function Track(t: Tracker, ws: seq<Waiting>, now: int): Tracker {
    if ws == [] then t else TrackOne(Track(t, ws[..|ws| - 1], now), ws[|ws| - 1], now)
  }

  /** `stopExecution` */
  function Cancel(t: Tracker, id: ExecutionId): Tracker {
    if id in t.entries then t.(entries := t.entries - {id}, live := t.live - {t.entries[id]}) else t
  }

  /** `startExecution` drops the entry, not its timer. */
  function Forget(t: Tracker, id: ExecutionId): Tracker {
    t.(entries := t.entries - {id})
  }

  /** `stopTracking` clears the recorded timers and keeps the entries. */
  function StepDown(t: Tracker): Tracker {
    t.(live := t.live - set id | id in t.entries :: t.entries[id])
  }

  /** The execution has an entry whose timer will still fire. */
  predicate WillFire(t: Tracker, id: ExecutionId) {
    id in t.entries && t.entries[id] in t.live
  }

  ghost predicate Numbered(t: Tracker) {
    && (forall id :: id in t.entries ==> t.entries[id] < t.next)
    && (forall timer :: timer in t.live ==> timer < t.next)
    && (forall id, other :: id in t.entries && other in t.entries && t.entries[id] == t.entries[other] ==> id == other)
  }

  lemma {:induction false} TrackKeepsNumbered(t: Tracker, ws: seq<Waiting>, now: int)
    requires Numbered(t)
    ensures Numbered(Track(t, ws, now))
    decreases |ws|
  {
    if ws != [] {
      TrackKeepsNumbered(t, ws[..|ws| - 1], now);
    }
  }

  predicate Listed(ws: seq<Waiting>, id: ExecutionId) {
    exists i :: 0 <= i < |ws| && ws[i].id == id
  }

  lemma ListedIff(ws: seq<Waiting>, id: ExecutionId)
    requires ws != []
    ensures Listed(ws, id) <==> ws[|ws| - 1].id == id || Listed(ws[..|ws| - 1], id)
  {
    if i :| 0 <= i < |ws| - 1 && ws[i].id == id {
      assert ws[..|ws| - 1][i].id == id;
    }
  }

  /**
   The timer that tracking sets for a listed execution without an entry is for
   that execution and for the time at which it is due.
   */
  lemma {:induction false} TimersAreDue(t: Tracker, ws: seq<Waiting>, now: int, i: nat)
    requires Numbered(t) && i < |ws| && ws[i].id !in t.entries && forall j :: 0 <= j < i ==> ws[j].id != ws[i].id
    ensures var t' := Track(t, ws, now);
      && ws[i].id in t'.entries && t'.entries[ws[i].id] in t'.live
      && t'.live[t'.entries[ws[i].id]] == Timer(ws[i].id, ws[i].waitTill - now)
    decreases |ws|
  {
    var n := |ws| - 1;
    TrackKeepsNumbered(t, ws[..n], now);
    if i < n {
      TimersAreDue(t, ws[..n], now, i);
      OneKeepsTimer(Track(t, ws[..n], now), ws[n], now, ws[i].id);
    } else {
      NotYetTracked(t, ws, now, n);
    }
  }

  lemma OneKeepsTimer(t: Tracker, w: Waiting, now: int, id: ExecutionId)
    requires Numbered(t) && WillFire(t, id)
    ensures var t' := TrackOne(t, w, now); WillFire(t', id) && t'.live[t'.entries[id]] == t.live[t.entries[id]]
  {
  }

  lemma NotYetTracked(t: Tracker, ws: seq<Waiting>, now: int, n: nat)
    requires Numbered(t) && n < |ws| && ws[n].id !in t.entries && forall j :: 0 <= j < n ==> ws[j].id != ws[n].id
    ensures ws[n].id !in Track(t, ws[..n], now).entries
  {
    TrackedIff(t, ws[..n], now, ws[n].id);
  }

  /** Tracking changes no timer that is already set. */
  lemma {:induction false} KeepsTimers(t: Tracker, ws: seq<Waiting>, now: int)
    requires Numbered(t)
    ensures var t' := Track(t, ws, now);
      forall timer :: timer in t.live ==> timer in t'.live && t'.live[timer] == t.live[timer]
    decreases |ws|
  {
    if ws != [] {
      KeepsTimers(t, ws[..|ws| - 1], now);
      NextGrows(t, ws[..|ws| - 1], now);
    }
  }

  lemma {:induction false} NextGrows(t: Tracker, ws: seq<Waiting>, now: int)
    ensures t.next <= Track(t, ws, now).next
    decreases |ws|
  {
    if ws != [] {
      NextGrows(t, ws[..|ws| - 1], now);
    }
  }

  /** `stopExecution` clears the timer of that execution and forgets it; every other entry and timer stays. */
  lemma CancelStops(t: Tracker, id: ExecutionId, other: ExecutionId, timer: TimerId)
    requires Numbered(t)
    ensures var t' := Cancel(t, id);
      && id !in t'.entries && (id in t.entries ==> t.entries[id] !in t'.live)
      && (other != id && other in t.entries ==>
            && other in t'.entries && t'.entries[other] == t.entries[other]
            && (WillFire(t', other) <==> WillFire(t, other)))
      && (timer in t.live && !(id in t.entries && t.entries[id] == timer) ==>
            timer in t'.live && t'.live[timer] == t.live[timer])
  {
  }

  /** `stopTracking` clears exactly the recorded timers and keeps all entries. */
  lemma StepDownClears(t: Tracker, timer: TimerId)
    ensures StepDown(t).entries == t.entries
    ensures timer in StepDown(t).live <==> timer in t.live && forall id :: id in t.entries ==> t.entries[id] != timer
    ensures timer in StepDown(t).live ==> StepDown(t).live[timer] == t.live[timer]
  {
  }

  /** Tracking sets a timer for exactly the listed executions that have no entry, and disturbs no other. */
  lemma {:induction false} TrackedIff(t: Tracker, ws: seq<Waiting>, now: int, id: ExecutionId)
    requires Numbered(t)
    ensures var t' := Track(t, ws, now);
      && (id in t.entries ==> id in t'.entries && t'.entries[id] == t.entries[id])
      && (id in t'.entries <==> id in t.entries || Listed(ws, id))
      && (WillFire(t', id) <==> WillFire(t, id) || (id !in t.entries && Listed(ws, id)))
    decreases |ws|
  {
    if ws != [] {
      var n := |ws| - 1;
      TrackedIff(t, ws[..n], now, id);
      TrackKeepsNumbered(t, ws[..n], now);
      ListedIff(ws, id);
    }
  }

  /**
   A leader that steps down and takes over again resumes a listed execution on
   time exactly if it did not track it before: a kept entry whose timer was
   cleared stops it from setting a new one.
   */
  lemma TakeoverTracksIff(t: Tracker, ws: seq<Waiting>, now: int, i: nat)
    requires Numbered(t) && i < |ws|
    ensures WillFire(Track(StepDown(t), ws, now), ws[i].id) <==> ws[i].id !in t.entries
  {
    TrackedIff(StepDown(t), ws, now, ws[i].id);
  }
}
