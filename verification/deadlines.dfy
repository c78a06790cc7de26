/**
 Time limits of executions: the deadline after which no further node is
 started, across nested sub-workflows, and the hard stop, across resumes.
 Settings are in seconds, times in milliseconds.
 */
module Deadlines {
  import opened Basics

  const SECOND: int := 1000

  /** A longer timer fires after one millisecond. */
  const LONGEST_TIMER: int := 0x7fff_ffff

  datatype Config = Config(timeout: int, maxTimeout: int)

  /** The workflow's own `executionTimeout`, if it has one. */
  type Settings = Option<int>

  type Deadline = Option<int>

  /** The limit asked for; nothing positive means none. */
  function Asked(settings: Settings, config: Config): int {
    if settings.Some? then settings.value else config.timeout
  }

  // ---- three ways to compute a workflow's own deadline ----

  /** `workflowTimeout` of the main path. */
  function MainLimit(settings: Settings, config: Config): int {
    if Asked(settings, config) > 0 then Min(Asked(settings, config), config.maxTimeout) else Asked(settings, config)
  }

  function MainDeadline(now: int, settings: Settings, config: Config): Deadline {
    if MainLimit(settings, config) <= 0 then None else Some(now + MainLimit(settings, config) * SECOND)
  }

  function WorkerDeadline(now: int, settings: Settings, config: Config): Deadline {
    if Asked(settings, config) > 0 then Some(now + Min(Asked(settings, config), config.maxTimeout) * SECOND) else None
  }

  /** `determineWorkflowDeadline`. A maximum that is not positive is no maximum here. */
  function SubDeadline(startTime: int, settings: Settings, config: Config): Deadline {
    if settings.Some? then
      if settings.value <= 0 then None
      else Some(startTime + AtMost(settings.value, config) * SECOND)
    else if config.timeout > 0 then Some(startTime + AtMost(config.timeout, config) * SECOND)
    else None
  }

  function AtMost(seconds: int, config: Config): int {
    if config.maxTimeout > 0 then Min(seconds, config.maxTimeout) else seconds
  }

  /**
   The three paths agree exactly if there is a positive maximum or no limit is
   asked for. Otherwise the main path has no deadline, a worker's is not in the
   future, and that of a sub-workflow is not clamped: all three differ.
   */
  lemma PathsAgreeIff(now: int, settings: Settings, config: Config)
    ensures (config.maxTimeout > 0 || Asked(settings, config) <= 0) <==>
      MainDeadline(now, settings, config) == SubDeadline(now, settings, config)
    ensures MainDeadline(now, settings, config) == SubDeadline(now, settings, config) <==>
      MainDeadline(now, settings, config) == WorkerDeadline(now, settings, config)
    ensures MainDeadline(now, settings, config) == SubDeadline(now, settings, config) <==>
      SubDeadline(now, settings, config) == WorkerDeadline(now, settings, config)
    ensures config.maxTimeout <= 0 < Asked(settings, config) ==>
      && MainDeadline(now, settings, config) == None
      && WorkerDeadline(now, settings, config).Some? && WorkerDeadline(now, settings, config).value <= now
      && SubDeadline(now, settings, config) == Some(now + Asked(settings, config) * SECOND)
  {
  }

  // ---- nested sub-workflows ----

  /** How an execution came to run: by the runner or a worker, or called by the one before it. */
  datatype Via = ByRunner | ByWorker | Waited | Detached

  datatype Link = Link(via: Via, start: int, settings: Settings)

  /** The deadline an execution would have by itself. */
  function Own(l: Link, config: Config): Deadline {
    match l.via
    case ByRunner => MainDeadline(l.start, l.settings, config)
    case ByWorker => WorkerDeadline(l.start, l.settings, config)
    case Waited => SubDeadline(l.start, l.settings, config)
    case Detached => SubDeadline(l.start, l.settings, config)
  }

  /**
   An execution's own deadline in milliseconds, by the settings themselves: none
   if no positive limit is asked for, else that limit, or the maximum if this is
   less. The paths differ on a maximum that is not positive.
   */
  lemma OwnDeadlineMeans(l: Link, config: Config)
    ensures var asked := if l.settings.Some? then l.settings.value else config.timeout; var max := config.maxTimeout;
      && (asked <= 0 ==> Own(l, config) == None)
      && (asked > 0 && max > 0 ==> Own(l, config) == Some(l.start + 1000 * if asked <= max then asked else max))
      && (asked > 0 && max <= 0 && l.via.ByRunner? ==> Own(l, config) == None)
      && (asked > 0 && max <= 0 && l.via.ByWorker? ==> Own(l, config) == Some(l.start + 1000 * max))
      && (asked > 0 && max <= 0 && (l.via.Waited? || l.via.Detached?) ==> Own(l, config) == Some(l.start + 1000 * asked))
  {
  }

  /** `resolveSubworkflowDeadline`. */
  function Resolve(sub: Deadline, parent: Deadline, doNotWaitToFinish: bool): Deadline {
    if doNotWaitToFinish then sub
    else if parent.Some? && sub.Some? then Some(Min(parent.value, sub.value))
    else if parent.Some? then parent
    else sub
  }

  /** The deadline the last execution of a chain of calls runs with. */
  function Effective(chain: seq<Link>, config: Config): Deadline {
    if chain == [] then None
    else
      var last := chain[|chain| - 1];
      match last.via
      case ByRunner => Own(last, config)
      case ByWorker => Own(last, config)
      case _ => Resolve(Own(last, config), Effective(chain[..|chain| - 1], config), last.via.Detached?)
  }

  /** All executions after link `i` are waited for by their callers. */
  predicate WaitedSince(chain: seq<Link>, i: nat) {
    i < |chain| && forall j :: i < j < |chain| ==> chain[j].via.Waited?
  }

  predicate NotLater(a: Deadline, b: Deadline) {
    b.Some? ==> a.Some? && a.value <= b.value
  }

  lemma WaitedSinceShorter(chain: seq<Link>, i: nat)
    requires WaitedSince(chain, i) && i < |chain| - 1
    ensures WaitedSince(chain[..|chain| - 1], i) && chain[|chain| - 1].via.Waited?
  {
  }

  /** The effective deadline is not later than any in the segment since the last execution that nobody waits for. */
  lemma {:induction false} EffectiveIsBound(chain: seq<Link>, config: Config, i: nat)
    requires WaitedSince(chain, i)
    ensures NotLater(Effective(chain, config), Own(chain[i], config))
    decreases |chain|
  {
    if i < |chain| - 1 {
      WaitedSinceShorter(chain, i);
      EffectiveIsBound(chain[..|chain| - 1], config, i);
    }
  }

  /** The effective deadline is one of those in the segment. */
  lemma {:induction false} EffectiveIsAttained(chain: seq<Link>, config: Config) returns (i: nat)
    requires Effective(chain, config).Some?
    ensures WaitedSince(chain, i) && Own(chain[i], config) == Effective(chain, config)
    decreases |chain|
  {
    i := |chain| - 1;
    if chain[i].via.Waited? && Own(chain[i], config) != Effective(chain, config) {
      var last := i;
      i := EffectiveIsAttained(chain[..last], config);
      forall j | i < j < |chain|
        ensures chain[j].via.Waited?
      {
        assert j < last ==> chain[..last][j].via.Waited?;
      }
    }
  }

  /** `d` is the least of the defined deadlines in the last segment of the chain, or undefined if none is defined. */
  ghost predicate LeastOfSegment(chain: seq<Link>, config: Config, d: Deadline) {
    && (forall i: nat :: WaitedSince(chain, i) ==> NotLater(d, Own(chain[i], config)))
    && (d.Some? ==> exists i: nat :: WaitedSince(chain, i) && Own(chain[i], config) == d)
  }

  /** The closed form: the effective deadline is the minimum of the segment, and nothing else is. */
  lemma EffectiveIsLeast(chain: seq<Link>, config: Config, d: Deadline)
    ensures LeastOfSegment(chain, config, d) <==> d == Effective(chain, config)
  {
    EffectiveIsLeastOfSegment(chain, config);
    if LeastOfSegment(chain, config, d) {
      LeastIsUnique(chain, config, d, Effective(chain, config));
    }
  }

  lemma EffectiveIsLeastOfSegment(chain: seq<Link>, config: Config)
    ensures LeastOfSegment(chain, config, Effective(chain, config))
  {
    forall i: nat | WaitedSince(chain, i)
      ensures NotLater(Effective(chain, config), Own(chain[i], config))
    {
      EffectiveIsBound(chain, config, i);
    }
    if Effective(chain, config).Some? {
      var i := EffectiveIsAttained(chain, config);
    }
  }

  lemma LeastIsUnique(chain: seq<Link>, config: Config, a: Deadline, b: Deadline)
    requires LeastOfSegment(chain, config, a) && LeastOfSegment(chain, config, b)
    ensures a == b
  {
  }

  /** A child that is waited for never has a later deadline than any ancestor in its segment. */
  lemma {:induction false} WaitedIsNotLater(chain: seq<Link>, config: Config, i: nat)
    requires WaitedSince(chain, i)
    ensures NotLater(Effective(chain, config), Effective(chain[..i + 1], config))
    decreases |chain|
  {
    if i == |chain| - 1 {
      assert chain[..i + 1] == chain;
    } else {
      WaitedSinceShorter(chain, i);
      WaitedIsNotLater(chain[..|chain| - 1], config, i);
      assert chain[..|chain| - 1][..i + 1] == chain[..i + 1];
    }
  }

  /**
   A call that nobody waits for outlives its caller's deadline exactly if its
   own limit allows that; so does a waiting child once the runner resumes it.
   */
  lemma OutlivesCallerIff(chain: seq<Link>, config: Config, l: Link)
    requires chain != []
    ensures !NotLater(Effective(chain + [l], config), Effective(chain, config)) <==>
      !l.via.Waited? && !NotLater(Own(l, config), Effective(chain, config))
  {
    assert (chain + [l])[..|chain|] == chain;
  }

  // ---- the hard stop of the main path ----

  /**
   The moments of one run of an execution that matter here. `handsOver`: whoever
   resumes it passes the stored start time on. The wait tracker does; a webhook,
   a form or a chat message does not.
   */
  datatype Attempt = Attempt(deadlineAt: int, runningAt: int, timerAt: int, handsOver: bool)

  /** `setRunning` keeps the start time of an execution that has one. */
  function StartedAt(runs: seq<Attempt>): Option<int> {
    if runs == [] then None
    else
      var earlier := StartedAt(runs[..|runs| - 1]);
      if earlier.Some? then earlier else Some(runs[|runs| - 1].runningAt)
  }

  function TimerFires(now: int, delay: int): int {
    now + if 1 <= delay <= LONGEST_TIMER then delay else 1
  }

  /** When the runner stops the execution; `startedAt` is the start time it was handed, if any. */
  function HardStop(now: int, startedAt: Option<int>, limit: int): int {
    var timeout := if startedAt.Some? then Max(limit * SECOND - (now - startedAt.value), 0) else limit * SECOND;
    if timeout == 0 then now else TimerFires(now, timeout)
  }

  /**
   The hard stop by the clock: without a start time it comes the whole limit
   later, with one when the rest of the limit is over, at once if that is past;
   a delay over 2^31 - 1 ms fires after one.
   */
  lemma HardStopMeans(now: int, startedAt: Option<int>, limit: int)
    requires limit > 0
    ensures var delay := 1000 * limit - if startedAt.Some? then now - startedAt.value else 0;
      HardStop(now, startedAt, limit) ==
        if delay <= 0 then now else if delay <= 2_147_483_647 then now + delay else now + 1
  {
  }

  /** The hard stop of the last of `runs`; each but the first is a resume. */
  function LastHardStop(runs: seq<Attempt>, limit: int): int
    requires runs != []
  {
    var last := |runs| - 1;
    HardStop(runs[last].timerAt, if runs[last].handsOver then StartedAt(runs[..last]) else None, limit)
  }

  /** The end of the allowance: the first start plus the limit. */
  function Due(runs: seq<Attempt>, limit: int): int
    requires runs != []
  {
    runs[0].runningAt + limit * SECOND
  }

  lemma {:induction false} StartIsKept(runs: seq<Attempt>)
    requires runs != []
    ensures StartedAt(runs) == Some(runs[0].runningAt)
    decreases |runs|
  {
    if |runs| > 1 {
      StartIsKept(runs[..|runs| - 1]);
    } else {
      assert StartedAt(runs[..0]) == None;
    }
  }

  /** The last run, started by something that does not hand the start time over, gets more time than was left. */
  predicate GetsMoreTime(runs: seq<Attempt>, limit: int)
    requires runs != []
  {
    var last := runs[|runs| - 1];
    && !last.handsOver
    && if limit * SECOND <= LONGEST_TIMER then runs[0].runningAt < last.timerAt else Due(runs, limit) <= last.timerAt
  }

  /**
   However often an execution has been resumed: if the start time is handed over
   it is stopped at the later of the resume and the end of its allowance, exactly
   if the remaining time fits a timer; a longer timer stops it at once. If it is
   not handed over, the whole limit begins again at the resume.
   */
  lemma HardStopIsExactIff(runs: seq<Attempt>, limit: int)
    requires |runs| > 1 && limit > 0
    ensures var last := runs[|runs| - 1]; var now, due := last.timerAt, Due(runs, limit);
      && (last.handsOver ==> (LastHardStop(runs, limit) == Max(now, due) <==> due - now <= LONGEST_TIMER))
      && (last.handsOver && due - now > LONGEST_TIMER ==> LastHardStop(runs, limit) == now + 1)
      && (!last.handsOver && limit * SECOND <= LONGEST_TIMER ==>
           && LastHardStop(runs, limit) == now + limit * SECOND
           && (LastHardStop(runs, limit) == Max(now, due) <==> now == runs[0].runningAt))
      && (!last.handsOver && limit * SECOND > LONGEST_TIMER ==> LastHardStop(runs, limit) == now + 1)
  {
    StartIsKept(runs[..|runs| - 1]);
  }

  /** A resume extends the allowance exactly if it is not handed the start time and comes after it. */
  lemma ExtendsIff(runs: seq<Attempt>, limit: int)
    requires |runs| > 1 && limit > 0
    ensures LastHardStop(runs, limit) > Max(runs[|runs| - 1].timerAt, Due(runs, limit)) <==> GetsMoreTime(runs, limit)
  {
    StartIsKept(runs[..|runs| - 1]);
  }

  /** Over any sequence of resumes the allowance is kept exactly if no resume after the first start goes without it. */
  lemma AllowanceIsKeptIff(runs: seq<Attempt>, limit: int)
    requires runs != [] && limit > 0
    ensures
      (forall k {:trigger runs[..k]} :: 2 <= k <= |runs| ==>
        LastHardStop(runs[..k], limit) <= Max(runs[..k][k - 1].timerAt, Due(runs, limit)))
      <==> forall k {:trigger runs[..k]} :: 2 <= k <= |runs| ==> !GetsMoreTime(runs[..k], limit)
  {
    forall k {:trigger runs[..k]} | 2 <= k <= |runs|
      ensures LastHardStop(runs[..k], limit) > Max(runs[..k][k - 1].timerAt, Due(runs, limit)) <==>
        GetsMoreTime(runs[..k], limit)
    {
      ExtendsIff(runs[..k], limit);
    }
  }

  /** An execution that waited and is resumed by a webhook gets the whole limit once more. */
  lemma WebhookResumeStartsAnew(first: Attempt, resume: Attempt, limit: int)
    requires 0 < limit * SECOND <= LONGEST_TIMER && first.runningAt < resume.timerAt && !resume.handsOver
    ensures LastHardStop([first, resume], limit) == resume.timerAt + limit * SECOND > Due([first, resume], limit)
  {
    HardStopIsExactIff([first, resume], limit);
  }

  /** The runs follow each other, and the store has the start time before the first timer is set. */
  ghost predicate Ordered(runs: seq<Attempt>) {
    && (forall k :: 0 <= k < |runs| ==> runs[k].runningAt <= runs[k].timerAt && runs[k].deadlineAt <= runs[k].timerAt)
    && (forall k :: 0 <= k < |runs| - 1 ==> runs[k].timerAt <= runs[k + 1].deadlineAt)
  }

  lemma {:induction false} FirstIsEarliest(runs: seq<Attempt>, k: nat)
    requires k < |runs| && Ordered(runs)
    ensures runs[0].timerAt <= runs[k].timerAt
    ensures 0 < k ==> runs[0].timerAt <= runs[k].deadlineAt
  {
    if k > 0 {
      FirstIsEarliest(runs, k - 1);
    }
  }

  /**
   A resumed execution is stopped at the resume or before the first run would
   have been, exactly if it was handed the start time or no time has passed.
   */
  lemma ResumingNeverExtends(runs: seq<Attempt>, limit: int)
    requires |runs| > 1 && Ordered(runs) && 0 < limit * SECOND <= LONGEST_TIMER
    ensures var last := runs[|runs| - 1];
      LastHardStop(runs, limit) <= Max(last.timerAt, LastHardStop(runs[..1], limit)) <==>
        last.handsOver || last.timerAt == runs[0].timerAt
  {
    StartIsKept(runs[..|runs| - 1]);
    FirstIsEarliest(runs, |runs| - 1);
    assert StartedAt(runs[..1][..0]) == None;
  }

  /**
   The soft deadline of a resumed execution starts anew. The hard stop does not
   come after it exactly if it is set in time: before the soft deadline when the
   start time is handed over, else in the same millisecond as the soft deadline.
   */
  lemma HardStopComesFirst(runs: seq<Attempt>, settings: Settings, config: Config)
    requires |runs| > 1 && Ordered(runs) && 0 < MainLimit(settings, config) * SECOND <= LONGEST_TIMER
    ensures var last := runs[|runs| - 1]; var soft := MainDeadline(last.deadlineAt, settings, config);
      && soft.Some?
      && (LastHardStop(runs, MainLimit(settings, config)) <= soft.value <==>
            last.timerAt <= if last.handsOver then soft.value else last.deadlineAt)
  {
    StartIsKept(runs[..|runs| - 1]);
    FirstIsEarliest(runs, |runs| - 1);
  }

  // ---- as the paths compute them ----

  /** The part of `runMainProcess` that reassigns its limit and its timer delay. */
  method RunMainProcess(settings: Settings, config: Config, deadlineAt: int, timerAt: int, startedAt: Option<int>)
    returns (deadline: Deadline, hardStop: Option<int>)
    ensures deadline == MainDeadline(deadlineAt, settings, config)
    ensures hardStop.Some? <==> MainLimit(settings, config) > 0
    ensures hardStop.Some? ==> hardStop.value == HardStop(timerAt, startedAt, MainLimit(settings, config))
  {
    var workflowTimeout := if settings.Some? then settings.value else config.timeout;
    if workflowTimeout > 0 {
      workflowTimeout := Min(workflowTimeout, config.maxTimeout);
    }
    deadline := if workflowTimeout <= 0 then None else Some(deadlineAt + workflowTimeout * 1000);
    hardStop := None;
    if workflowTimeout > 0 {
      var timeout := Min(workflowTimeout, config.maxTimeout) * 1000;
      if startedAt.Some? {
        timeout := Max(timeout - (timerAt - startedAt.value), 0);
      }
      if timeout == 0 {
        hardStop := Some(timerAt);
      } else {
        hardStop := Some(TimerFires(timerAt, timeout));
      }
    }
  }

  /** A worker agrees with the two other paths only where these agree with each other. */
  method ProcessJob(settings: Settings, config: Config, now: int) returns (deadline: Deadline)
    ensures deadline.Some? <==> Asked(settings, config) > 0
    ensures deadline.Some? ==> deadline.value == now + SECOND * Min(Asked(settings, config), config.maxTimeout)
    ensures deadline == MainDeadline(now, settings, config) <==> config.maxTimeout > 0 || Asked(settings, config) <= 0
    ensures deadline == SubDeadline(now, settings, config) <==> config.maxTimeout > 0 || Asked(settings, config) <= 0
  {
    var workflowTimeout := if settings.Some? then settings.value else config.timeout;
    deadline := None;
    if workflowTimeout > 0 {
      workflowTimeout := Min(workflowTimeout, config.maxTimeout);
      deadline := Some(now + workflowTimeout * 1000);
    }
  }
}
