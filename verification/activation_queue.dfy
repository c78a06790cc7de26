/**
 The queue of workflows whose activation is retried with growing delays. The
 live timers belong to the runtime; an entry records the timer it set last. A
 retry attempt begins when a timer fires and ends later, so other steps may come
 in between; an atomic attempt is the special case in which none does.
 */
module ActivationQueue {
  import opened Basics

  type WorkflowId = string
  type TimerId = nat

  const INITIAL_TIMEOUT := 1000
  const MAX_TIMEOUT := 24 * 60 * 60 * 1000

  /** `failures` is a history variable: the failures since queueing that were not isolate errors. */
  datatype Entry = Entry(lastTimeout: nat, timer: TimerId, failures: nat)

  datatype Timer = Timer(workflow: WorkflowId, delay: nat)

  datatype Queue = Queue(
    queued: map<WorkflowId, Entry>,
    live: map<TimerId, Timer>,
    /** Retry attempts in progress, named by the timer that started them. */
    attempts: map<TimerId, WorkflowId>,
    next: TimerId)

  function Empty(): Queue {
    Queue(map[], map[], map[], 0)
  }

  function Remove(q: Queue, w: WorkflowId): Queue {
    if w in q.queued then q.(live := q.live - {q.queued[w].timer}, queued := q.queued - {w}) else q
  }

  /** `setTimeout(retryFunction, delay)`, recorded in the entry of `w`. */
  function SetTimer(q: Queue, w: WorkflowId, delay: nat, failures: nat): Queue {
    q.(queued := q.queued[w := Entry(delay, q.next, failures)],
       live := q.live[q.next := Timer(w, delay)],
       next := q.next + 1)
  }

  function Add(q: Queue, w: WorkflowId): Queue {
    SetTimer(Remove(q, w), w, INITIAL_TIMEOUT, 0)
  }

  function Fire(q: Queue, t: TimerId): Queue
    requires t in q.live
  {
    q.(live := q.live - {t}, attempts := q.attempts[t := q.live[t].workflow])
  }

  /** The attempt ended without an error: the workflow was activated, or `add` returned early. */
  function End(q: Queue, t: TimerId): Queue {
    q.(attempts := q.attempts - {t})
  }

  function NextTimeout(last: nat, isolateError: bool): nat {
    if !isolateError && last < MAX_TIMEOUT then Min(last * 2, MAX_TIMEOUT) else last
  }

  function Fail(q: Queue, t: TimerId, isolateError: bool): Queue
    requires t in q.attempts
  {
    var w := q.attempts[t];
    var q' := End(q, t);
    if w !in q.queued then q'
    else
      var e := q.queued[w];
      SetTimer(q', w, NextTimeout(e.lastTimeout, isolateError), e.failures + if isolateError then 0 else 1)
  }

  function RemoveEach(q: Queue, ws: seq<WorkflowId>): Queue
    decreases |ws|
  {
    if ws == [] then q else RemoveEach(Remove(q, ws[0]), ws[1..])
  }

  // ---- invariants ----

  /** Every live timer is the one recorded in its workflow's entry. */
  ghost predicate Tracked(q: Queue) {
    forall t :: t in q.live ==>
      q.live[t].workflow in q.queued && q.queued[q.live[t].workflow].timer == t
  }

  ghost predicate Numbered(q: Queue) {
    && (forall t :: t in q.live || t in q.attempts ==> t < q.next)
    && (forall w :: w in q.queued ==> q.queued[w].timer < q.next)
    && (forall w :: w in q.queued && q.queued[w].timer in q.live ==> q.live[q.queued[w].timer].workflow == w)
  }

  function Delay(failures: nat): nat {
    Min(INITIAL_TIMEOUT * Pow2(failures), MAX_TIMEOUT)
  }

  /** Every entry waits for exactly the capped exponential delay, and so does its timer. */
  ghost predicate BacksOff(q: Queue) {
    && (forall w :: w in q.queued ==> q.queued[w].lastTimeout == Delay(q.queued[w].failures))
    && (forall t :: t in q.live && q.live[t].workflow in q.queued && q.queued[q.live[t].workflow].timer == t ==>
          q.live[t].delay == q.queued[q.live[t].workflow].lastTimeout)
  }

  lemma DelayDoubles(failures: nat)
    ensures NextTimeout(Delay(failures), false) == Delay(failures + 1)
    ensures Delay(failures) <= Delay(failures + 1) <= MAX_TIMEOUT
  {
    assert Pow2(failures + 1) == 2 * Pow2(failures);
  }

  lemma {:induction false} DelayGrows(a: nat, b: nat)
    requires a <= b
    ensures Delay(a) <= Delay(b) <= MAX_TIMEOUT
    decreases b - a
  {
    if a < b {
      DelayGrows(a, b - 1);
      DelayDoubles(b - 1);
    }
  }

  /** From the 17th failure on the delay is a day. */
  lemma DelayIsCapped(failures: nat)
    ensures Delay(failures) == MAX_TIMEOUT <==> failures >= 17
  {
    assert Pow2(8) == 256;
    assert Pow2(16) == 65536 by { assert Pow2(12) == 4096; }
    assert Delay(16) < MAX_TIMEOUT && Delay(17) == MAX_TIMEOUT;
    if failures >= 17 {
      DelayGrows(17, failures);
    } else {
      DelayGrows(failures, 16);
    }
  }

  /**
   Ending a failed attempt keeps all timers tracked exactly when the timer its
   workflow's entry records is no longer live; otherwise that timer is lost.
   */
  lemma FailTracksIff(q: Queue, t: TimerId, isolateError: bool)
    requires Tracked(q) && Numbered(q) && t in q.attempts
    ensures Tracked(Fail(q, t, isolateError))
        <==> q.attempts[t] !in q.queued || q.queued[q.attempts[t]].timer !in q.live
  {
    var w := q.attempts[t];
    var q' := Fail(q, t, isolateError);
    if w in q.queued && q.queued[w].timer in q.live {
      var lost := q.queued[w].timer;
      assert lost in q'.live && q'.live[lost].workflow == w && q'.queued[w].timer == q.next;
    }
  }

  /** After a failed attempt a workflow that is still queued has a new live timer, its own, with the recorded delay. */
  lemma FailSetsTimer(q: Queue, t: TimerId, isolateError: bool)
    requires Numbered(q) && t in q.attempts && q.attempts[t] in q.queued
    ensures var q', w := Fail(q, t, isolateError), q.attempts[t];
      && w in q'.queued && t !in q'.attempts
      && var e := q'.queued[w];
         && e.timer !in q.live && e.timer in q'.live && q'.live[e.timer] == Timer(w, e.lastTimeout)
         && e.lastTimeout == if isolateError then q.queued[w].lastTimeout
            else if 2 * q.queued[w].lastTimeout < 86_400_000 then 2 * q.queued[w].lastTimeout
            else Max(q.queued[w].lastTimeout, 86_400_000)
  {
  }

  /** A failed attempt for a workflow that is no longer queued sets no timer. */
  lemma FailWithoutEntry(q: Queue, t: TimerId, isolateError: bool)
    requires t in q.attempts && q.attempts[t] !in q.queued
    ensures var q' := Fail(q, t, isolateError); q'.live == q.live && q'.queued == q.queued && t !in q'.attempts
  {
  }

  /** Queueing sets a timer of one second and clears the one that the workflow had; other workflows keep theirs. */
  lemma AddSetsTimer(q: Queue, w: WorkflowId, other: WorkflowId)
    requires Numbered(q)
    ensures var q' := Add(q, w);
      && w in q'.queued && q'.queued[w].timer in q'.live && q'.queued[w].timer !in q.live
      && q'.live[q'.queued[w].timer] == Timer(w, 1000) && q'.queued[w].lastTimeout == 1000
      && (w in q.queued ==> q.queued[w].timer !in q'.live)
      && q'.attempts == q.attempts
      && (other != w && other in q.queued ==>
            && other in q'.queued && q'.queued[other] == q.queued[other]
            && (q.queued[other].timer in q.live ==> q'.queued[other].timer in q'.live))
  {
  }

  /** Removing a workflow clears its recorded timer and no other. */
  lemma RemoveClears(q: Queue, w: WorkflowId, t: TimerId)
    ensures var q' := Remove(q, w);
      && q'.queued == q.queued - {w} && q'.attempts == q.attempts
      && (t in q'.live <==> t in q.live && !(w in q.queued && q.queued[w].timer == t))
      && (t in q'.live ==> q'.live[t] == q.live[t])
  {
  }

  // ---- runs ----

  datatype Event =
    | DoAdd(w: WorkflowId)
    | DoFire(timer: TimerId)
      /** An attempt ended: with success (after `DoRemove`) or because `add` returned early. */
    | DoEnd(timer: TimerId)
    | DoFail(timer: TimerId, isolateError: bool)
      /** Activation of `w` succeeded on some path, or `w` was deactivated. */
    | DoRemove(w: WorkflowId)
      /** `removeAllQueuedWorkflowActivations`. */
    | DoRemoveAll(ws: seq<WorkflowId>)

  ghost predicate Enabled(q: Queue, e: Event) {
    match e
    case DoFire(t) => t in q.live
    case DoFail(t, _) => t in q.attempts
    case DoRemoveAll(ws) => forall w :: w in ws <==> w in q.queued
    case _ => true
  }

  function Next(q: Queue, e: Event): Queue
    requires Enabled(q, e)
  {
    match e
    case DoAdd(w) => Add(q, w)
    case DoFire(t) => Fire(q, t)
    case DoEnd(t) => End(q, t)
    case DoFail(t, isolateError) => Fail(q, t, isolateError)
    case DoRemove(w) => Remove(q, w)
    case DoRemoveAll(ws) => RemoveEach(q, ws)
  }

  ghost predicate Run(qs: seq<Queue>, es: seq<Event>) {
    && |qs| == |es| + 1 && qs[0] == Empty()
    && forall i :: 0 <= i < |es| ==> Enabled(qs[i], es[i]) && qs[i + 1] == Next(qs[i], es[i])
  }

  /** The failing attempt does not overlap with a timer of the same workflow. */
  predicate Quiet(q: Queue, e: Event) {
    e.DoFail? && e.timer in q.attempts && q.attempts[e.timer] in q.queued ==>
      q.queued[q.attempts[e.timer]].timer !in q.live
  }

  ghost predicate AlwaysQuiet(qs: seq<Queue>, es: seq<Event>, n: nat)
    requires n <= |es| < |qs|
  {
    forall i :: 0 <= i < n ==> Quiet(qs[i], es[i])
  }

  lemma {:induction false} RemoveEachKeeps(q: Queue, ws: seq<WorkflowId>)
    requires Numbered(q) && BacksOff(q)
    ensures var q' := RemoveEach(q, ws);
      && Numbered(q') && BacksOff(q') && (Tracked(q) ==> Tracked(q'))
      && q'.attempts == q.attempts && q'.next == q.next
      && q'.queued == q.queued - set w | w in ws
    decreases |ws|
  {
    if ws == [] {
      assert q.queued - {} == q.queued;
    } else {
      var q1 := Remove(q, ws[0]);
      RemoveEachKeeps(q1, ws[1..]);
      assert q1.queued - (set w | w in ws[1..]) == q.queued - (set w | w in ws);
    }
  }

  lemma FailKeeps(q: Queue, t: TimerId, isolateError: bool)
    requires t in q.attempts && Numbered(q) && BacksOff(q)
    ensures Numbered(Fail(q, t, isolateError)) && BacksOff(Fail(q, t, isolateError))
    ensures Tracked(q) && Quiet(q, DoFail(t, isolateError)) ==> Tracked(Fail(q, t, isolateError))
  {
    if q.attempts[t] in q.queued { DelayDoubles(q.queued[q.attempts[t]].failures); }
    if Tracked(q) { FailTracksIff(q, t, isolateError); }
  }

  lemma StepKeeps(q: Queue, e: Event)
    requires Enabled(q, e) && Numbered(q) && BacksOff(q)
    ensures Numbered(Next(q, e)) && BacksOff(Next(q, e))
    ensures Tracked(q) && Quiet(q, e) ==> Tracked(Next(q, e))
  {
    match e
    case DoRemoveAll(ws) => RemoveEachKeeps(q, ws);
    case DoFail(t, isolateError) => FailKeeps(q, t, isolateError);
    case _ =>
  }

  lemma {:induction false} RunKeeps(qs: seq<Queue>, es: seq<Event>, n: nat)
    requires Run(qs, es) && n <= |es|
    ensures Numbered(qs[n]) && BacksOff(qs[n])
    ensures AlwaysQuiet(qs, es, n) ==> Tracked(qs[n])
  {
    if n > 0 {
      RunKeeps(qs, es, n - 1);
      StepKeeps(qs[n - 1], es[n - 1]);
      assert qs[n - 1 + 1] == Next(qs[n - 1], es[n - 1]);
    }
  }

  /**
   In every reachable state of a run without overlapping attempts each workflow
   has at most one live timer, namely the recorded one, which waits for exactly
   the capped exponential delay of its failures.
   */
  lemma OneTimerPerWorkflow(qs: seq<Queue>, es: seq<Event>, n: nat, t: TimerId, u: TimerId)
    requires Run(qs, es) && n <= |es| && AlwaysQuiet(qs, es, n)
    requires t in qs[n].live && u in qs[n].live && qs[n].live[t].workflow == qs[n].live[u].workflow
    ensures t == u
    ensures qs[n].live[t].workflow in qs[n].queued
    ensures qs[n].queued[qs[n].live[t].workflow].timer == t
    ensures qs[n].live[t].delay == Delay(qs[n].queued[qs[n].live[t].workflow].failures)
  {
    RunKeeps(qs, es, n);
  }

  /** In every run, overlapping or not, the recorded delay is the capped exponential one. */
  lemma DelayIsExact(qs: seq<Queue>, es: seq<Event>, n: nat, w: WorkflowId)
    requires Run(qs, es) && n <= |es| && w in qs[n].queued
    ensures qs[n].queued[w].lastTimeout == Min(1000 * Pow2(qs[n].queued[w].failures), 86_400_000)
  {
    RunKeeps(qs, es, n);
  }

  // ---- a queued workflow is tried again ----

  /** The recorded timer of `w` will fire, after the recorded delay, or its attempt is in progress. */
  predicate Retries(q: Queue, w: WorkflowId)
    requires w in q.queued
  {
    var e := q.queued[w];
    || (e.timer in q.live && q.live[e.timer] == Timer(w, e.lastTimeout))
    || (e.timer in q.attempts && q.attempts[e.timer] == w)
  }

  /** The attempt that timer `t` started ended although it had not failed. */
  ghost predicate EndedEarly(qs: seq<Queue>, es: seq<Event>, n: nat, t: TimerId)
    requires n <= |es| < |qs|
  {
    exists k :: 0 <= k < n && es[k] == DoEnd(t) && t in qs[k].attempts
  }

  ghost predicate Disjoint(q: Queue) {
    forall t :: t in q.live ==> t !in q.attempts
  }

  lemma StepKeepsDisjoint(q: Queue, e: Event)
    requires Enabled(q, e) && Numbered(q) && BacksOff(q) && Disjoint(q)
    ensures Disjoint(Next(q, e))
  {
    if e.DoRemoveAll? {
      RemoveEachShrinks(q, e.ws);
    }
  }

  lemma {:induction false} RemoveEachShrinks(q: Queue, ws: seq<WorkflowId>)
    ensures var q' := RemoveEach(q, ws); q'.attempts == q.attempts && q'.live.Keys <= q.live.Keys && q'.next == q.next
    decreases |ws|
  {
    if ws != [] {
      RemoveEachShrinks(Remove(q, ws[0]), ws[1..]);
    }
  }

  lemma {:induction false} RunKeepsDisjoint(qs: seq<Queue>, es: seq<Event>, n: nat)
    requires Run(qs, es) && n <= |es|
    ensures Disjoint(qs[n])
  {
    if n > 0 {
      RunKeepsDisjoint(qs, es, n - 1);
      RunKeeps(qs, es, n - 1);
      StepKeepsDisjoint(qs[n - 1], es[n - 1]);
      assert qs[n - 1 + 1] == Next(qs[n - 1], es[n - 1]);
    }
  }

  /** A timer whose attempt has ended early is used up. */
  lemma {:induction false} EndedIsGone(qs: seq<Queue>, es: seq<Event>, n: nat, t: TimerId)
    requires Run(qs, es) && n <= |es| && EndedEarly(qs, es, n, t)
    ensures t !in qs[n].live && t !in qs[n].attempts && t < qs[n].next
  {
    var k :| 0 <= k < n && es[k] == DoEnd(t) && t in qs[k].attempts;
    assert qs[n - 1 + 1] == Next(qs[n - 1], es[n - 1]);
    if k == n - 1 {
      RunKeeps(qs, es, k);
      RunKeepsDisjoint(qs, es, k);
    } else {
      assert EndedEarly(qs, es, n - 1, t);
      EndedIsGone(qs, es, n - 1, t);
      if es[n - 1].DoRemoveAll? {
        RemoveEachShrinks(qs[n - 1], es[n - 1].ws);
      }
    }
  }

  /** One step: a workflow that was tried again still is, unless the attempt of its recorded timer ends early. */
  lemma StepRetries(q: Queue, e: Event, w: WorkflowId)
    requires Enabled(q, e) && Numbered(q) && BacksOff(q) && Disjoint(q) && w in Next(q, e).queued
    ensures (w in q.queued && Next(q, e).queued[w] == q.queued[w]) || Retries(Next(q, e), w)
    ensures w in q.queued && Next(q, e).queued[w] == q.queued[w] && Retries(q, w) &&
            !(e == DoEnd(q.queued[w].timer) && q.queued[w].timer in q.attempts) ==>
      Retries(Next(q, e), w)
  {
    if e.DoRemoveAll? {
      RemoveEachKeeps(q, e.ws);
    }
  }

  /**
   Over every run a queued workflow is tried again, by its recorded timer or by
   the attempt this has started, exactly unless that attempt has ended without
   failing while the workflow was, or came to be, queued.
   */
  lemma {:induction false} QueuedRetriesIff(qs: seq<Queue>, es: seq<Event>, n: nat, w: WorkflowId)
    requires Run(qs, es) && n <= |es| && w in qs[n].queued
    ensures Retries(qs[n], w) <==> !EndedEarly(qs, es, n, qs[n].queued[w].timer)
  {
    var t := qs[n].queued[w].timer;
    if EndedEarly(qs, es, n, t) {
      EndedIsGone(qs, es, n, t);
    } else if n > 0 {
      var q, e := qs[n - 1], es[n - 1];
      assert qs[n - 1 + 1] == Next(q, e);
      RunKeeps(qs, es, n - 1);
      RunKeepsDisjoint(qs, es, n - 1);
      StepRetries(q, e, w);
      if w in q.queued && qs[n].queued[w] == q.queued[w] {
        QueuedRetriesIff(qs, es, n - 1, w);
      }
    }
  }

  /** While `w` stays queued its delay never falls. */
  lemma DelayNeverFalls(q: Queue, e: Event, w: WorkflowId)
    requires Enabled(q, e) && Numbered(q) && BacksOff(q) && w in q.queued && w in Next(q, e).queued
    requires e != DoAdd(w)
    ensures q.queued[w].lastTimeout <= Next(q, e).queued[w].lastTimeout <= MAX_TIMEOUT
  {
    DelayGrows(0, q.queued[w].failures);
    match e
    case DoRemoveAll(ws) => RemoveEachKeeps(q, ws);
    case _ =>
  }

  /** Over a whole run in which `w` stays queued, and is not queued anew, its delay only grows, up to a day. */
  lemma {:induction false} DelayOnlyGrows(qs: seq<Queue>, es: seq<Event>, i: nat, n: nat, w: WorkflowId)
    requires Run(qs, es) && i <= n <= |es|
    requires forall k :: i <= k <= n ==> w in qs[k].queued
    requires forall k :: i <= k < n ==> es[k] != DoAdd(w)
    ensures qs[i].queued[w].lastTimeout <= qs[n].queued[w].lastTimeout <= MAX_TIMEOUT
  {
    if i == n {
      RunKeeps(qs, es, n);
      DelayGrows(0, qs[n].queued[w].failures);
    } else {
      DelayOnlyGrows(qs, es, i, n - 1, w);
      RunKeeps(qs, es, n - 1);
      assert qs[n - 1 + 1] == Next(qs[n - 1], es[n - 1]);
      DelayNeverFalls(qs[n - 1], es[n - 1], w);
    }
  }

  /** An attempt that fails as soon as it has begun does not overlap with anything. */
  lemma AtomicAttemptIsQuiet(q: Queue, t: TimerId, isolateError: bool)
    requires Tracked(q) && t in q.live
    ensures Quiet(Fire(q, t), DoFail(t, isolateError))
  {
  }

  /** An attempt ends with the step after its timer fired; one that succeeds takes its workflow off the queue first. */
  ghost predicate EndsAtOnce(es: seq<Event>, i: int)
    requires 0 <= i < |es| && es[i].DoFire?
  {
    i + 1 < |es| ==>
      || (es[i + 1].DoFail? && es[i + 1].timer == es[i].timer)
      || es[i + 1] == DoEnd(es[i].timer)
      || (es[i + 1].DoRemove? && (i + 2 < |es| ==> es[i + 2] == DoEnd(es[i].timer)))
  }

  ghost predicate Atomic(es: seq<Event>) {
    forall i {:trigger es[i].DoFire?} :: 0 <= i < |es| && es[i].DoFire? ==> EndsAtOnce(es, i)
  }

  /** In an atomic run an attempt in progress has begun with the last step, or with the one before its removal. */
  lemma {:induction false} AttemptsAreRecent(qs: seq<Queue>, es: seq<Event>, n: nat, t: TimerId)
    requires Run(qs, es) && n <= |es| && Atomic(es) && t in qs[n].attempts
    ensures (n > 0 && es[n - 1] == DoFire(t)) || (n > 1 && es[n - 2] == DoFire(t) && es[n - 1].DoRemove?)
  {
    if n > 0 && es[n - 1] != DoFire(t) {
      assert qs[n - 1 + 1] == Next(qs[n - 1], es[n - 1]);
      if es[n - 1].DoRemoveAll? {
        RemoveEachKeepsAttempts(qs[n - 1], es[n - 1].ws);
      }
      AttemptsAreRecent(qs, es, n - 1, t);
    }
  }

  lemma {:induction false} RemoveEachKeepsAttempts(q: Queue, ws: seq<WorkflowId>)
    ensures RemoveEach(q, ws).attempts == q.attempts
    decreases |ws|
  {
    if ws != [] {
      RemoveEachKeepsAttempts(Remove(q, ws[0]), ws[1..]);
    }
  }

  /** A run whose attempts are all atomic has no overlapping attempt, so all that holds without overlap holds of it. */
  lemma {:induction false} AtomicRunIsQuiet(qs: seq<Queue>, es: seq<Event>, n: nat)
    requires Run(qs, es) && n <= |es| && Atomic(es)
    ensures AlwaysQuiet(qs, es, n)
  {
    if n > 0 {
      AtomicRunIsQuiet(qs, es, n - 1);
      if es[n - 1].DoFail? {
        FailureIsQuiet(qs, es, n - 1);
      }
    }
  }

  lemma FailureIsQuiet(qs: seq<Queue>, es: seq<Event>, i: nat)
    requires Run(qs, es) && i < |es| && Atomic(es) && es[i].DoFail? && AlwaysQuiet(qs, es, i)
    ensures Quiet(qs[i], es[i])
  {
    var t := es[i].timer;
    AttemptsAreRecent(qs, es, i, t);
    assert qs[i - 1 + 1] == Next(qs[i - 1], es[i - 1]);
    assert AlwaysQuiet(qs, es, i - 1);
    RunKeeps(qs, es, i - 1);
    AtomicAttemptIsQuiet(qs[i - 1], t, es[i].isolateError);
  }

  /** After `removeAllQueuedWorkflowActivations` nothing is queued and no timer is live ... */
  lemma RemoveAllStopsTimers(qs: seq<Queue>, es: seq<Event>, n: nat)
    requires Run(qs, es) && n < |es| && AlwaysQuiet(qs, es, n) && es[n].DoRemoveAll?
    ensures qs[n + 1].queued == map[] && qs[n + 1].live == map[]
  {
    RunKeeps(qs, es, n);
    RemoveEachKeeps(qs[n], es[n].ws);
    assert qs[n + 1] == Next(qs[n], es[n]);
    assert qs[n + 1].queued.Keys == {};
    assert Tracked(qs[n + 1]);
    assert qs[n + 1].live.Keys == {};
  }

  lemma {:induction false} RemoveEachFromNone(q: Queue, ws: seq<WorkflowId>)
    requires q.queued == map[]
    ensures RemoveEach(q, ws) == q
    decreases |ws|
  {
    if ws != [] {
      RemoveEachFromNone(q, ws[1..]);
    }
  }

  /** ... and attempts still in progress start none, however they end, unless a workflow is queued again. */
  lemma {:induction false} StaysStopped(qs: seq<Queue>, es: seq<Event>, i: nat, n: nat)
    requires Run(qs, es) && i < n <= |es| && AlwaysQuiet(qs, es, i) && es[i].DoRemoveAll?
    requires forall k :: i < k < n ==> !es[k].DoAdd?
    ensures qs[n].queued == map[] && qs[n].live == map[]
  {
    if n == i + 1 {
      RemoveAllStopsTimers(qs, es, i);
    } else {
      StaysStopped(qs, es, i, n - 1);
      assert qs[n - 1 + 1] == Next(qs[n - 1], es[n - 1]);
      if es[n - 1].DoRemoveAll? {
        RemoveEachFromNone(qs[n - 1], es[n - 1].ws);
      }
    }
  }

  /** Queueing a workflow while an attempt for it is in progress leaves a timer behind that removal misses. */
  lemma OverlappingAttemptLosesTimer(w: WorkflowId)
    ensures var q1 := Fire(Add(Empty(), w), 0);
            var q2 := Fail(Add(q1, w), 0, false);
            1 in q2.live && 1 in RemoveEach(q2, [w]).live
  {
    var q1 := Fire(Add(Empty(), w), 0);
    var q2 := Fail(Add(q1, w), 0, false);
    assert q2.queued[w].timer == 2;
    assert RemoveEach(q2, [w]) == RemoveEach(Remove(q2, w), [w][1..]);
  }
}
