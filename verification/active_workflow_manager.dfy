/** The retry queue as the manager updates it in place. */
module ActiveWorkflowManagerService {
  import opened Basics
  import Q = ActivationQueue

  class ActiveWorkflowManager {
    var queuedActivations: map<Q.WorkflowId, Q.Entry>
    /** The runtime's live timers, the attempts they have started, and the next timer handle. */
    var timers: map<Q.TimerId, Q.Timer>
    var attempts: map<Q.TimerId, Q.WorkflowId>
    var nextTimer: Q.TimerId

    ghost function State(): Q.Queue
      reads this
    {
      Q.Queue(queuedActivations, timers, attempts, nextTimer)
    }

    constructor ()
      ensures State() == Q.Empty()
    {
      queuedActivations, timers, attempts, nextTimer := map[], map[], map[], 0;
    }

    method SetTimeout(w: Q.WorkflowId, delay: nat) returns (t: Q.TimerId)
      modifies this`timers, this`nextTimer
      ensures t == old(nextTimer) && nextTimer == t + 1 && timers == old(timers)[t := Q.Timer(w, delay)]
    {
      t := nextTimer;
      timers, nextTimer := timers[t := Q.Timer(w, delay)], nextTimer + 1;
    }

    method RemoveQueuedWorkflowActivation(w: Q.WorkflowId)
      modifies this`queuedActivations, this`timers
      ensures State() == Q.Remove(old(State()), w)
    {
      if w in queuedActivations {
        timers := timers - {queuedActivations[w].timer};
        queuedActivations := queuedActivations - {w};
      }
    }

    method AddQueuedWorkflowActivation(w: Q.WorkflowId)
      modifies this`queuedActivations, this`timers, this`nextTimer
      ensures State() == Q.Add(old(State()), w)
      ensures w in queuedActivations && queuedActivations[w].timer in timers
        && timers[queuedActivations[w].timer] == Q.Timer(w, 1000)
    {
      RemoveQueuedWorkflowActivation(w);
      var t := SetTimeout(w, Q.INITIAL_TIMEOUT);
      queuedActivations := queuedActivations[w := Q.Entry(Q.INITIAL_TIMEOUT, t, 0)];
    }

    /** The timer fires and the retry function starts its attempt. */
    method BeginRetry(t: Q.TimerId)
      requires t in timers
      modifies this`timers, this`attempts
      ensures State() == Q.Fire(old(State()), t)
    {
      attempts := attempts[t := timers[t].workflow];
      timers := timers - {t};
    }

    /** The retry function's catch block. */
    method RetryFailed(t: Q.TimerId, isolateError: bool)
      requires t in attempts
      modifies this
      ensures State() == Q.Fail(old(State()), t, isolateError)
      ensures var w := old(attempts)[t]; w in old(queuedActivations) ==>
        && w in queuedActivations && queuedActivations[w].timer in timers
        && timers[queuedActivations[w].timer] == Q.Timer(w, queuedActivations[w].lastTimeout)
    {
      var w := attempts[t];
      attempts := attempts - {t};
      if w !in queuedActivations {
        return;
      }
      var queuedActivation := queuedActivations[w];
      var lastTimeout := queuedActivation.lastTimeout;
      var failures := queuedActivation.failures;
      if !isolateError {
        failures := failures + 1;
        if lastTimeout < Q.MAX_TIMEOUT {
          lastTimeout := Min(lastTimeout * 2, Q.MAX_TIMEOUT);
        }
      }
      var timeout := SetTimeout(w, lastTimeout);
      queuedActivations := queuedActivations[w := Q.Entry(lastTimeout, timeout, failures)];
    }

    /** `workflowIds`: the queued ids in enumeration order. */
    method RemoveAllQueuedWorkflowActivations(workflowIds: seq<Q.WorkflowId>)
      requires forall w :: w in workflowIds <==> w in queuedActivations
      modifies this`queuedActivations, this`timers
      ensures State() == Q.RemoveEach(old(State()), workflowIds)
      ensures old(Q.Tracked(State()) && Q.Numbered(State()) && Q.BacksOff(State())) ==>
        queuedActivations == map[] && timers == map[]
    {
      for i := 0 to |workflowIds|
        invariant Q.RemoveEach(State(), workflowIds[i..]) == Q.RemoveEach(old(State()), workflowIds)
        invariant attempts == old(attempts)
      {
        assert workflowIds[i..][1..] == workflowIds[i + 1..];
        RemoveQueuedWorkflowActivation(workflowIds[i]);
      }
      if old(Q.Numbered(State()) && Q.BacksOff(State())) {
        Q.RemoveEachKeeps(old(State()), workflowIds);
        assert queuedActivations.Keys == {};
        assert old(Q.Tracked(State())) ==> timers.Keys == {};
      }
    }
  }
}
