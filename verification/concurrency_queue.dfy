/**
 The FIFO queue behind concurrency control. `Queue` is its value; the class
 below is the object the source updates in place.
 */
module Concurrency {
  import opened Basics

  /** An execution whose `enqueue` promise has not been resolved yet. */
  datatype Waiter = Waiter(executionId: ExecutionId, call: CallId)

  datatype Queue = Queue(capacity: int, waiting: seq<Waiter>)

  /** `enqueue` lets its caller through at once. */
  predicate Admits(q: Queue) {
    q.capacity > 0
  }

  function Enqueued(q: Queue, w: Waiter): Queue {
    Queue(q.capacity - 1, if Admits(q) then q.waiting else q.waiting + [w])
  }

  /** What `resolveNext` leaves in the queue; it resolves the head, if there is one. */
  function HeadResolved(q: Queue): Queue {
    if q.waiting == [] then q else q.(waiting := q.waiting[1..])
  }

  function Dequeued(q: Queue): Queue {
    HeadResolved(q.(capacity := q.capacity + 1))
  }

  /** Position of the first waiter with the given execution id, or the length if there is none. */
  function IndexOf(waiting: seq<Waiter>, id: ExecutionId): (k: nat)
    ensures k <= |waiting|
    ensures k < |waiting| ==> waiting[k].executionId == id
    ensures forall j :: 0 <= j < k ==> waiting[j].executionId != id
  {
    if waiting == [] || waiting[0].executionId == id then 0 else 1 + IndexOf(waiting[1..], id)
  }

  /** The queue once the waiter at `k` has been spliced out, before `resolveNext`. */
  function Splice(q: Queue, k: nat): Queue
    requires k < |q.waiting|
  {
    Queue(q.capacity + 1, q.waiting[..k] + q.waiting[k + 1..])
  }

  function Removed(q: Queue, id: ExecutionId): Queue {
    var k := IndexOf(q.waiting, id);
    if k < |q.waiting| then HeadResolved(Splice(q, k)) else q
  }

  /** Executions are throttled exactly while the capacity is overdrawn. */
  predicate Tight(q: Queue) {
    |q.waiting| == Max(0, -q.capacity)
  }

  /** How many executions are running through the queue, as its counters see it. */
  function InUse(q: Queue, limit: nat): int {
    limit - q.capacity - |q.waiting|
  }

  /** Admission and release keep the queue tight, so they never run more than `limit` at once. */
  lemma AdmissionKeepsLimit(q: Queue, w: Waiter, limit: nat)
    requires Tight(q)
    ensures Tight(Enqueued(q, w)) && Tight(Dequeued(q))
    ensures InUse(Enqueued(q, w), limit) <= limit && InUse(Dequeued(q), limit) <= limit
    ensures InUse(Enqueued(q, w), limit) == InUse(q, limit) + if Admits(q) then 1 else 0
    ensures InUse(Dequeued(q), limit) == InUse(q, limit) - if q.waiting == [] then 1 else 0
  {
  }

  /**
   Removing a throttled execution also starts the next one, although the removed
   execution held no slot. The limit survives exactly when nobody else waits
   behind or before it; otherwise one execution too many runs.
   */
  lemma RemoveKeepsLimitIff(q: Queue, id: ExecutionId, limit: nat)
    requires Tight(q)
    ensures InUse(Removed(q, id), limit) <= limit
        <==> IndexOf(q.waiting, id) == |q.waiting| || |q.waiting| == 1
    ensures Tight(Removed(q, id)) <==> IndexOf(q.waiting, id) == |q.waiting| || |q.waiting| == 1
    ensures InUse(Removed(q, id), limit) > limit ==> InUse(Removed(q, id), limit) == limit + 1
  {
    var k := IndexOf(q.waiting, id);
    if k < |q.waiting| {
      assert |Splice(q, k).waiting| == |q.waiting| - 1;
    }
  }

  /** With a limit of one and a running execution, removing the first of two waiters lets two run. */
  lemma RemoveOversubscribes(running: Waiter, a: Waiter, b: Waiter)
    requires a.executionId != b.executionId
    ensures var q := Enqueued(Enqueued(Enqueued(Queue(1, []), running), a), b);
            && Tight(q) && InUse(q, 1) == 1 && InUse(Removed(q, a.executionId), 1) == 2
  {
    var q := Enqueued(Enqueued(Enqueued(Queue(1, []), running), a), b);
    assert q.waiting == [a, b];
    RemoveKeepsLimitIff(q, a.executionId, 1);
  }

  class ConcurrencyQueue {
    var capacity: int
    var queue: seq<Waiter>
    /** The calls whose `enqueue` promise was resolved by `resolveNext`, oldest first. */
    var resumed: seq<CallId>

    function State(): Queue
      reads this
    {
      Queue(capacity, queue)
    }

    constructor (limit: nat)
      ensures State() == Queue(limit, []) && resumed == []
    {
      capacity, queue, resumed := limit, [], [];
    }

    /** Returns whether the caller has to wait. */
    method Enqueue(executionId: ExecutionId, call: CallId) returns (throttled: bool)
      modifies this`capacity, this`queue
      ensures State() == Enqueued(old(State()), Waiter(executionId, call))
      ensures throttled == !Admits(old(State()))
    {
      capacity := capacity - 1;
      throttled := capacity < 0;
      if throttled {
        queue := queue + [Waiter(executionId, call)];
      }
    }

    method ResolveNext()
      modifies this`queue, this`resumed
      ensures State() == HeadResolved(old(State()))
      ensures resumed == old(resumed) + if old(queue) == [] then [] else [old(queue)[0].call]
    {
      if |queue| > 0 {
        var item := queue[0];
        queue := queue[1..];
        resumed := resumed + [item.call];
      }
    }

    method Dequeue()
      modifies this
      ensures State() == Dequeued(old(State()))
      ensures resumed == old(resumed) + if old(queue) == [] then [] else [old(queue)[0].call]
    {
      capacity := capacity + 1;
      ResolveNext();
    }

    method Remove(executionId: ExecutionId)
      modifies this
      ensures State() == Removed(old(State()), executionId)
      ensures var k := IndexOf(old(queue), executionId);
              if k < |old(queue)| && |old(queue)| > 1
              then resumed == old(resumed) + [old(queue)[if k == 0 then 1 else 0].call]
              else resumed == old(resumed)
    {
      var index := 0;
      while index < |queue| && queue[index].executionId != executionId
        invariant index <= |queue|
        invariant forall j :: 0 <= j < index ==> queue[j].executionId != executionId
      {
        index := index + 1;
      }
      assert index == IndexOf(queue, executionId);
      if index < |queue| {
        queue := queue[..index] + queue[index + 1..];
        capacity := capacity + 1;
        ResolveNext();
      }
    }
  }
}
