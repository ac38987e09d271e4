/**
 The transactional task queue (app/queue.py).

 A handler enqueues into a BufferedTaskQueue while its transaction is open and
 flushes it only after the commit. The inner queue is whatever delivers tasks:
 here it is the sequence of tasks it has been given so far.
 */
module TaskQueue {

  /** The environment's queue: every task handed over for delivery, in order. */
  class DeliveryQueue<T> {
    var dispatched: seq<T>

    constructor ()
      ensures dispatched == []
    {
      dispatched := [];
    }

    method Enqueue(task: T)
      modifies this
      ensures dispatched == old(dispatched) + [task]
    {
      dispatched := dispatched + [task];
    }
  }

  class BufferedTaskQueue<T> {
    const inner: DeliveryQueue<T>
    var pending: seq<T>

    constructor (inner: DeliveryQueue<T>)
      ensures this.inner == inner && pending == []
    {
      this.inner := inner;
      pending := [];
    }

    method Enqueue(task: T)
      modifies this
      ensures pending == old(pending) + [task]
    {
      pending := pending + [task];
    }

    /** Hands the whole buffer over in order and leaves it empty, so a second flush sends nothing. */
    method Flush()
      modifies this, inner
      ensures pending == []
      ensures inner.dispatched == old(inner.dispatched) + old(pending)
    {
      var batch := pending;
      pending := [];
      for i := 0 to |batch|
        invariant pending == []
        invariant inner.dispatched == old(inner.dispatched) + batch[..i]
      {
        inner.Enqueue(batch[i]);
        assert batch[..i + 1] == batch[..i] + [batch[i]];
      }
      assert batch[..|batch|] == batch;
    }
  }

  /** What one POST to a handler endpoint comes back with. */
  datatype PostOutcome = Status(code: nat) | TransportError

  const MAX_POSTS: nat := 5

  predicate Delivered(outcome: PostOutcome) {
    outcome.Status? && outcome.code < 500
  }

  /**
   The retry loop. `outcome(i)` is what POST number i + 1 would return. The task is given up
   exactly when none of the five POSTs gets an answer below 500; otherwise the loop stops at the
   first such answer and posts no more.
   */
  method PostWithRetries(outcome: nat -> PostOutcome) returns (delivered: bool, posts: nat)
    ensures 1 <= posts <= 5
    ensures delivered <==> exists i :: 0 <= i < 5 && outcome(i).Status? && outcome(i).code < 500
    ensures forall i :: 0 <= i < posts - 1 ==> outcome(i).TransportError? || outcome(i).code >= 500
    ensures delivered ==> outcome(posts - 1).Status? && outcome(posts - 1).code < 500
    ensures !delivered ==> posts == 5
  {
    delivered, posts := false, 0;
    while posts < MAX_POSTS
      invariant posts <= MAX_POSTS
      invariant forall i :: 0 <= i < posts ==> !Delivered(outcome(i))
    {
      posts := posts + 1;
      if Delivered(outcome(posts - 1)) {
        return true, posts;
      }
    }
  }
}
