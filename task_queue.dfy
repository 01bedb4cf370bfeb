/**
 * The `queue.Queue` the container scripts share between the enqueueing main thread and the
 * worker, reduced to what a single worker observes: the pending items in FIFO order and the
 * count of unfinished tasks that `q.join()` waits on.
 */
module TaskQueue {
  class WorkQueue {
    /** Items put and not yet taken, oldest first. */
    var items: seq<string>
    /** Items put and not yet marked done with `task_done`. */
    var unfinished: nat

    constructor ()
      ensures items == [] && unfinished == 0
    {
      items := [];
      unfinished := 0;
    }

    /** `q.put(x)`. */
    method Put(x: string)
      modifies this
      ensures items == old(items) + [x] && unfinished == old(unfinished) + 1
    {
      items := items + [x];
      unfinished := unfinished + 1;
    }

    /** `q.get()` on a non-empty queue (on an empty one the worker blocks for good). */
    method Get() returns (x: string)
      requires items != []
      modifies this`items
      ensures x == old(items)[0] && items == old(items)[1..]
    {
      x := items[0];
      items := items[1..];
    }

    /** `q.task_done()`, which raises ValueError when no task is unfinished. */
    method TaskDone()
      requires unfinished > 0
      modifies this`unfinished
      ensures unfinished == old(unfinished) - 1
    {
      unfinished := unfinished - 1;
    }

    /** `q.join()` returns exactly when every item put has been marked done. */
    predicate JoinReturns()
      reads this
    {
      unfinished == 0
    }
  }

  /** The enqueue loop: every name is put once, in the order given. */
  method Enqueue(manifest: seq<string>) returns (q: WorkQueue)
    ensures fresh(q) && q.items == manifest && q.unfinished == |manifest|
  {
    q := new WorkQueue();
    for i := 0 to |manifest|
      invariant q.items == manifest[..i] && q.unfinished == i
    {
      assert manifest[..i + 1] == manifest[..i] + [manifest[i]];
      q.Put(manifest[i]);
    }
    assert manifest[..|manifest|] == manifest;
  }
}
