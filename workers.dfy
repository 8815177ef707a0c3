/**
 * The worker-thread list of the polling transports. A worker is only a record of
 * whether Stop was called on it; the thread itself and its removal from the list
 * once it has stopped are not modelled.
 */
module Workers {
  import opened Wrappers
  import opened Exceptions

  datatype Worker = Worker(stopRequested: bool)

  class WorkerPool {
    var workers: seq<Worker>

    constructor ()
      ensures workers == []
    {
      workers := [];
    }

    /** NumberOfWorkerThreads: the workers still in the list. */
    function NumberOfWorkerThreads(): nat
      reads this
    {
      |workers|
    }

    /** AddWorkerThread followed by Start. */
    method AddWorkerThread()
      modifies this
      ensures workers == old(workers) + [Worker(false)]
    {
      workers := workers + [Worker(false)];
    }

    /** Starts `n` new workers, as Start does with numberOfWorkerThreads. */
    method StartWorkers(n: int)
      modifies this
      ensures |workers| == |old(workers)| + (if n < 0 then 0 else n)
      ensures workers[..|old(workers)|] == old(workers)
      ensures forall i :: |old(workers)| <= i < |workers| ==> workers[i] == Worker(false)
    {
      var i := 0;
      while i < n
        invariant 0 <= i && (n >= 0 ==> i <= n) && (n < 0 ==> i == 0)
        invariant |workers| == |old(workers)| + i
        invariant workers[..|old(workers)|] == old(workers)
        invariant forall k :: |old(workers)| <= k < |workers| ==> workers[k] == Worker(false)
      {
        AddWorkerThread();
        i := i + 1;
      }
    }

    /**
     * ChangeNumberOfWorkerThreads: nothing when the target is the current count; asks
     * the workers at positions [target, current) to stop when shrinking; starts
     * target - current new workers when growing. A negative target makes the first
     * index into the list throw before any worker is touched.
     */
    method ChangeNumberOfWorkerThreads(target: int) returns (thrown: ExcRef)
      modifies this
      ensures target < 0 ==> thrown.Some? && thrown.value.kind == ArgumentOutOfRange && workers == old(workers)
      ensures target >= 0 ==> thrown.None?
      ensures target >= 0 ==> |workers| == if target > |old(workers)| then target else |old(workers)|
      ensures target >= 0 ==> forall i :: 0 <= i < |old(workers)| ==>
        workers[i] == if i < target then old(workers)[i] else Worker(true)
      ensures forall i :: |old(workers)| <= i < |workers| ==> workers[i] == Worker(false)
    {
      var current := |workers|;
      if target == current {
        return None;
      }
      if target < current {
        if target < 0 {
          return Some(Simple(ArgumentOutOfRange, "System.ArgumentOutOfRangeException", "index"));
        }
        var i := target;
        while i < current
          invariant target <= i <= current && |workers| == current
          invariant forall k :: 0 <= k < current ==>
            workers[k] == if k < target || k >= i then old(workers)[k] else Worker(true)
        {
          workers := workers[i := Worker(true)];
          i := i + 1;
        }
        return None;
      }
      StartWorkers(target - current);
      return None;
    }
  }
}
