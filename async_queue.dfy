// The bounded-concurrency task queue (src/async/async-queue.ts).  Tasks wait in a FIFO
// list; at most `maxConcurrency` run at once.  Running a task is asynchronous in the source:
// here starting a task is the moment `processNext` hands it to a worker, and a worker's
// `finally` block is the explicit call `WorkerDone`.  The drain promise handed out by
// `onDone` is modelled by an identity: a fresh number per promise created.

module AsyncQueues {
  import opened Wrappers

  /** What `onDone` returns: an already resolved promise, or the shared drain promise `id`. */
  datatype DonePromise = Resolved | Pending(id: nat)

  function Min(a: int, b: int): int
  {
    if a <= b then a else b
  }

  /** How many of the waiting tasks a call to `processNext` starts. */
  function Dispatched(maxConcurrency: int, activeWorkers: int, waiting: nat): (k: nat)
    ensures k <= waiting
    ensures k == waiting || activeWorkers + k >= maxConcurrency
    ensures k > 0 ==> activeWorkers + k <= maxConcurrency
  {
    if activeWorkers >= maxConcurrency then 0 else Min(maxConcurrency - activeWorkers, waiting)
  }

  class AsyncQueue<T(==)> {
    var queue: seq<T>
    var activeWorkers: int
    const maxConcurrency: int
    /** `drainPromise` (and its `drainResolve`, which is set and cleared with it). */
    var drainPromise: Option<nat>
    /** The identity the next drain promise gets. */
    var nextPromise: nat
    /** Every task ever added, and the tasks started so far, in order. */
    ghost var added: seq<T>
    ghost var started: seq<T>
    /** How many started tasks have finished. */
    ghost var finished: nat
    /** The drain promises resolved so far, in order. */
    ghost var resolvedPromises: seq<nat>

    /** What holds between any two steps, even inside an operation. */
    ghost predicate Coherent()
      reads this
    {
      && 0 <= activeWorkers && activeWorkers + finished == |started|
      && added == started + queue
      && (forall k :: 0 <= k < |resolvedPromises| ==> resolvedPromises[k] < nextPromise)
      && (drainPromise.Some? ==> drainPromise.value < nextPromise && drainPromise.value !in resolvedPromises)
    }

    /** What holds after every public operation. */
    ghost predicate Valid()
      reads this
    {
      && Coherent()
      && activeWorkers <= (if maxConcurrency < 0 then 0 else maxConcurrency)
      && (queue != [] ==> activeWorkers >= maxConcurrency)
      && (drainPromise.Some? ==> queue != [] || activeWorkers > 0)
    }

    constructor (maxConcurrency: int)
      ensures Valid() && this.maxConcurrency == maxConcurrency
      ensures queue == [] && activeWorkers == 0 && drainPromise == None
      ensures added == [] && started == [] && finished == 0 && resolvedPromises == []
    {
      this.maxConcurrency := maxConcurrency;
      queue := [];
      activeWorkers := 0;
      drainPromise := None;
      nextPromise := 0;
      added := [];
      started := [];
      finished := 0;
      resolvedPromises := [];
    }

    /**
     * `addTasks`: append the tasks, then start as many of the waiting ones, oldest first,
     * as there are free slots.
     */
    method AddTasks(tasks: seq<T>) returns (startedNow: seq<T>)
      requires Valid()
      modifies this
      ensures Valid()
      ensures added == old(added) + tasks
      ensures var waiting := old(queue) + tasks;
        var k := Dispatched(maxConcurrency, old(activeWorkers), |waiting|);
        startedNow == waiting[..k] && queue == waiting[k..] && activeWorkers == old(activeWorkers) + k
      ensures started == old(started) + startedNow
      ensures drainPromise == old(drainPromise) && resolvedPromises == old(resolvedPromises) && finished == old(finished)
    {
      queue := queue + tasks;
      added := added + tasks;
      assert added == started + queue;
      startedNow := ProcessNext();
    }

    /** `onDone`: resolved at once when idle; otherwise the one shared drain promise. */
    method OnDone() returns (p: DonePromise)
      requires Valid()
      modifies this
      ensures Valid()
      ensures queue == old(queue) && activeWorkers == old(activeWorkers)
      ensures added == old(added) && started == old(started) && finished == old(finished)
      ensures resolvedPromises == old(resolvedPromises)
      ensures queue == [] && activeWorkers == 0 ==> p == Resolved && drainPromise == old(drainPromise)
      ensures !(queue == [] && activeWorkers == 0) ==> p.Pending? && drainPromise == Some(p.id)
      ensures old(drainPromise).Some? ==> drainPromise == old(drainPromise)
      ensures old(drainPromise).None? && p.Pending? ==> p.id !in resolvedPromises && p.id == old(nextPromise)
    {
      if |queue| == 0 && activeWorkers == 0 {
        return Resolved;
      }
      if drainPromise.None? {
        drainPromise := Some(nextPromise);
        nextPromise := nextPromise + 1;
      }
      p := Pending(drainPromise.value);
    }

    /** `processNext`: start waiting tasks, oldest first, while a slot is free. */
    method ProcessNext() returns (startedNow: seq<T>)
      requires Coherent()
      requires activeWorkers <= (if maxConcurrency < 0 then 0 else maxConcurrency)
      requires drainPromise.Some? ==> queue != [] || activeWorkers > 0
      modifies this
      ensures Valid()
      ensures var k := Dispatched(maxConcurrency, old(activeWorkers), |old(queue)|);
        startedNow == old(queue)[..k] && queue == old(queue)[k..] && activeWorkers == old(activeWorkers) + k
      ensures started == old(started) + startedNow
      ensures added == old(added) && drainPromise == old(drainPromise) && nextPromise == old(nextPromise)
      ensures resolvedPromises == old(resolvedPromises) && finished == old(finished)
    {
      startedNow := [];
      ghost var k := Dispatched(maxConcurrency, activeWorkers, |queue|);
      while activeWorkers < maxConcurrency && |queue| > 0
        invariant |startedNow| <= k
        invariant startedNow == old(queue)[..|startedNow|] && queue == old(queue)[|startedNow|..]
        invariant activeWorkers == old(activeWorkers) + |startedNow|
        invariant started == old(started) + startedNow
        invariant added == old(added) && drainPromise == old(drainPromise) && nextPromise == old(nextPromise)
        invariant resolvedPromises == old(resolvedPromises) && finished == old(finished)
        decreases |queue|
      {
        var task := queue[0];
        assert old(queue)[..|startedNow| + 1] == startedNow + [task];
        queue := queue[1..];
        activeWorkers := activeWorkers + 1;
        started := started + [task];
        startedNow := startedNow + [task];
      }
      assert |startedNow| == k;
      assert started + queue == old(started) + old(queue);
    }

    /**
     * The `finally` block of `runWorker`, run whether the task succeeded or threw: free the
     * slot, then start waiting tasks, or, when nothing is left at all, resolve the drain
     * promise and forget it.
     */
    method WorkerDone() returns (startedNow: seq<T>, settled: Option<nat>)
      requires Valid() && activeWorkers > 0
      modifies this
      ensures Valid()
      ensures finished == old(finished) + 1
      ensures started == old(started) + startedNow && added == old(added)
      ensures old(queue) != [] ==>
        var k := Dispatched(maxConcurrency, old(activeWorkers) - 1, |old(queue)|);
        startedNow == old(queue)[..k] && queue == old(queue)[k..]
        && activeWorkers == old(activeWorkers) - 1 + k && settled == None
      ensures old(queue) == [] ==> startedNow == [] && queue == [] && activeWorkers == old(activeWorkers) - 1
      ensures settled.Some? <==> old(drainPromise).Some? && queue == [] && activeWorkers == 0
      ensures settled.Some? ==>
        settled == old(drainPromise) && drainPromise == None && resolvedPromises == old(resolvedPromises) + [settled.value]
      ensures settled.None? ==> drainPromise == old(drainPromise) && resolvedPromises == old(resolvedPromises)
    {
      activeWorkers := activeWorkers - 1;
      finished := finished + 1;
      settled := None;
      startedNow := [];
      if |queue| > 0 {
        startedNow := ProcessNext();
      } else if activeWorkers == 0 && drainPromise.Some? {
        settled := drainPromise;
        resolvedPromises := resolvedPromises + [drainPromise.value];
        drainPromise := None;
      }
    }
  }
}
