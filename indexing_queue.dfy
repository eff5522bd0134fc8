// The file-indexing queue (src/index/indexing-queue.ts): each enqueued path becomes a task of
// the bounded queue, and the statistics counters follow every task through its lifecycle:
// `total` when enqueued, `active` while it runs, then `processed` or `failed`.
// The task body is split where the source awaits: its start runs when the queue dispatches
// it, its end is `TaskFinished`, with the indexing outcome as a parameter.  The md5 digest
// is a parameter function; the events emitted are kept in a ghost log.

module IndexingQueues {
  import opened Wrappers
  import opened AsyncQueues

  datatype QueueStats = QueueStats(total: nat, processed: nat, failed: nat, active: nat)

  /** The events the queue emits: 'stats' (with the counters as they are then), 'processed', 'failed'. */
  datatype Event = StatsChanged(stats: QueueStats) | Processed(file: string) | Failed(file: string)

  class IndexingQueue {
    var stats: QueueStats
    const queue: AsyncQueue<string>
    const md5: string -> string
    ghost var events: seq<Event>
    /** The (filePath, docId) pairs handed to the indexing service, in start order. */
    ghost var indexCalls: seq<(string, string)>

    ghost predicate Valid()
      reads this, queue
    {
      && queue.Valid()
      && stats.total == |queue.added|
      && stats.active == queue.activeWorkers
      && stats.processed + stats.failed == queue.finished
      && |indexCalls| == |queue.started|
      && forall k :: 0 <= k < |indexCalls| ==> indexCalls[k] == (queue.started[k], md5(queue.started[k]))
    }

    constructor (concurrency: int, md5: string -> string)
      ensures Valid() && fresh(queue) && queue.maxConcurrency == concurrency && this.md5 == md5
      ensures stats == QueueStats(0, 0, 0, 0) && events == [] && indexCalls == []
    {
      stats := QueueStats(0, 0, 0, 0);
      queue := new AsyncQueue(concurrency);
      this.md5 := md5;
      events := [];
      indexCalls := [];
    }

    /** `enqueue`: count the file, then hand its task to the queue, which may start it at once. */
    method Enqueue(filePath: string)
      requires Valid()
      modifies this, queue
      ensures Valid()
      ensures stats.total == old(stats.total) + 1
      ensures stats.processed == old(stats.processed) && stats.failed == old(stats.failed)
      ensures queue.added == old(queue.added) + [filePath]
      ensures var waiting := old(queue.queue) + [filePath];
        var k := Dispatched(queue.maxConcurrency, old(queue.activeWorkers), |waiting|);
        stats.active == old(stats.active) + k
        && indexCalls == old(indexCalls) + DocIds(md5, waiting[..k])
    {
      stats := stats.(total := stats.total + 1);
      events := events + [StatsChanged(stats)];
      var startedNow := queue.AddTasks([filePath]);
      StartTasks(startedNow);
    }

    /**
     * The end of a task, success or failure: count the outcome, emit it, leave the active
     * set; then the queue's worker frees its slot and may start waiting tasks.
     */
    method TaskFinished(filePath: string, succeeded: bool) returns (settled: Option<nat>)
      requires Valid() && stats.active > 0
      requires filePath in queue.started
      modifies this, queue
      ensures Valid()
      ensures stats.total == old(stats.total) && queue.added == old(queue.added)
      ensures succeeded ==> stats.processed == old(stats.processed) + 1 && stats.failed == old(stats.failed)
      ensures !succeeded ==> stats.failed == old(stats.failed) + 1 && stats.processed == old(stats.processed)
      ensures old(queue.queue) == [] ==> stats.active == old(stats.active) - 1
      ensures var k := Dispatched(queue.maxConcurrency, old(queue.activeWorkers) - 1, |old(queue.queue)|);
        stats.active == old(stats.active) - 1 + k && queue.queue == old(queue.queue)[k..]
        && indexCalls == old(indexCalls) + DocIds(md5, old(queue.queue)[..k])
      ensures settled.Some? <==> old(queue.drainPromise).Some? && queue.queue == [] && stats.active == 0
    {
      if succeeded {
        stats := stats.(processed := stats.processed + 1);
        events := events + [Processed(filePath)];
      } else {
        stats := stats.(failed := stats.failed + 1);
        events := events + [Failed(filePath)];
      }
      stats := stats.(active := stats.active - 1);
      events := events + [StatsChanged(stats)];
      var startedNow;
      startedNow, settled := queue.WorkerDone();
      StartTasks(startedNow);
    }

    /** The start of each dispatched task: `active++`, then its document id from the path. */
    method StartTasks(startedNow: seq<string>)
      requires queue.Valid()
      requires stats.total == |queue.added| && stats.processed + stats.failed == queue.finished
      requires |queue.started| >= |startedNow| && queue.started[|queue.started| - |startedNow|..] == startedNow
      requires stats.active + |startedNow| == queue.activeWorkers
      requires |indexCalls| + |startedNow| == |queue.started|
      requires forall k :: 0 <= k < |indexCalls| ==> indexCalls[k] == (queue.started[k], md5(queue.started[k]))
      modifies this
      ensures Valid()
      ensures stats == old(stats).(active := old(stats.active) + |startedNow|)
      ensures indexCalls == old(indexCalls) + DocIds(md5, startedNow)
    {
      for i := 0 to |startedNow|
        invariant stats == old(stats).(active := old(stats.active) + i)
        invariant indexCalls == old(indexCalls) + DocIds(md5, startedNow[..i])
      {
        stats := stats.(active := stats.active + 1);
        events := events + [StatsChanged(stats)];
        var docId := md5(startedNow[i]);
        indexCalls := indexCalls + [(startedNow[i], docId)];
        assert startedNow[..i + 1] == startedNow[..i] + [startedNow[i]];
      }
      assert startedNow[..|startedNow|] == startedNow;
      forall k | 0 <= k < |indexCalls|
        ensures indexCalls[k] == (queue.started[k], md5(queue.started[k]))
      {
        if k >= |old(indexCalls)| {
          var j := k - |old(indexCalls)|;
          assert indexCalls[k] == (startedNow[j], md5(startedNow[j]));
          assert queue.started[|queue.started| - |startedNow|..][j] == queue.started[k];
        }
      }
    }

    /** `waitForCompletion`: the queue's `onDone`. */
    method WaitForCompletion() returns (p: DonePromise)
      requires Valid()
      modifies queue
      ensures Valid()
      ensures queue.queue == [] && stats.active == 0 ==> p == Resolved
      ensures !(queue.queue == [] && stats.active == 0) ==> p.Pending? && queue.drainPromise == Some(p.id)
      ensures queue.queue == old(queue.queue) && queue.added == old(queue.added)
    {
      p := queue.OnDone();
    }

    /** `getStats`: a copy of the counters, which are left as they are. */
    method GetStats() returns (s: QueueStats)
      requires Valid()
      ensures s == stats
      ensures s.processed + s.failed + s.active <= s.total
    {
      CountersBounded();
      s := stats;
    }

    /** Every finished or running task was enqueued: `processed + failed + active <= total`. */
    lemma CountersBounded()
      requires Valid()
      ensures stats.processed + stats.failed + stats.active <= stats.total
    {
      assert |queue.added| == |queue.started| + |queue.queue|;
    }
  }

  /** The indexing calls of started tasks: each path with its digest as document id. */
  function DocIds(md5: string -> string, paths: seq<string>): (r: seq<(string, string)>)
    ensures |r| == |paths| && forall k :: 0 <= k < |paths| ==> r[k] == (paths[k], md5(paths[k]))
  {
    seq(|paths|, k requires 0 <= k < |paths| => (paths[k], md5(paths[k])))
  }
}
