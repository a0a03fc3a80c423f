/** One queue worker, from its recovery pass to its last job, working alone. */
module QueueWorker {
  import opened Options
  import opened RedisQueue
  import opened QueueProtocol
  import opened RunRecord

  /** A worker looks at no more than this many entries of the processing list. */
  const RECOVERY_LIMIT: nat := 100

  /** What a worker works with: what the executor does with each run, when each job is taken,
      and the worker's name. */
  datatype Setting = Setting(executor: Id -> Executor, clock: nat -> int, worker: Id)

  datatype World = World(store: Store, rows: map<Id, Run>)

  /** What executing the run a job names does to the table. A missing run changes nothing. */
  function RowsAfter(rows: map<Id, Run>, run: Id, e: Executor, now: int): map<Id, Run>
  {
    if run in rows then rows[run := Executed(rows[run], rows[run], e, now, now)] else rows
  }

  function NextJob(s: Store): Payload
    requires s.main != []
  {
    s.main[|s.main| - 1]
  }

  /** Deliver, execute and acknowledge one job. */
  function AfterJob(x: World, e: Executor, now: int, worker: Id): World
    requires x.store.main != []
  {
    var p := NextJob(x.store);
    World(Acked(Dequeued(x.store, now, worker), p), RowsAfter(x.rows, p.runId, e, now))
  }

  /** Jobs `i` up to, but not including, job `limit`, as long as there are any. */
  function Drained(x: World, c: Setting, i: nat, limit: nat): World
    decreases limit - i
  {
    if limit <= i || x.store.main == [] then x
    else Drained(AfterJob(x, c.executor(NextJob(x.store).runId), c.clock(i), c.worker), c, i + 1, limit)
  }

  method ProcessNextScheduleRun(queue: RedisScheduleRunQueue, table: RunTable, executor: Id -> Executor, now: int)
    returns (processed: bool)
    requires queue.Valid()
    modifies queue`store, table
    ensures queue.Valid()
    ensures processed == (old(queue.store).main != [])
    ensures World(queue.store, table.rows) ==
      if processed
      then AfterJob(old(World(queue.store, table.rows)), executor(NextJob(old(queue.store)).runId), now, queue.workerId)
      else old(World(queue.store, table.rows))
    ensures processed ==> |queue.store.main| == |old(queue.store).main| - 1
  {
    var job := queue.Dequeue(now);
    if job == None {
      return false;
    }
    var outcome := table.ExecuteScheduleRun(job.value.runId, executor(job.value.runId), now, now);
    queue.Ack(job.value);
    processed := true;
  }

  method RunQueueWorker(queue: RedisScheduleRunQueue, table: RunTable, c: Setting, maxJobs: nat, startedAt: int)
    returns (processedCount: nat)
    requires queue.Valid() && queue.workerId == c.worker
    modifies queue`store, table
    ensures queue.Valid()
    ensures
      var s := old(queue.store);
      var recovered := Recovered(s, Prefix(s.processing, 100), startedAt, queue.leaseSeconds);
      && World(queue.store, table.rows) == Drained(World(recovered, old(table.rows)), c, 0, maxJobs)
      && processedCount == if maxJobs <= |recovered.main| then maxJobs else |recovered.main|
  {
    var recoveredCount := queue.RecoverInProgress(startedAt, RECOVERY_LIMIT);
    processedCount := 0;
    ghost var x := World(queue.store, table.rows);
    ghost var jobs, end := |x.store.main|, Drained(x, c, 0, maxJobs);
    while processedCount < maxJobs
      invariant queue.Valid() && x == World(queue.store, table.rows)
      invariant processedCount <= maxJobs && processedCount + |x.store.main| == jobs
      invariant Drained(x, c, processedCount, maxJobs) == end
    {
      var processed := ProcessNextScheduleRun(queue, table, c.executor, c.clock(processedCount));
      if !processed {
        break;
      }
      processedCount, x := processedCount + 1, World(queue.store, table.rows);
    }
  }

  // ----- what a worker that is given enough jobs leaves behind -----

  predicate LeavesQueued(e: Executor) { e.Leaves? && e.status == Queued }

  predicate Ended(rows: map<Id, Run>, run: Id) { run in rows ==> !IsLive(rows[run].status) }

  /** One job leaves the processing list as it was, and its run ended. */
  lemma OneJob(x: World, e: Executor, now: int, worker: Id)
    requires x.store.main != [] && !LeavesQueued(e)
    ensures
      var t := AfterJob(x, e, now, worker);
      && t.store.main == x.store.main[..|x.store.main| - 1]
      && t.store.processing == x.store.processing
      && t.rows.Keys == x.rows.Keys
      && Ended(t.rows, NextJob(x.store).runId)
      && forall run :: run in x.rows && run != NextJob(x.store).runId ==> t.rows[run] == x.rows[run]
  {
    var p := NextJob(x.store);
    var delivered := Dequeued(x.store, now, worker);
    assert delivered.processing[0] == p && delivered.processing[1..] == x.store.processing;
    if p.runId in x.rows {
      ProtocolStatuses(x.rows[p.runId], e, now, now);
    }
  }

  /** An ended run stays as it is, whatever job comes next. */
  lemma EndedStays(x: World, e: Executor, now: int, worker: Id, run: Id)
    requires x.store.main != [] && run in x.rows && Ended(x.rows, run)
    ensures
      var rows := AfterJob(x, e, now, worker).rows;
      run in rows && rows[run] == x.rows[run]
  {
  }

  /** The run has been executed once by its own executor, at the time of one of the worker's jobs. */
  ghost predicate ExecutedOnce(before: Run, after: Run, c: Setting, run: Id)
  {
    exists k :: after == Perform(before, Execute(c.executor(run), c.clock(k), c.clock(k)))
  }

  ghost predicate HasJob(s: Store, run: Id) { exists p :: p in s.main && p.runId == run }

  lemma {:induction false} DrainsMain(x: World, c: Setting, i: nat, limit: nat, run: Id)
    requires i + |x.store.main| <= limit
    requires forall run :: !LeavesQueued(c.executor(run))
    ensures
      var t := Drained(x, c, i, limit);
      && t.store.main == [] && t.store.processing == x.store.processing && t.rows.Keys == x.rows.Keys
      && (HasJob(x.store, run) || Ended(x.rows, run) ==> Ended(t.rows, run))
      && (run in x.rows && HasJob(x.store, run) ==> ExecutedOnce(x.rows[run], t.rows[run], c, run))
      && (run in x.rows && (!HasJob(x.store, run) || Ended(x.rows, run)) ==> t.rows[run] == x.rows[run])
    decreases limit - i
  {
    if x.store.main != [] {
      var p := NextJob(x.store);
      var e := c.executor(p.runId);
      var t := AfterJob(x, e, c.clock(i), c.worker);
      OneJob(x, e, c.clock(i), c.worker);
      DrainsMain(t, c, i + 1, limit, run);
      assert x.store.main == t.store.main + [p];
      if run in x.rows && Ended(x.rows, run) {
        EndedStays(x, e, c.clock(i), c.worker, run);
        assert x.rows[run] == Perform(x.rows[run], Execute(c.executor(run), c.clock(i), c.clock(i)));
      } else if run in x.rows && p.runId == run {
        assert t.rows[run] == Perform(x.rows[run], Execute(e, c.clock(i), c.clock(i)));
      }
    }
  }

  /** Started after a crash, a worker with room for every job takes back every abandoned
      delivery and leaves both lists empty, every run that had a job ended by one execution of
      its own executor, and every other run as it was. */
  lemma WorkerEmptiesQueue(s: Store, rows: map<Id, Run>, c: Setting, startedAt: int, leaseSeconds: int,
                           maxJobs: nat, run: Id)
    requires |s.processing| <= 100 && |s.main| + |s.processing| <= maxJobs
    requires forall p :: p in s.processing ==> Recoverable(s, p, startedAt, leaseSeconds)
    requires forall run :: !LeavesQueued(c.executor(run))
    ensures
      var recovered := Recovered(s, Prefix(s.processing, RECOVERY_LIMIT), startedAt, leaseSeconds);
      var t := Drained(World(recovered, rows), c, 0, maxJobs);
      var hadJob := exists p :: p in s.main + s.processing && p.runId == run;
      && t.store.main == [] && t.store.processing == []
      && t.rows.Keys == rows.Keys
      && (hadJob ==> Ended(t.rows, run))
      && (hadJob && run in rows ==> ExecutedOnce(rows[run], t.rows[run], c, run))
      && (!hadJob && run in rows ==> run in t.rows && t.rows[run] == rows[run])
  {
    assert Prefix(s.processing, RECOVERY_LIMIT) == s.processing;
    assert s.processing == s.processing + [];
    RecoverHead(s, s.processing, [], startedAt, leaseSeconds);
    var recovered := Recovered(s, s.processing, startedAt, leaseSeconds);
    DrainsMain(World(recovered, rows), c, 0, maxJobs, run);
    assert recovered.main == s.main + s.processing;
    assert run in rows ==> run in World(recovered, rows).rows;
  }
}
