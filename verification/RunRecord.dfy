/** The durable record of one schedule run, and the four operations that change it:
    execute, retry, cancel and the requeue script's reset. */
module RunRecord {
  import opened Options
  import opened RedisQueue
  import opened QueueProtocol

  datatype SolverStatus =
    | CpSatOptimal | CpSatFeasible | CpSatInfeasible | CpSatModelInvalid | CpSatUnknown
    | NotStarted | Error

  datatype Quality = OptimalFound | FeasibleNotProvenOptimal | InfeasibleFound | Unknown

  datatype Run = Run(
    status: Status,
    solverStatus: Option<SolverStatus>,
    quality: Quality,
    attempt: int,
    startedAt: Option<int>,
    finishedAt: Option<int>,
    canceledAt: Option<int>,
    updatedAt: int)

  /** What the executor does with the run it is handed: nothing, raise, or set three fields. */
  datatype Executor = Absent | Raises | Leaves(status: Status, solverStatus: Option<SolverStatus>, quality: Quality)

  datatype Outcome = Missing | Refused | Returned(run: Run)

  function OrElse(t: Option<int>, now: int): Option<int> { if t.Some? then t else Some(now) }

  // ----- the fields each stage sets -----

  function Begun(r: Run, now: int): Run
  {
    r.(status := Running, startedAt := OrElse(r.startedAt, now), updatedAt := now)
  }

  function AfterExecutor(r: Run, e: Executor): Run
  {
    if e.Leaves? then r.(status := e.status, solverStatus := e.solverStatus, quality := e.quality) else r
  }

  function Closed(r: Run, later: int): Run
  {
    r.(status := if r.status == Running then Succeeded else r.status,
       solverStatus := if r.solverStatus == None then Some(NotStarted) else r.solverStatus,
       quality := if r.quality == Unknown then FeasibleNotProvenOptimal else r.quality,
       finishedAt := Some(later), updatedAt := later)
  }

  function MarkedFailed(r: Run, now: int, later: int): Run
  {
    r.(status := Failed, solverStatus := Some(Error), quality := Unknown,
       startedAt := OrElse(r.startedAt, now), finishedAt := Some(later), updatedAt := later)
  }

  function MarkedCanceled(r: Run, now: int): Run
  {
    r.(status := Canceled, canceledAt := Some(now), updatedAt := now)
  }

  function Reset(r: Run, now: int): Run
  {
    r.(status := Queued, solverStatus := None, quality := Unknown,
       startedAt := None, finishedAt := None, updatedAt := now)
  }

  // ----- what each operation leaves in the database -----

  /** `loaded` is the session's copy, which a rollback throws away. */
  function Executed(durable: Run, loaded: Run, e: Executor, now: int, later: int): Run
  {
    if !IsLive(loaded.status) then durable
    else if e.Raises? then
      if durable.status == Canceled then durable else MarkedFailed(durable, now, later)
    else Closed(AfterExecutor(Begun(loaded, now), e), later)
  }

  function NextAttempt(r: Run, now: int): Run
  {
    r.(attempt := r.attempt + 1, status := Running, finishedAt := None, updatedAt := now)
  }

  function Retried(r: Run, now: int, later: int): Run
  {
    if r.status == Canceled then r else Executed(r, NextAttempt(r, now), Absent, now, later)
  }

  function CanceledOrKept(r: Run, now: int): Run
  {
    if IsLive(r.status) then MarkedCanceled(r, now) else r
  }

  predicate Stale(r: Run, staleBefore: int) { r.status == Running && r.updatedAt <= staleBefore }

  function Requeued(r: Run, staleBefore: int, now: int): Run
  {
    if Stale(r, staleBefore) then Reset(r, now) else r
  }

  /** The run table. Each method is one session: it loads a row, changes its copy, and
      commits it, or rolls back and loads it again. */
  class RunTable {
    var rows: map<Id, Run>

    constructor (rows: map<Id, Run>)
      ensures this.rows == rows
    {
      this.rows := rows;
    }

    method ExecuteLoaded(id: Id, loaded: Run, e: Executor, now: int, later: int) returns (run: Run)
      requires id in rows
      modifies this
      ensures rows == old(rows)[id := Executed(old(rows)[id], loaded, e, now, later)]
      ensures run == if IsLive(loaded.status) then rows[id] else loaded
    {
      run := loaded;
      if run.status == Canceled {
        return;
      }
      if run.status !in {Queued, Running} {
        return;
      }
      run := run.(status := Running);
      run := run.(startedAt := OrElse(run.startedAt, now));
      run := run.(updatedAt := now);
      if e.Raises? {
        run := rows[id];
        if run.status != Canceled {
          run := run.(status := Failed, solverStatus := Some(Error), quality := Unknown);
          run := run.(startedAt := OrElse(run.startedAt, now), finishedAt := Some(later), updatedAt := later);
          rows := rows[id := run];
        }
        return;
      }
      run := AfterExecutor(run, e);
      if run.status == Running {
        run := run.(status := Succeeded);
      }
      if run.solverStatus == None {
        run := run.(solverStatus := Some(NotStarted));
      }
      if run.quality == Unknown {
        run := run.(quality := FeasibleNotProvenOptimal);
      }
      run := run.(finishedAt := Some(later), updatedAt := later);
      rows := rows[id := run];
    }

    method ExecuteScheduleRun(id: Id, e: Executor, now: int, later: int) returns (o: Outcome)
      modifies this
      ensures id !in old(rows) ==> o == Missing && rows == old(rows)
      ensures id in old(rows) ==>
        && rows == old(rows)[id := Executed(old(rows)[id], old(rows)[id], e, now, later)]
        && o == Returned(rows[id])
    {
      if id !in rows {
        return Missing;
      }
      var run := ExecuteLoaded(id, rows[id], e, now, later);
      o := Returned(run);
    }

    method RetryScheduleRun(id: Id, now: int, later: int) returns (o: Outcome)
      modifies this
      ensures id !in old(rows) ==> o == Missing && rows == old(rows)
      ensures id in old(rows) ==>
        && rows == old(rows)[id := Retried(old(rows)[id], now, later)]
        && o == Returned(rows[id])
    {
      if id !in rows {
        return Missing;
      }
      var run := rows[id];
      if run.status == Canceled {
        return Returned(run);
      }
      run := run.(attempt := run.attempt + 1);
      run := run.(status := Running, finishedAt := None, updatedAt := now);
      run := ExecuteLoaded(id, run, Absent, now, later);
      o := Returned(run);
    }

    method CancelScheduleRun(id: Id, now: int) returns (o: Outcome)
      modifies this
      ensures id !in old(rows) ==> o == Missing && rows == old(rows)
      ensures id in old(rows) ==>
        && rows == old(rows)[id := CanceledOrKept(old(rows)[id], now)]
        && o == if IsLive(old(rows)[id].status) then Returned(rows[id]) else Refused
    {
      if id !in rows {
        return Missing;
      }
      var run := rows[id];
      if run.status !in {Queued, Running} {
        return Refused;
      }
      run := run.(status := Canceled);
      run := run.(canceledAt := Some(now), updatedAt := now);
      rows := rows[id := run];
      o := Returned(run);
    }

    /** `selected` is the script's query result: queued rows and stale running ones. The jobs
        are pushed inside the loop; the rows are committed together after it. */
    method RequeueQueuedScheduleRuns(selected: seq<Id>, staleBefore: int, now: int) returns (jobs: seq<Id>)
      requires forall i :: 0 <= i < |selected| ==> selected[i] in rows
      requires forall i, j :: 0 <= i < j < |selected| ==> selected[i] != selected[j]
      requires forall i :: 0 <= i < |selected| ==>
        rows[selected[i]].status == Queued || Stale(rows[selected[i]], staleBefore)
      modifies this
      ensures jobs == selected
      ensures rows.Keys == old(rows).Keys
      ensures forall id :: id in rows ==>
        rows[id] == if id in selected then Requeued(old(rows)[id], staleBefore, now) else old(rows)[id]
    {
      jobs := [];
      var loaded := rows;
      for i := 0 to |selected|
        invariant jobs == selected[..i] && rows == old(rows)
        invariant loaded.Keys == rows.Keys
        invariant forall id :: id in loaded ==>
          loaded[id] == if id in selected[..i] then Requeued(rows[id], staleBefore, now) else rows[id]
      {
        var run := loaded[selected[i]];
        assert selected[i] !in selected[..i];
        if run.status == Running {
          run := run.(status := Queued, solverStatus := None, quality := Unknown);
          run := run.(startedAt := None, finishedAt := None, updatedAt := now);
          loaded := loaded[selected[i] := run];
        }
        jobs := jobs + [selected[i]];
      }
      assert selected[..|selected|] == selected;
      rows := loaded;
    }
  }

  // ----- runs of operations on one record -----

  datatype Operation =
    | Execute(e: Executor, now: int, later: int)
    | Retry(now: int, later: int)
    | Cancel(now: int)
    | Requeue(staleBefore: int, now: int)

  function Perform(r: Run, op: Operation): Run
  {
    match op
    case Execute(e, now, later) => Executed(r, r, e, now, later)
    case Retry(now, later) => Retried(r, now, later)
    case Cancel(now) => CanceledOrKept(r, now)
    case Requeue(staleBefore, now) => Requeued(r, staleBefore, now)
  }

  function EndTime(op: Operation): int
  {
    if op.Execute? || op.Retry? then op.later else op.now
  }

  function PerformAll(r: Run, ops: seq<Operation>): Run
    decreases |ops|
  {
    if ops == [] then r else PerformAll(Perform(r, ops[0]), ops[1..])
  }

  /** The clock never goes back, within an operation or between two. */
  predicate Chronological(clock: int, ops: seq<Operation>)
    decreases |ops|
  {
    ops == [] || (clock <= ops[0].now <= EndTime(ops[0]) && Chronological(EndTime(ops[0]), ops[1..]))
  }

  function LastTime(clock: int, ops: seq<Operation>): int
  {
    if ops == [] then clock else EndTime(ops[|ops| - 1])
  }

  /** An executor that neither puts the run back in the queue nor cancels it. */
  predicate WellBehaved(e: Executor) { e.Leaves? ==> e.status !in {Queued, Canceled} }

  predicate AllWellBehaved(ops: seq<Operation>)
  {
    forall i :: 0 <= i < |ops| && ops[i].Execute? ==> WellBehaved(ops[i].e)
  }

  predicate Decided(r: Run) { r.status in {Succeeded, Infeasible, Failed} }

  /** The record of a run, seen at time `clock`. */
  predicate Coherent(r: Run, clock: int)
  {
    && (r.startedAt.Some? ==> r.startedAt.value <= clock)
    && (r.status == Canceled ==> r.canceledAt.Some?)
    && (Decided(r) ==>
          && r.startedAt.Some? && r.finishedAt.Some? && r.solverStatus.Some?
          && r.startedAt.value <= r.finishedAt.value <= clock)
  }

  lemma PerformKeepsCoherent(r: Run, op: Operation, clock: int)
    requires Coherent(r, clock) && clock <= op.now <= EndTime(op)
    requires op.Execute? ==> WellBehaved(op.e)
    ensures Coherent(Perform(r, op), EndTime(op))
    ensures r.attempt <= Perform(r, op).attempt
    ensures r.status == Canceled ==> Perform(r, op) == r
  {
    match op {
      case Execute(e, now, later) =>
      case Retry(now, later) =>
        assert IsLive(NextAttempt(r, now).status);
      case Cancel(now) =>
      case Requeue(staleBefore, now) =>
    }
  }

  /** Over every sequence of operations: a decided run has ordered start and finish times and a
      solver status, a canceled run has a cancellation time, the attempt number never falls,
      and a canceled record never changes again. */
  lemma {:induction false} RecordStaysCoherent(r: Run, ops: seq<Operation>, clock: int)
    requires Coherent(r, clock) && Chronological(clock, ops) && AllWellBehaved(ops)
    ensures Coherent(PerformAll(r, ops), LastTime(clock, ops))
    ensures r.attempt <= PerformAll(r, ops).attempt
    ensures r.status == Canceled ==> PerformAll(r, ops) == r
    decreases |ops|
  {
    if ops != [] {
      PerformKeepsCoherent(r, ops[0], clock);
      assert AllWellBehaved(ops[1..]);
      RecordStaysCoherent(Perform(r, ops[0]), ops[1..], EndTime(ops[0]));
    }
  }

  /** Executing a live run decides it, coherently, exactly when the executor is well behaved. */
  lemma ExecuteDecidesIff(r: Run, e: Executor, clock: int, now: int, later: int)
    requires Coherent(r, clock) && IsLive(r.status) && r.canceledAt == None && clock <= now <= later
    ensures
      var t := Executed(r, r, e, now, later);
      WellBehaved(e) <==> Decided(t) && Coherent(t, later)
    ensures !WellBehaved(e) && e.status == Canceled ==>
      !Coherent(Executed(r, r, e, now, later), later)
  {
    var t := Executed(r, r, e, now, later);
    if !WellBehaved(e) {
      assert t.status == e.status;
    }
  }

  /** What the queue protocol takes for granted about one record: an execution ends a live run
      exactly when the executor does not put it back in the queue, a retry ends in success or
      stays canceled, and a cancellation of a live run cancels it. */
  lemma ProtocolStatuses(r: Run, e: Executor, now: int, later: int)
    ensures IsLive(r.status) ==>
      && (IsLive(Executed(r, r, e, now, later).status) <==> e.Leaves? && e.status == Queued)
      && CanceledOrKept(r, now).status == Canceled
    ensures Retried(r, now, later).status == if r.status == Canceled then Canceled else Succeeded
  {
    assert IsLive(NextAttempt(r, now).status);
  }

  /** Delivering a decided or canceled run again changes nothing, however often. */
  lemma {:induction false} RedeliveryIsIdle(r: Run, ops: seq<Operation>)
    requires !IsLive(r.status)
    requires forall i :: 0 <= i < |ops| ==> !ops[i].Retry?
    ensures PerformAll(r, ops) == r
    decreases |ops|
  {
    if ops != [] {
      assert Perform(r, ops[0]) == r;
      RedeliveryIsIdle(r, ops[1..]);
    }
  }

  /** A retry does not calculate anything: it succeeds whatever the run's last solver status,
      and keeps that status when there was one. */
  lemma RetrySucceedsUncalculated(r: Run, now: int, later: int)
    ensures r.status != Canceled ==>
      var t := Retried(r, now, later);
      && t.status == Succeeded && t.attempt == r.attempt + 1 && t.finishedAt == Some(later)
      && t.startedAt == OrElse(r.startedAt, now)
      && (t.solverStatus == r.solverStatus <==> r.solverStatus.Some?)
  {
    var next := NextAttempt(r, now);
    assert IsLive(next.status);
    assert Begun(next, now).startedAt == OrElse(r.startedAt, now);
  }

  /** "Running" is only ever flushed, never committed, so it never becomes durable, and the
      requeue script's reset of stale running rows finds nothing to do. */
  lemma {:induction false} RunningIsNeverDurable(r: Run, ops: seq<Operation>)
    requires r.status != Running
    ensures PerformAll(r, ops).status != Running
    ensures forall i :: 0 <= i < |ops| && ops[i].Requeue? ==>
      PerformAll(r, ops[..i + 1]) == PerformAll(r, ops[..i])
    decreases |ops|
  {
    if ops != [] {
      var next := Perform(r, ops[0]);
      NotRunningAfter(r, ops[0]);
      RunningIsNeverDurable(next, ops[1..]);
      forall i | 0 <= i < |ops| && ops[i].Requeue?
        ensures PerformAll(r, ops[..i + 1]) == PerformAll(r, ops[..i])
      {
        assert ops[..i + 1][1..] == ops[1..][..i];
        if i == 0 {
          assert ops[..1][1..] == [];
        } else {
          assert ops[..i][1..] == ops[1..][..i - 1];
          assert ops[1..][i - 1] == ops[i];
          assert ops[1..][..i - 1 + 1] == ops[1..][..i];
        }
      }
    }
  }

  lemma NotRunningAfter(r: Run, op: Operation)
    requires r.status != Running
    ensures Perform(r, op).status != Running
    ensures op.Requeue? ==> Perform(r, op) == r
  {
    if op.Retry? {
      assert IsLive(NextAttempt(r, op.now).status);
    }
  }

  // ----- a cancellation that commits while an execution is under way -----

  function NewOr<T(==)>(durable: T, before: T, after: T): T { if before == after then durable else after }

  /** A flush writes the columns the session changed since it last read or flushed them. */
  function Flushed(durable: Run, before: Run, after: Run): Run
  {
    Run(
      NewOr(durable.status, before.status, after.status),
      NewOr(durable.solverStatus, before.solverStatus, after.solverStatus),
      NewOr(durable.quality, before.quality, after.quality),
      NewOr(durable.attempt, before.attempt, after.attempt),
      NewOr(durable.startedAt, before.startedAt, after.startedAt),
      NewOr(durable.finishedAt, before.finishedAt, after.finishedAt),
      NewOr(durable.canceledAt, before.canceledAt, after.canceledAt),
      NewOr(durable.updatedAt, before.updatedAt, after.updatedAt))
  }

  /** An execution whose session read `read` while the durable row has become `durable`. */
  function ExecutedLate(durable: Run, read: Run, e: Executor, now: int, later: int): Run
  {
    if !IsLive(read.status) then durable
    else if e.Raises? then Executed(durable, read, e, now, later)
    else
      var begun := Begun(read, now);
      Flushed(Flushed(durable, read, begun), begun, Closed(AfterExecutor(begun, e), later))
  }

  /** With no other session in between, this is the plain execution. */
  lemma ExecutedLateAlone(r: Run, e: Executor, now: int, later: int)
    ensures ExecutedLate(r, r, e, now, later) == Executed(r, r, e, now, later)
  {
    if IsLive(r.status) && !e.Raises? {
      var begun := Begun(r, now);
      assert Flushed(r, r, begun) == begun;
    }
  }

  /** A cancellation committed after the executing session first read the run, and before its
      last read, survives exactly when the executor raises or itself cancels; otherwise the run
      ends uncanceled with a cancellation time. */
  lemma CancelSurvivesIff(read: Run, e: Executor, canceledAt: int, now: int, later: int)
    requires IsLive(read.status)
    ensures
      var t := ExecutedLate(MarkedCanceled(read, canceledAt), read, e, now, later);
      && (t.status == Canceled <==> e.Raises? || (e.Leaves? && e.status == Canceled))
      && t.canceledAt == Some(canceledAt)
  {
    var begun := Begun(read, now);
    var closed := Closed(AfterExecutor(begun, e), later);
    assert closed.status != Running;
    assert !e.Raises? ==> closed.canceledAt == begun.canceledAt == read.canceledAt;
  }
}
