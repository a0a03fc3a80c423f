/** What an execution leaves in the record: the executor's verdict, stamped with the times. */
module RunVerdicts {
  import opened Options
  import RedisQueue
  import opened QueueProtocol
  import opened RunRecord

  // ----- one execution -----

  /** What an executor says of a run that it leaves running is success. */
  function Verdict(e: Executor): Status
  {
    match e
    case Absent => Succeeded
    case Raises => Failed
    case Leaves(status, _, _) => if status == Running then Succeeded else status
  }

  /** Executing a live run stores the executor's verdict, its solver status and its quality; a
      missing solver status and an unknown quality are filled in, a raise stores a failure. */
  lemma VerdictIsStored(r: Run, e: Executor, now: int, later: int)
    requires IsLive(r.status)
    ensures
      var t := Perform(r, Execute(e, now, later));
      && t.status == Verdict(e)
      && t.solverStatus == (
           if e.Raises? then Some(Error)
           else if e.Leaves? && e.solverStatus.Some? then e.solverStatus
           else if e.Absent? && r.solverStatus.Some? then r.solverStatus
           else Some(NotStarted))
      && t.quality == (
           if e.Raises? then Unknown
           else if e.Leaves? && e.quality != Unknown then e.quality
           else if e.Absent? && r.quality != Unknown then r.quality
           else FeasibleNotProvenOptimal)
      && t.attempt == r.attempt && t.canceledAt == r.canceledAt
      && t.startedAt == Some(if r.startedAt.Some? then r.startedAt.value else now)
      && t.finishedAt == Some(later) && t.updatedAt == later
  {
  }

  // ----- sequences -----

  lemma {:induction false} PerformSplits(r: Run, ops: seq<Operation>, i: nat)
    requires i <= |ops|
    ensures PerformAll(r, ops) == PerformAll(PerformAll(r, ops[..i]), ops[i..])
    decreases |ops|
  {
    if i == 0 {
      assert ops[0..] == ops;
    } else {
      PerformSplits(Perform(r, ops[0]), ops[1..], i - 1);
      assert ops[..i][1..] == ops[1..][..i - 1];
      assert ops[1..][i - 1..] == ops[i..];
    }
  }

  /** In any sequence, the verdict of an execution that ends the run is what stays stored until a
      retry: no later delivery, cancellation or requeue changes the record. */
  lemma VerdictStands(r: Run, ops: seq<Operation>, i: nat)
    requires i < |ops| && ops[i].Execute? && !IsLive(Verdict(ops[i].e))
    requires IsLive(PerformAll(r, ops[..i]).status)
    requires forall k :: i < k < |ops| ==> !ops[k].Retry?
    ensures PerformAll(r, ops) == Perform(PerformAll(r, ops[..i]), ops[i])
    ensures PerformAll(r, ops).status == Verdict(ops[i].e)
    ensures ops[i].e.Leaves? && ops[i].e.solverStatus.Some? ==>
      PerformAll(r, ops).solverStatus == ops[i].e.solverStatus
  {
    var before := PerformAll(r, ops[..i]);
    PerformSplits(r, ops, i);
    VerdictIsStored(before, ops[i].e, ops[i].now, ops[i].later);
    var rest := ops[i..][1..];
    assert ops[i..][0] == ops[i];
    assert forall k :: 0 <= k < |rest| ==> rest[k] == ops[i + 1 + k];
    RedeliveryIsIdle(Perform(before, ops[i]), rest);
  }

  // ----- times -----

  /** An operation that changes the record stamps it with the time it ends. */
  lemma ChangesAreStamped(r: Run, op: Operation)
    ensures Perform(r, op) == r || Perform(r, op).updatedAt == EndTime(op)
  {
    if op.Retry? {
      assert IsLive(NextAttempt(r, op.now).status);
    }
  }

  /** The record's stamp never goes back and is never ahead of the clock. */
  lemma {:induction false} StampsFollowTheClock(r: Run, ops: seq<Operation>, clock: int)
    requires Chronological(clock, ops) && r.updatedAt <= clock
    ensures r.updatedAt <= PerformAll(r, ops).updatedAt <= LastTime(clock, ops)
    decreases |ops|
  {
    if ops != [] {
      ChangesAreStamped(r, ops[0]);
      StampsFollowTheClock(Perform(r, ops[0]), ops[1..], EndTime(ops[0]));
    }
  }

  lemma StartIsKeptOnce(r: Run, op: Operation)
    requires r.startedAt.Some? && r.status != Running
    ensures Perform(r, op).startedAt == r.startedAt && Perform(r, op).status != Running
  {
    NotRunningAfter(r, op);
  }

  /** The first start time is kept over every sequence of operations, retries included. */
  lemma {:induction false} StartIsKept(r: Run, ops: seq<Operation>)
    requires r.startedAt.Some? && r.status != Running
    ensures PerformAll(r, ops).startedAt == r.startedAt
    decreases |ops|
  {
    if ops != [] {
      StartIsKeptOnce(r, ops[0]);
      StartIsKept(Perform(r, ops[0]), ops[1..]);
    }
  }

  // ----- cancellation and reset -----

  /** A run as the API creates it, but for its attempt number and cancellation time. */
  function NewRun(attempt: int, canceledAt: Option<int>, now: int): Run
  {
    Run(Queued, None, Unknown, attempt, None, None, canceledAt, now)
  }

  /** The script's reset leaves nothing of the execution that went stale. */
  lemma ResetForgets(r: Run, staleBefore: int, now: int)
    ensures Perform(r, Requeue(staleBefore, now)) ==
      if r.status == Running && r.updatedAt <= staleBefore then NewRun(r.attempt, r.canceledAt, now) else r
  {
  }

  /** A cancellation changes only the status, the cancellation time and the stamp. */
  lemma CancelOnlyMarks(r: Run, now: int)
    ensures
      var t := Perform(r, Cancel(now));
      && (r.status in {Queued, Running} ==>
            t == Run(Canceled, r.solverStatus, r.quality, r.attempt, r.startedAt, r.finishedAt, Some(now), now))
      && (r.status !in {Queued, Running} ==> t == r)
  {
  }

  // ----- the queue protocol -----

  /** The statuses that the queue protocol writes are those of the record, for a cancellation
      and a retry. */
  lemma ProtocolFollowsRecord(s: State, run: Id, r: Run, now: int, later: int)
    requires run in s.runs && s.runs[run] == r.status
    ensures Enabled(s, CancelRun(run)) ==>
      Apply(s, CancelRun(run)).runs == s.runs[run := Perform(r, Cancel(now)).status]
    ensures Enabled(s, RetryRun(run)) ==>
      Apply(s, RetryRun(run)).runs == s.runs[run := Perform(r, Retry(now, later)).status]
  {
    assert IsLive(NextAttempt(r, now).status);
  }

  lemma ResetFollowsRecord(s: State, p: RedisQueue.Payload, r: Run, now: int)
    requires Enabled(s, CommitReset(p))
    ensures Apply(s, CommitReset(p)).runs == s.runs[p.runId := Reset(r, now).status]
  {
  }

  /** The same for a delivery's execution, which the protocol makes two steps. */
  lemma ExecutionFollowsRecord(s: State, w: Id, r: Run, e: Executor, now: int, later: int)
    requires Enabled(s, BeginExecute(w)) && !IsLive(Verdict(e))
    requires
      var run := WorkerAt(s, w).p.runId;
      run in s.runs && s.runs[run] == r.status
    ensures
      var run, begun := WorkerAt(s, w).p.runId, Apply(s, BeginExecute(w));
      var t := if InPhase(begun, w, Executing) then Apply(begun, FinishExecute(w, Verdict(e))) else begun;
      t.runs == s.runs[run := Perform(r, Execute(e, now, later)).status] && InPhase(t, w, Done)
  {
    var run := WorkerAt(s, w).p.runId;
    if IsLive(r.status) {
      VerdictIsStored(r, e, now, later);
    } else {
      assert s.runs[run := r.status] == s.runs;
    }
  }
}
