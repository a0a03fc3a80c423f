/** A run that has ended stays ended: what the queue delivers of it is not executed. And the
    statuses the protocol writes are those of the run record. */
module QueueEnded {
  import opened Options
  import opened RedisQueue
  import opened QueueProtocol
  import opened QueueHazards

  /** Some worker is executing a payload of the run. */
  ghost predicate BeingExecuted(s: State, run: Id)
  {
    exists w :: InPhase(s, w, Executing) && WorkerAt(s, w).p.runId == run
  }

  /** The run has this status, which is neither queued nor running. */
  predicate EndedAs(s: State, run: Id, status: Status)
  {
    run in s.runs && s.runs[run] == status && !IsLive(status)
  }

  /** The requests that are meant to change an ended run. A retry of a canceled run is refused. */
  predicate Revives(step: Step, run: Id, status: Status)
  {
    || (step.CommitReset? && step.p.runId == run)
    || (step == RetryRun(run) && status != Canceled)
  }

  lemma EndedStep(s: State, step: Step, run: Id, status: Status)
    requires EndedAs(s, run, status) && !BeingExecuted(s, run)
    requires Enabled(s, step) && !Revives(step, run, status)
    ensures EndedAs(Apply(s, step), run, status) && !BeingExecuted(Apply(s, step), run)
  {
    var t := Apply(s, step);
    forall w | InPhase(t, w, Executing) ensures InPhase(s, w, Executing) || step == BeginExecute(w) {}
  }

  predicate LeavesAlone(steps: seq<Step>, run: Id, status: Status)
  {
    forall i :: 0 <= i < |steps| ==> !Revives(steps[i], run, status)
  }

  lemma {:induction false} EndedRun(s: State, steps: seq<Step>, run: Id, status: Status)
    requires EndedAs(s, run, status) && !BeingExecuted(s, run)
    requires CanRun(s, steps) && LeavesAlone(steps, run, status)
    ensures EndedAs(After(s, steps), run, status) && !BeingExecuted(After(s, steps), run)
    decreases |steps|
  {
    if steps != [] {
      EndedStep(s, steps[0], run, status);
      EndedRun(Apply(s, steps[0]), steps[1..], run, status);
    }
  }

  /** Some continuation that neither resets nor retries the run changes its status. */
  ghost predicate MayChange(s: State, run: Id, status: Status)
  {
    exists steps :: CanRun(s, steps) && LeavesAlone(steps, run, status) && !EndedAs(After(s, steps), run, status)
  }

  /** An ended run - succeeded, infeasible, failed or canceled - keeps its status over every
      continuation that neither resets nor retries it if and only if no worker is executing a
      payload of it. Deliveries of it, however many, execute nothing. */
  lemma EndedStaysIff(s: State, run: Id, status: Status)
    requires EndedAs(s, run, status)
    ensures MayChange(s, run, status) <==> BeingExecuted(s, run)
  {
    if w :| InPhase(s, w, Executing) && WorkerAt(s, w).p.runId == run {
      var other := if status == Failed then Canceled else Failed;
      var step := FinishExecute(w, other);
      Chain(s, step, []);
      assert [step] + [] == [step];
      assert After(Apply(s, step), []).runs[run] == other;
      assert !EndedAs(After(s, [step]), run, status);
    }
    forall steps | CanRun(s, steps) && LeavesAlone(steps, run, status) && !BeingExecuted(s, run)
      ensures EndedAs(After(s, steps), run, status)
    {
      EndedRun(s, steps, run, status);
    }
  }

  // ----- a run that is never enqueued -----

  /** No payload of the run was ever issued. */
  ghost predicate NeverEnqueued(s: State, run: Id) { forall p :: p in s.issued ==> p.runId != run }

  /** The steps that enqueue the run, and the requests that change its status. */
  predicate Concerns(step: Step, run: Id)
  {
    match step
    case Enqueue(r, _) => r == run
    case RequeueStale(r, _) => r == run
    case CancelRun(r) => r == run
    case RetryRun(r) => r == run
    case _ => false
  }

  lemma UnqueuedStep(s: State, step: Step, run: Id, status: Status)
    requires Conserved(s) && NeverEnqueued(s, run) && run in s.runs && s.runs[run] == status
    requires Enabled(s, step) && !Concerns(step, run)
    ensures
      var t := Apply(s, step);
      Conserved(t) && NeverEnqueued(t, run) && run in t.runs && t.runs[run] == status
  {
    StepConserves(s, step);
    if step.FinishExecute? {
      assert WorkerAt(s, step.w).p in s.issued;
    }
  }

  lemma {:induction false} UnqueuedRun(s: State, steps: seq<Step>, run: Id, status: Status)
    requires Conserved(s) && NeverEnqueued(s, run) && run in s.runs && s.runs[run] == status
    requires CanRun(s, steps) && forall i :: 0 <= i < |steps| ==> !Concerns(steps[i], run)
    ensures run in After(s, steps).runs && After(s, steps).runs[run] == status
    decreases |steps|
  {
    if steps != [] {
      UnqueuedStep(s, steps[0], run, status);
      UnqueuedRun(Apply(s, steps[0]), steps[1..], run, status);
    }
  }

  /** A run that is created and never enqueued, canceled or retried keeps the status it was created
      with, whatever the workers do: nothing is executed without a payload. */
  lemma CreatedRunWaits(s: State, run: Id, status: Status, steps: seq<Step>)
    requires Conserved(s) && CanRun(s, [CreateRun(run, status)] + steps)
    requires forall i :: 0 <= i < |steps| ==> !Concerns(steps[i], run)
    ensures
      var t := After(s, [CreateRun(run, status)] + steps);
      run in t.runs && t.runs[run] == status
  {
    var created := CreateRun(run, status);
    assert ([created] + steps)[0] == created && ([created] + steps)[1..] == steps;
    StepConserves(s, created);
    UnqueuedRun(Apply(s, created), steps, run, status);
  }

  // ----- where payloads come from -----

  /** The step enqueues this payload's run for this payload's organization. */
  predicate Asks(step: Step, p: Payload)
  {
    step == Enqueue(p.runId, p.organizationId) || step == RequeueStale(p.runId, p.organizationId)
  }

  /** Every payload that was not there before was asked for, with its run and its organization. */
  lemma {:induction false} IssuedWasAsked(s: State, steps: seq<Step>, p: Payload)
    requires CanRun(s, steps) && p in After(s, steps).issued && p !in s.issued
    ensures exists i :: 0 <= i < |steps| && Asks(steps[i], p)
    decreases |steps|
  {
    if p !in Apply(s, steps[0]).issued {
      IssuedWasAsked(Apply(s, steps[0]), steps[1..], p);
      var i :| 0 <= i < |steps[1..]| && Asks(steps[1..][i], p);
      assert Asks(steps[i + 1], p);
    } else {
      assert Asks(steps[0], p);
    }
  }

  function Count(steps: seq<Step>, wanted: Step -> bool): nat
  {
    if steps == [] then 0 else (if wanted(steps[0]) then 1 else 0) + Count(steps[1..], wanted)
  }

  function Selects(run: Id): Step -> bool { (step: Step) => step == SelectStale(run) }

  function Requeues(run: Id): Step -> bool { (step: Step) => step.RequeueStale? && step.run == run }

  /** The script requeues a run at most once each time it has selected it. */
  lemma {:induction false} RequeuesAreSelected(s: State, steps: seq<Step>, run: Id)
    requires CanRun(s, steps)
    ensures Count(steps, Requeues(run)) + (if run in After(s, steps).selected then 1 else 0)
      <= Count(steps, Selects(run)) + (if run in s.selected then 1 else 0)
    decreases |steps|
  {
    if steps != [] {
      RequeuesAreSelected(Apply(s, steps[0]), steps[1..], run);
    }
  }

  // ----- a cancellation -----

  /** A cancellation that finds nobody executing the run is final: no later delivery, execution
      or retry changes the run, only a reset could. */
  lemma CancellationIsFinal(s: State, run: Id, steps: seq<Step>)
    requires RunIs(s, run, true) && !BeingExecuted(s, run)
    requires CanRun(s, [CancelRun(run)] + steps)
    requires forall i :: 0 <= i < |steps| && steps[i].CommitReset? ==> steps[i].p.runId != run
    ensures
      var t := After(s, [CancelRun(run)] + steps);
      run in t.runs && t.runs[run] == Canceled && !BeingExecuted(t, run)
  {
    var t := Apply(s, CancelRun(run));
    assert ([CancelRun(run)] + steps)[0] == CancelRun(run) && ([CancelRun(run)] + steps)[1..] == steps;
    assert forall w :: WorkerAt(t, w) == WorkerAt(s, w);
    EndedRun(t, steps, run, Canceled);
  }
}
