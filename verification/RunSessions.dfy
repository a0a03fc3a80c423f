/** Sessions that overlap on one run's row. A session reads the committed row, works on its
    copy, and on closing writes the columns it changed. The row is locked from a session's
    first write to its commit, so a whole closing is one step. */
module RunSessions {
  import opened Options
  import opened QueueProtocol
  import opened RunRecord

  /** `failing` holds of a session whose executor raised: it has rolled back and read again. */
  datatype Session = Session(read: Run, op: Operation, failing: bool)

  datatype RowState = RowState(row: Run, open: map<Id, Session>)

  datatype Step = Open(id: Id, op: Operation) | Raise(id: Id) | Close(id: Id)

  /** The executor of this session is going to raise. */
  predicate WillRaise(x: Session)
  {
    x.op.Execute? && x.op.e.Raises? && IsLive(x.read.status) && !x.failing
  }

  predicate Enabled(s: RowState, step: Step)
  {
    match step
    case Open(id, _) => id !in s.open
    case Raise(id) => id in s.open && WillRaise(s.open[id])
    case Close(id) => id in s.open && !WillRaise(s.open[id])
  }

  /** What closing a session leaves in the row, whatever became of the row since it was read. */
  function Written(row: Run, x: Session): Run
  {
    match x.op
    case Execute(e, now, later) =>
      if !x.failing then ExecutedLate(row, x.read, e, now, later)
      else if x.read.status == Canceled then row
      else Flushed(row, x.read, MarkedFailed(x.read, now, later))
    case Retry(now, later) =>
      if x.read.status == Canceled then row
      else
        var next := NextAttempt(x.read, now);
        ExecutedLate(Flushed(row, x.read, next), next, Absent, now, later)
    case Cancel(now) => Flushed(row, x.read, CanceledOrKept(x.read, now))
    case Requeue(staleBefore, now) => Flushed(row, x.read, Requeued(x.read, staleBefore, now))
  }

  function Next(s: RowState, step: Step): RowState
  {
    if !Enabled(s, step) then s
    else
      match step
      case Open(id, op) => s.(open := s.open[id := Session(s.row, op, false)])
      case Raise(id) => s.(open := s.open[id := Session(s.row, s.open[id].op, true)])
      case Close(id) => RowState(Written(s.row, s.open[id]), s.open - {id})
  }

  function After(s: RowState, steps: seq<Step>): RowState
    decreases |steps|
  {
    if steps == [] then s else After(Next(s, steps[0]), steps[1..])
  }

  // ----- sessions that do not overlap -----

  lemma FlushedAlone(r: Run, after: Run)
    ensures Flushed(r, r, after) == after
  {
  }

  lemma WrittenAlone(r: Run, op: Operation)
    requires !WillRaise(Session(r, op, false))
    ensures Written(r, Session(r, op, false)) == Perform(r, op)
  {
    match op {
      case Execute(e, now, later) => ExecutedLateAlone(r, e, now, later);
      case Retry(now, later) =>
        if r.status != Canceled {
          var next := NextAttempt(r, now);
          FlushedAlone(r, next);
          ExecutedLateAlone(next, Absent, now, later);
        }
      case Cancel(now) => FlushedAlone(r, CanceledOrKept(r, now));
      case Requeue(staleBefore, now) => FlushedAlone(r, Requeued(r, staleBefore, now));
    }
  }

  lemma FailedAlone(r: Run, op: Operation)
    requires WillRaise(Session(r, op, false))
    ensures Written(r, Session(r, op, true)) == Perform(r, op)
  {
    FlushedAlone(r, MarkedFailed(r, op.now, op.later));
  }

  /** One session from start to end, alone. */
  function Alone(r: Run, op: Operation): seq<Step>
  {
    if WillRaise(Session(r, op, false)) then [Open(0, op), Raise(0), Close(0)] else [Open(0, op), Close(0)]
  }

  function Serial(r: Run, ops: seq<Operation>): seq<Step>
    decreases |ops|
  {
    if ops == [] then [] else Alone(r, ops[0]) + Serial(Perform(r, ops[0]), ops[1..])
  }

  lemma AfterTwo(s: RowState, a: Step, b: Step, rest: seq<Step>)
    ensures After(s, [a, b] + rest) == After(Next(Next(s, a), b), rest)
  {
    var steps := [a, b] + rest;
    assert steps[1..][1..] == rest && steps[1..][0] == b;
  }

  lemma AfterThree(s: RowState, a: Step, b: Step, c: Step, rest: seq<Step>)
    ensures After(s, [a, b, c] + rest) == After(Next(Next(Next(s, a), b), c), rest)
  {
    AfterTwo(s, a, b, [c] + rest);
    assert [a, b, c] + rest == [a, b] + ([c] + rest);
    assert ([c] + rest)[1..] == rest;
  }

  /** Sessions run one after another do what the operations do in that order. */
  lemma {:induction false} SerialSessions(r: Run, ops: seq<Operation>)
    ensures After(RowState(r, map[]), Serial(r, ops)) == RowState(PerformAll(r, ops), map[])
    decreases |ops|
  {
    if ops != [] {
      var op, s := ops[0], RowState(r, map[]);
      var rest := Serial(Perform(r, op), ops[1..]);
      if WillRaise(Session(r, op, false)) {
        FailedAlone(r, op);
        AfterThree(s, Open(0, op), Raise(0), Close(0), rest);
      } else {
        WrittenAlone(r, op);
        AfterTwo(s, Open(0, op), Close(0), rest);
      }
      SerialSessions(Perform(r, op), ops[1..]);
    }
  }

  // ----- what a late closing writes -----

  /** An execution that closes over a row changed meanwhile writes its status, and of the other
      columns exactly those that the plain execution of what it read would change. */
  lemma LateExecutionMerges(row: Run, x: Session)
    requires x.op.Execute? && !x.failing && !WillRaise(x) && IsLive(x.read.status)
    ensures
      var t, plain := Written(row, x), Perform(x.read, x.op);
      && t.status == plain.status
      && t.attempt == row.attempt && t.canceledAt == row.canceledAt
      && t.solverStatus == (if plain.solverStatus == x.read.solverStatus then row.solverStatus else plain.solverStatus)
      && t.quality == (if plain.quality == x.read.quality then row.quality else plain.quality)
      && t.startedAt == (if x.read.startedAt.Some? then row.startedAt else plain.startedAt)
      && t.finishedAt == (if plain.finishedAt == x.read.finishedAt then row.finishedAt else plain.finishedAt)
  {
  }

  /** A cancellation that closes over a row changed meanwhile cancels it all the same, whatever its
      status has become, and one that read an ended run writes nothing. */
  lemma LateCancellationMarks(row: Run, x: Session)
    requires x.op.Cancel? && x.read.canceledAt != Some(x.op.now) && x.read.updatedAt != x.op.now
    ensures Written(row, x) ==
      if x.read.status in {Queued, Running}
      then row.(status := Canceled, canceledAt := Some(x.op.now), updatedAt := x.op.now) else row
  {
  }

  // ----- what overlapping sessions cannot spoil -----

  /** Fields that are set stay set. */
  predicate Kept(before: Run, after: Run)
  {
    && (before.startedAt.Some? ==> after.startedAt.Some?)
    && (before.finishedAt.Some? ==> after.finishedAt.Some?)
    && (before.solverStatus.Some? ==> after.solverStatus.Some?)
    && (before.canceledAt.Some? ==> after.canceledAt.Some?)
  }

  /** The row is not running; if decided it has both times and a solver status; if canceled, a
      cancellation time. */
  predicate Complete(r: Run)
  {
    && r.status != Running
    && (r.status == Canceled ==> r.canceledAt.Some?)
    && (Decided(r) ==> r.startedAt.Some? && r.finishedAt.Some? && r.solverStatus.Some?)
  }

  predicate Sound(row: Run, x: Session)
  {
    && x.read.status != Running && Kept(x.read, row)
    && (x.op.Execute? ==> WellBehaved(x.op.e))
  }

  ghost predicate AllSound(s: RowState)
  {
    Complete(s.row) && forall id :: id in s.open ==> Sound(s.row, s.open[id])
  }

  lemma RetryIsComplete(row: Run, x: Session)
    requires Complete(row) && Sound(row, x) && x.op.Retry?
    ensures Complete(Written(row, x)) && Kept(row, Written(row, x))
  {
  }

  lemma ExecutionIsComplete(row: Run, x: Session)
    requires Complete(row) && Sound(row, x) && x.op.Execute? && !WillRaise(x)
    ensures Complete(Written(row, x)) && Kept(row, Written(row, x))
  {
  }

  lemma ClosingIsComplete(row: Run, x: Session)
    requires Complete(row) && Sound(row, x) && !WillRaise(x)
    ensures Complete(Written(row, x)) && Kept(row, Written(row, x))
  {
    match x.op {
      case Retry(_, _) => RetryIsComplete(row, x);
      case Execute(_, _, _) => ExecutionIsComplete(row, x);
      case _ =>
    }
  }

  lemma StepKeepsSound(s: RowState, step: Step)
    requires AllSound(s) && (step.Open? && step.op.Execute? ==> WellBehaved(step.op.e))
    ensures AllSound(Next(s, step))
  {
    if Enabled(s, step) && step.Close? {
      ClosingIsComplete(s.row, s.open[step.id]);
    }
  }

  /** Over every interleaving of sessions whose executors neither put the run back in the queue
      nor cancel it: the row is never left running, and a decided or canceled row has its times. */
  lemma {:induction false} OverlapKeepsComplete(s: RowState, steps: seq<Step>)
    requires AllSound(s)
    requires forall i :: 0 <= i < |steps| && steps[i].Open? && steps[i].op.Execute? ==> WellBehaved(steps[i].op.e)
    ensures AllSound(After(s, steps))
    decreases |steps|
  {
    if steps != [] {
      StepKeepsSound(s, steps[0]);
      OverlapKeepsComplete(Next(s, steps[0]), steps[1..]);
    }
  }

  // ----- a cancellation -----

  /** Closing this session leaves a canceled row canceled. */
  predicate Harmless(x: Session)
  {
    match x.op
    case Execute(e, _, _) =>
      if x.failing then x.read.status in {Canceled, Failed}
      else !IsLive(x.read.status) || e.Raises? || (e.Leaves? && e.status == Canceled)
    case Retry(_, _) => x.read.status == Canceled
    case Cancel(_) => true
    case Requeue(staleBefore, _) => !Stale(x.read, staleBefore)
  }

  ghost predicate AllHarmless(s: RowState)
  {
    s.row.status == Canceled && forall id :: id in s.open ==> Harmless(s.open[id])
  }

  lemma ClosingCanceled(row: Run, x: Session)
    requires row.status == Canceled && !WillRaise(x)
    ensures Written(row, x).status == Canceled <==> Harmless(x)
  {
  }

  lemma StepKeepsHarmless(s: RowState, step: Step)
    requires AllHarmless(s)
    ensures AllHarmless(Next(s, step))
  {
    if Enabled(s, step) && step.Close? {
      ClosingCanceled(s.row, s.open[step.id]);
    }
  }

  lemma {:induction false} HarmlessStaysCanceled(s: RowState, steps: seq<Step>)
    requires AllHarmless(s)
    ensures After(s, steps).row.status == Canceled
    decreases |steps|
  {
    if steps != [] {
      StepKeepsHarmless(s, steps[0]);
      HarmlessStaysCanceled(Next(s, steps[0]), steps[1..]);
    }
  }

  lemma AfterOne(s: RowState, step: Step)
    ensures After(s, [step]) == Next(s, step)
  {
    assert [step][1..] == [];
  }

  /** A canceled row stays canceled whatever comes if and only if no session under way holds a
      copy it is going to write over the cancellation. */
  lemma CancellationLastsIff(s: RowState)
    requires s.row.status == Canceled
    ensures (forall steps :: After(s, steps).row.status == Canceled) <==>
      forall id :: id in s.open ==> Harmless(s.open[id])
  {
    if forall id :: id in s.open ==> Harmless(s.open[id]) {
      forall steps ensures After(s, steps).row.status == Canceled {
        HarmlessStaysCanceled(s, steps);
      }
    } else {
      var id :| id in s.open && !Harmless(s.open[id]);
      ClosingCanceled(s.row, s.open[id]);
      AfterOne(s, Close(id));
    }
  }

  // ----- the attempt number -----

  predicate LeavesAttempt(x: Session, attempt: int)
  {
    x.op.Retry? && x.read.status != Canceled ==> attempt <= x.read.attempt + 1
  }

  ghost predicate AllLeaveAttempt(s: RowState, attempt: int)
  {
    attempt <= s.row.attempt && forall id :: id in s.open ==> LeavesAttempt(s.open[id], attempt)
  }

  lemma ClosingAttempt(row: Run, x: Session)
    ensures Written(row, x).attempt
      == if x.op.Retry? && x.read.status != Canceled then x.read.attempt + 1 else row.attempt
  {
  }

  lemma {:induction false} AttemptStays(s: RowState, steps: seq<Step>, attempt: int)
    requires AllLeaveAttempt(s, attempt)
    ensures attempt <= After(s, steps).row.attempt
    decreases |steps|
  {
    if steps != [] {
      if Enabled(s, steps[0]) && steps[0].Close? {
        ClosingAttempt(s.row, s.open[steps[0].id]);
      }
      AttemptStays(Next(s, steps[0]), steps[1..], attempt);
    }
  }

  /** The attempt number never falls below what it is now if and only if no retry under way
      read a number two or more below it. */
  lemma AttemptLastsIff(s: RowState)
    ensures (forall steps :: s.row.attempt <= After(s, steps).row.attempt) <==>
      forall id :: id in s.open && s.open[id].op.Retry? && s.open[id].read.status != Canceled ==>
        s.row.attempt <= s.open[id].read.attempt + 1
  {
    if AllLeaveAttempt(s, s.row.attempt) {
      forall steps ensures s.row.attempt <= After(s, steps).row.attempt {
        AttemptStays(s, steps, s.row.attempt);
      }
    } else {
      var id :| id in s.open && !LeavesAttempt(s.open[id], s.row.attempt);
      ClosingAttempt(s.row, s.open[id]);
      AfterOne(s, Close(id));
    }
  }
}
