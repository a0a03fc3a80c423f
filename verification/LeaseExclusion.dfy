/** Leases as a mutual exclusion device: when a dequeue's move and lease write are one step,
    executions end within the lease, and a recovering worker takes a payload out only while
    its lease is still recoverable, no two live workers ever hold an unacknowledged delivery
    of one payload. */
module LeaseExclusion {
  import opened Options
  import opened RedisQueue
  import opened QueueProtocol
  import opened QueueHazards
  import opened QueueResets

  datatype LeasedStep = Deliver(w: Id) | Other(step: Step)

  /** Between a delivery and the removal that acknowledges it. */
  predicate Unacked(s: State, w: Id)
  {
    WorkerAt(s, w).Delivery? && WorkerAt(s, w).phase in {Ready, Executing, Done}
  }

  predicate Possible(s: State, step: LeasedStep)
  {
    match step
    case Deliver(w) => Enabled(s, Move(w))
    case Other(x) => Enabled(s, x) && !x.Move? && !x.WriteLease? && !x.WriteOwner?
  }

  function Take(s: State, step: LeasedStep): State
    requires Possible(s, step)
  {
    match step
    case Deliver(w) => Apply(Apply(Apply(s, Move(w)), WriteLease(w)), WriteOwner(w))
    case Other(x) => Apply(s, x)
  }

  /** Move and lease in one step are the queue's whole dequeue. */
  lemma DeliverIsDequeue(s: State, w: Id)
    requires Possible(s, Deliver(w))
    ensures Take(s, Deliver(w)).store == Dequeued(s.store, s.clock, w)
    ensures WorkerAt(Take(s, Deliver(w)), w) == Delivery(s.store.main[|s.store.main| - 1], s.clock, Ready)
  {
  }

  /** Time never passes beyond the lease of an execution that is still going on. */
  ghost predicate EndsWithinLease(s: State, step: LeasedStep)
  {
    step.Other? && step.step.Tick? ==>
      forall w :: Unacked(s, w) ==> s.clock + step.step.seconds - WorkerAt(s, w).since < s.leaseSeconds
  }

  /** A payload is taken out of processing only while its lease is still recoverable. */
  predicate StillRecoverable(s: State, step: LeasedStep)
  {
    step.Other? && step.step.TakeOut? && WorkerAt(s, step.step.w).Checked? ==>
      Recoverable(s.store, WorkerAt(s, step.step.w).p, WorkerAt(s, step.step.w).now, s.leaseSeconds)
  }

  ghost predicate Disciplined(s: State, step: LeasedStep)
  {
    Possible(s, step) && EndsWithinLease(s, step) && StillRecoverable(s, step)
  }

  // ----- the invariant -----

  /** A delivery's payload sits in processing under the lease of that delivery. */
  predicate Guarded(s: State, w: Id)
  {
    var d := WorkerAt(s, w);
    d.Delivery? ==>
      && d.p in s.store.processing
      && d.p in s.store.leases && s.store.leases[d.p] == At(d.since)
      && s.clock - d.since < s.leaseSeconds
  }

  predicate ScanTime(s: State, w: Id)
  {
    var x := WorkerAt(s, w);
    (x.Scanning? || x.Checked? || x.Holding?) ==> x.now <= s.clock
  }

  predicate AckedTail(s: State, w: Id)
  {
    var d := WorkerAt(s, w);
    && (d.Delivery? ==> d.phase !in {Moved, Leased})
    && (d.Delivery? && d.phase in {Removed, Unleased} ==> d.p in s.acked)
  }

  ghost predicate Exclusive(s: State)
  {
    forall v, w :: Unacked(s, v) && Unacked(s, w) && WorkerAt(s, v).p == WorkerAt(s, w).p ==> v == w
  }

  ghost predicate Protected(s: State)
  {
    && Conserved(s)
    && 0 < s.leaseSeconds
    && Exclusive(s)
    && (forall w :: Unacked(s, w) ==> Guarded(s, w))
    && (forall w :: ScanTime(s, w))
    && (forall w :: AckedTail(s, w))
  }

  lemma TakeConserves(s: State, step: LeasedStep)
    requires Conserved(s) && Possible(s, step)
    ensures Conserved(Take(s, step))
  {
    match step {
      case Deliver(w) =>
        StepConserves(s, Move(w));
        StepConserves(Apply(s, Move(w)), WriteLease(w));
        StepConserves(Apply(Apply(s, Move(w)), WriteLease(w)), WriteOwner(w));
      case Other(x) => StepConserves(s, x);
    }
  }

  lemma DeliverProtects(s: State, w: Id)
    requires Protected(s) && Possible(s, Deliver(w))
    ensures Protected(Take(s, Deliver(w)))
  {
    var t := Take(s, Deliver(w));
    var p := s.store.main[|s.store.main| - 1];
    TakeConserves(s, Deliver(w));
    assert p in s.store.main && p !in s.store.processing;
    assert WorkerAt(t, w) == Delivery(p, s.clock, Ready);
    assert t.workers == s.workers[w := WorkerAt(t, w)];
    OthersUnchanged(s, t, w);
    forall v | Unacked(t, v) ensures Guarded(t, v) {
      if v != w {
        assert Unacked(s, v) && Guarded(s, v);
        assert WorkerAt(s, v).p != p;
      }
    }
    forall v | Unacked(t, v) && v != w ensures WorkerAt(t, v).p != p {
      assert Unacked(s, v) && Guarded(s, v);
    }
    forall v ensures ScanTime(t, v) && AckedTail(t, v) {
      assert ScanTime(s, v) && AckedTail(s, v);
    }
  }

  /** Nobody live holds a delivery of a payload whose lease is recoverable. */
  lemma RecoverableIsFree(s: State, w: Id, v: Id)
    requires Protected(s) && WorkerAt(s, w).Checked? && Unacked(s, v)
    requires Recoverable(s.store, WorkerAt(s, w).p, WorkerAt(s, w).now, s.leaseSeconds)
    ensures WorkerAt(s, v).p != WorkerAt(s, w).p
  {
    assert Guarded(s, v) && ScanTime(s, w);
  }

  lemma TakeOutProtects(s: State, w: Id)
    requires Protected(s) && Enabled(s, TakeOut(w))
    requires forall v :: Unacked(s, v) ==> WorkerAt(s, v).p != WorkerAt(s, w).p
    ensures Protected(Apply(s, TakeOut(w)))
  {
    var t := Apply(s, TakeOut(w));
    StepConserves(s, TakeOut(w));
    OthersUnchanged(s, t, w);
    RemoveFirstMembers(s.store.processing, WorkerAt(s, w).p);
    forall v | Unacked(t, v) ensures Guarded(t, v) {
      assert v != w && Unacked(s, v) && Guarded(s, v);
    }
    forall v ensures ScanTime(t, v) && AckedTail(t, v) {
      assert ScanTime(s, v) && AckedTail(s, v);
    }
  }

  lemma AckRemoveProtects(s: State, w: Id)
    requires Protected(s) && Enabled(s, AckRemove(w))
    ensures Protected(Apply(s, AckRemove(w)))
  {
    var t := Apply(s, AckRemove(w));
    var p := WorkerAt(s, w).p;
    StepConserves(s, AckRemove(w));
    OthersUnchanged(s, t, w);
    RemoveFirstMembers(s.store.processing, p);
    assert Unacked(s, w) && Guarded(s, w);
    forall v | Unacked(t, v) ensures Guarded(t, v) {
      assert v != w && Unacked(s, v) && Guarded(s, v);
      assert WorkerAt(s, v).p != p;
    }
    forall v ensures ScanTime(t, v) && AckedTail(t, v) {
      assert ScanTime(s, v) && AckedTail(s, v);
    }
  }

  /** Clearing the lease of a payload that is not in processing disturbs nobody. */
  lemma ClearingProtects(s: State, step: Step)
    requires Protected(s) && Enabled(s, step)
    requires step.AckUnlease? || step.AckUnown? || step.ClearLease? || step.ClearOwner? || step.PushBack?
    ensures Protected(Apply(s, step))
  {
    var t := Apply(s, step);
    var w := step.w;
    var p := WorkerAt(s, w).p;
    StepConserves(s, step);
    OthersUnchanged(s, t, w);
    assert p !in s.store.processing by {
      assert AckedTail(s, w);
      if WorkerAt(s, w).Holding? {
        assert Holds(s, w, p);
      } else {
        assert !Present(s, p);
      }
    }
    forall v | Unacked(t, v) ensures Guarded(t, v) {
      assert v != w && Unacked(s, v) && Guarded(s, v);
    }
    forall v ensures ScanTime(t, v) && AckedTail(t, v) {
      assert ScanTime(s, v) && AckedTail(s, v);
    }
  }

  /** A worker's steps that leave the lists and leases alone. */
  lemma WorkerOnlyProtects(s: State, step: Step)
    requires Protected(s) && Enabled(s, step)
    requires step.BeginExecute? || step.FinishExecute? || step.StartRecovery? || step.Inspect?
      || step.EndRecovery? || step.Crash?
    ensures Protected(Apply(s, step))
  {
    var t := Apply(s, step);
    StepConserves(s, step);
    OthersUnchanged(s, t, step.w);
    forall v | Unacked(t, v) ensures Unacked(s, v) && Guarded(t, v) && WorkerAt(t, v).p == WorkerAt(s, v).p {
      assert Unacked(s, v) && Guarded(s, v);
    }
    forall v ensures ScanTime(t, v) && AckedTail(t, v) {
      assert ScanTime(s, v) && AckedTail(s, v);
    }
  }

  lemma OutsideProtects(s: State, step: Step)
    requires Protected(s) && Disciplined(s, Other(step))
    requires step.CreateRun? || step.Enqueue? || step.Tick? || step.CancelRun? || step.RetryRun?
      || step.SelectStale? || step.RequeueStale? || step.CommitReset?
    ensures Protected(Apply(s, step))
  {
    var t := Apply(s, step);
    StepConserves(s, step);
    forall v ensures WorkerAt(t, v) == WorkerAt(s, v) {}
    forall v | Unacked(t, v) ensures Guarded(t, v) {
      assert Unacked(s, v) && Guarded(s, v);
    }
    forall v ensures ScanTime(t, v) && AckedTail(t, v) {
      assert ScanTime(s, v) && AckedTail(s, v);
    }
    forall v, w | Unacked(t, v) && Unacked(t, w) && WorkerAt(t, v).p == WorkerAt(t, w).p ensures v == w {
      assert Unacked(s, v) && Unacked(s, w);
    }
  }

  lemma StepProtects(s: State, step: LeasedStep)
    requires Protected(s) && Disciplined(s, step)
    ensures Protected(Take(s, step))
  {
    if step.Deliver? {
      DeliverProtects(s, step.w);
    } else {
      var x := step.step;
      if x.TakeOut? {
        forall v | Unacked(s, v) ensures WorkerAt(s, v).p != WorkerAt(s, x.w).p {
          RecoverableIsFree(s, x.w, v);
        }
        TakeOutProtects(s, x.w);
      } else if x.AckRemove? {
        AckRemoveProtects(s, x.w);
      } else if x.AckUnlease? || x.AckUnown? || x.ClearLease? || x.ClearOwner? || x.PushBack? {
        ClearingProtects(s, x);
      } else if x.BeginExecute? || x.FinishExecute? || x.StartRecovery? || x.Inspect? || x.EndRecovery? || x.Crash? {
        WorkerOnlyProtects(s, x);
      } else {
        OutsideProtects(s, x);
      }
    }
  }

  // ----- whole runs -----

  ghost predicate DisciplinedRun(s: State, steps: seq<LeasedStep>)
    decreases |steps|
  {
    steps == [] || (Disciplined(s, steps[0]) && DisciplinedRun(Take(s, steps[0]), steps[1..]))
  }

  ghost function EndOf(s: State, steps: seq<LeasedStep>): State
    requires DisciplinedRun(s, steps)
    decreases |steps|
  {
    if steps == [] then s else EndOf(Take(s, steps[0]), steps[1..])
  }

  lemma {:induction false} RunProtects(s: State, steps: seq<LeasedStep>)
    requires Protected(s) && DisciplinedRun(s, steps)
    ensures Protected(EndOf(s, steps))
    decreases |steps|
  {
    if steps != [] {
      StepProtects(s, steps[0]);
      RunProtects(Take(s, steps[0]), steps[1..]);
    }
  }

  /** Over every disciplined interleaving, two workers never hold unacknowledged deliveries
      of one payload, and the one that does still owns the lease. */
  lemma LeasesExclude(s: State, steps: seq<LeasedStep>, v: Id, w: Id)
    requires Initial(s) && 0 < s.leaseSeconds && DisciplinedRun(s, steps)
    requires Unacked(EndOf(s, steps), v) && Unacked(EndOf(s, steps), w)
    requires WorkerAt(EndOf(s, steps), v).p == WorkerAt(EndOf(s, steps), w).p
    ensures v == w
    ensures
      var t := EndOf(s, steps);
      var p := WorkerAt(t, w).p;
      p in t.store.processing && !Recoverable(t.store, p, t.clock, t.leaseSeconds)
  {
    InitialConserved(s);
    RunProtects(s, steps);
    assert Guarded(EndOf(s, steps), w);
  }

  // ----- the third condition is needed -----

  /** Some disciplined continuation has two live workers hold one payload, unacknowledged. */
  ghost predicate MayBreakExclusion(s: State)
  {
    exists steps :: DisciplinedRun(s, steps) && !Exclusive(EndOf(s, steps))
  }

  ghost predicate HeldLive(s: State, p: Payload) { exists v :: Unacked(s, v) && WorkerAt(s, v).p == p }

  lemma LeasedChain(s: State, step: LeasedStep, rest: seq<LeasedStep>)
    requires Disciplined(s, step) && DisciplinedRun(Take(s, step), rest)
    ensures DisciplinedRun(s, [step] + rest) && EndOf(s, [step] + rest) == EndOf(Take(s, step), rest)
  {
    assert ([step] + rest)[1..] == rest;
  }

  /** Clearing, pushing back and a delivery to an idle worker, from a payload just taken out. */
  lemma PushBackAndDeliver(s: State, w: Id, x: Id) returns (steps: seq<LeasedStep>)
    requires InHold(s, w, TakenOut) && WorkerAt(s, x).Idle? && x != w
    ensures DisciplinedRun(s, steps)
    ensures WorkerAt(EndOf(s, steps), x) == Delivery(WorkerAt(s, w).p, s.clock, Ready)
    ensures forall v :: v != w && v != x ==> WorkerAt(EndOf(s, steps), v) == WorkerAt(s, v)
  {
    var s1 := Apply(s, ClearLease(w));
    var s2 := Apply(s1, ClearOwner(w));
    var s3 := Apply(s2, PushBack(w));
    assert s3.store.main[|s3.store.main| - 1] == WorkerAt(s, w).p;
    LeasedChain(s3, Deliver(x), []);
    LeasedChain(s2, Other(PushBack(w)), [Deliver(x)] + []);
    LeasedChain(s1, Other(ClearOwner(w)), [Other(PushBack(w))] + ([Deliver(x)] + []));
    steps := [Other(ClearOwner(w))] + ([Other(PushBack(w))] + ([Deliver(x)] + []));
    LeasedChain(s, Other(ClearLease(w)), steps);
    steps := [Other(ClearLease(w))] + steps;
  }

  lemma HeldBreaks(s: State, w: Id, v: Id)
    requires Protected(s) && Enabled(s, TakeOut(w)) && Unacked(s, v) && WorkerAt(s, v).p == WorkerAt(s, w).p
    ensures MayBreakExclusion(Apply(s, TakeOut(w)))
  {
    var t := Apply(s, TakeOut(w));
    assert Guarded(s, v);
    OthersUnchanged(s, t, w);
    var x := FreshId(t.workers.Keys);
    assert x !in t.workers && w in t.workers && v in t.workers;
    var steps := PushBackAndDeliver(t, w, x);
    var end := EndOf(t, steps);
    assert WorkerAt(end, v) == WorkerAt(s, v);
    assert Unacked(end, v) && Unacked(end, x) && WorkerAt(end, v).p == WorkerAt(end, x).p;
  }

  lemma ProtectedCannotBreak(s: State)
    requires Protected(s)
    ensures !MayBreakExclusion(s)
  {
    forall steps | DisciplinedRun(s, steps) ensures Exclusive(EndOf(s, steps)) {
      RunProtects(s, steps);
    }
  }

  /** Taking a payload out of processing can lead to two live workers holding it, by steps that
      are all disciplined from there on, exactly when a live worker has an unacknowledged
      delivery of it. The program does not look again before it removes. */
  lemma TakeOutBreaksIff(s: State, w: Id)
    requires Protected(s) && Enabled(s, TakeOut(w))
    ensures MayBreakExclusion(Apply(s, TakeOut(w))) <==> HeldLive(s, WorkerAt(s, w).p)
  {
    if HeldLive(s, WorkerAt(s, w).p) {
      var v :| Unacked(s, v) && WorkerAt(s, v).p == WorkerAt(s, w).p;
      HeldBreaks(s, w, v);
    } else {
      TakeOutProtects(s, w);
      ProtectedCannotBreak(Apply(s, TakeOut(w)));
    }
  }

  /** Two recovering workers both find a crashed delivery recoverable. The first re-queues it
      and a third worker is delivered it; the second, going by what it saw, takes that
      delivery out and re-queues it too; a fourth worker is delivered it as well. */
  lemma ConcurrentRecoveriesBreakExclusion(s: State) returns (steps: seq<Step>)
    requires Initial(s) && s.leaseSeconds == 10 && s.clock == 0
    ensures CanRun(s, steps)
    ensures
      var t := After(s, steps);
      && Unacked(t, 4) && Unacked(t, 5) && WorkerAt(t, 4).p == WorkerAt(t, 5).p
      && t.clock - WorkerAt(t, 4).since < t.leaseSeconds
  {
    var p := Payload(0, 1, None);
    var s1 := Apply(s, Enqueue(1, None));
    assert s1.store.main == [p];
    var s2, a := DeliverOne(s1, p, 1);
    var s3, b := CrashAndExpire(s2, p);
    var s4, c := BothInspect(s3, p);
    var s5, d := RecoverThenDeliver(s4, p, 2, 4);
    var s6, e := RecoverThenDeliver(s5, p, 3, 5);
    RunConcat(s5, e, []);
    RunConcat(s4, d, e);
    RunConcat(s3, c, d + e);
    RunConcat(s2, b, c + (d + e));
    RunConcat(s1, a, b + (c + (d + e)));
    Chain(s, Enqueue(1, None), a + (b + (c + (d + e))));
    steps := [Enqueue(1, None)] + (a + (b + (c + (d + e))));
  }

  lemma CrashAndExpire(s: State, p: Payload) returns (t: State, steps: seq<Step>)
    requires s.store.processing == [p] && s.clock == 0 && WorkerAt(s, 1).Delivery?
    requires WorkerAt(s, 2).Idle? && WorkerAt(s, 3).Idle?
    ensures Reaches(s, steps, t)
    ensures t == s.(workers := t.workers, clock := 10)
    ensures WorkerAt(t, 2) == Scanning([p], 10) && WorkerAt(t, 3).Idle?
    ensures forall v :: v > 3 ==> WorkerAt(t, v) == WorkerAt(s, v)
  {
    steps := [Crash(1), Tick(10), StartRecovery(2, 1)];
    ThreeSteps(s, Crash(1), Tick(10), StartRecovery(2, 1));
    t := Apply(Apply(Apply(s, Crash(1)), Tick(10)), StartRecovery(2, 1));
  }

  lemma BothInspect(s: State, p: Payload) returns (t: State, steps: seq<Step>)
    requires s.store.processing == [p] && s.clock == 10
    requires WorkerAt(s, 2) == Scanning([p], 10) && WorkerAt(s, 3).Idle?
    requires Recoverable(s.store, p, 10, s.leaseSeconds)
    ensures Reaches(s, steps, t)
    ensures t == s.(workers := t.workers)
    ensures WorkerAt(t, 2) == Checked(p, [], 10) && WorkerAt(t, 3) == Checked(p, [], 10)
    ensures forall v :: v > 3 ==> WorkerAt(t, v) == WorkerAt(s, v)
  {
    steps := [StartRecovery(3, 1), Inspect(2), Inspect(3)];
    ThreeSteps(s, StartRecovery(3, 1), Inspect(2), Inspect(3));
    t := Apply(Apply(Apply(s, StartRecovery(3, 1)), Inspect(2)), Inspect(3));
  }

  lemma TakeOutAndClear(s: State, p: Payload, w: Id) returns (t: State, steps: seq<Step>)
    requires s.store.main == [] && s.store.processing == [p]
    requires WorkerAt(s, w) == Checked(p, [], 10)
    ensures Reaches(s, steps, t)
    ensures t.store.main == [] && t.store.processing == []
    ensures t.workers == s.workers[w := Holding(p, [], 10, OwnerCleared)]
    ensures t.clock == s.clock && t.leaseSeconds == s.leaseSeconds
  {
    steps := [TakeOut(w), ClearLease(w), ClearOwner(w)];
    ThreeSteps(s, TakeOut(w), ClearLease(w), ClearOwner(w));
    t := Apply(Apply(Apply(s, TakeOut(w)), ClearLease(w)), ClearOwner(w));
  }

  lemma OneStep(s: State, step: Step)
    requires Enabled(s, step)
    ensures Reaches(s, [step], Apply(s, step))
  {
    Chain(s, step, []);
    assert [step] + [] == [step];
  }

  /** Worker `w`, having checked `p`, takes it out and pushes it back. */
  lemma FinishRecovery(s: State, p: Payload, w: Id) returns (t: State, steps: seq<Step>)
    requires s.store.main == [] && s.store.processing == [p]
    requires WorkerAt(s, w) == Checked(p, [], 10)
    ensures Reaches(s, steps, t)
    ensures t.store.main == [p] && t.store.processing == []
    ensures forall x :: x != w ==> WorkerAt(t, x) == WorkerAt(s, x)
    ensures t.clock == s.clock && t.leaseSeconds == s.leaseSeconds
  {
    var s1, first := TakeOutAndClear(s, p, w);
    OneStep(s1, PushBack(w));
    t := Apply(s1, PushBack(w));
    RunConcat(s, first, [PushBack(w)]);
    steps := first + [PushBack(w)];
  }

  /** Worker `w`, having checked `p`, re-queues it, and worker `v` is delivered it. */
  lemma RecoverThenDeliver(s: State, p: Payload, w: Id, v: Id) returns (t: State, steps: seq<Step>)
    requires s.store.main == [] && s.store.processing == [p] && v != w
    requires WorkerAt(s, w) == Checked(p, [], 10) && WorkerAt(s, v).Idle?
    ensures Reaches(s, steps, t)
    ensures t.store.main == [] && t.store.processing == [p]
    ensures WorkerAt(t, v) == Delivery(p, s.clock, Ready)
    ensures forall x :: x != w && x != v ==> WorkerAt(t, x) == WorkerAt(s, x)
    ensures t.clock == s.clock && t.leaseSeconds == s.leaseSeconds
  {
    var s1, first := FinishRecovery(s, p, w);
    var rest;
    t, rest := DeliverOne(s1, p, v);
    RunConcat(s, first, rest);
    steps := first + rest;
  }
}
