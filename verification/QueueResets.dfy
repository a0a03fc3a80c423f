/** Exactly when the requeue script's reset may be committed, in a database that does store
    running rows. */
module QueueResets {
  import opened Options
  import opened Sequences
  import opened RedisQueue
  import opened QueueProtocol
  import opened QueueHazards

  /** Some worker has ended its execution of the payload and has yet to acknowledge it. */
  ghost predicate AboutToAck(s: State, p: Payload)
  {
    exists w :: InPhase(s, w, Done) && WorkerAt(s, w).p == p
  }

  ghost predicate Waiting(s: State, p: Payload) { Present(s, p) && !AboutToAck(s, p) }

  ghost predicate WorkWaiting(s: State, run: Id) { exists p :: Waiting(s, p) && p.runId == run }

  ghost predicate Served(s: State)
  {
    forall run :: RunIs(s, run, true) && Enqueued(s, run) ==> WorkWaiting(s, run)
  }

  /** The guard: the stored status is still live, or a payload of the run waits. */
  ghost predicate MayReset(s: State, run: Id) { RunIs(s, run, true) || WorkWaiting(s, run) }

  ghost predicate GuardedStep(s: State, step: Step) { step.CommitReset? ==> MayReset(s, step.p.runId) }

  // ----- guarded resets keep every run served -----

  lemma OldAcksAfter(s: State, step: Step, p: Payload)
    requires Enabled(s, step) && AboutToAck(Apply(s, step), p)
    ensures AboutToAck(s, p) || !RunIs(Apply(s, step), p.runId, true)
  {
    var t := Apply(s, step);
    var w :| InPhase(t, w, Done) && WorkerAt(t, w).p == p;
    assert InPhase(s, w, Done) ==> AboutToAck(s, WorkerAt(s, w).p);
  }

  lemma WaitingStays(s: State, step: Step, p: Payload)
    requires Conserved(s) && Enabled(s, step) && Waiting(s, p) && RunIs(Apply(s, step), p.runId, true)
    ensures Waiting(Apply(s, step), p)
  {
    StepConserves(s, step);
    assert p in s.issued && p !in s.acked;
    if step.AckRemove? {
      assert AboutToAck(s, WorkerAt(s, step.w).p);
    }
    assert p in Apply(s, step).issued && p !in Apply(s, step).acked;
    if AboutToAck(Apply(s, step), p) {
      OldAcksAfter(s, step, p);
    }
  }

  lemma IssuedWaits(s: State, step: Step)
    requires Conserved(s) && Enabled(s, step) && (step.Enqueue? || step.RequeueStale?)
    ensures WorkWaiting(Apply(s, step), step.run)
  {
    var t, p := Apply(s, step), Payload(s.nextJobId, step.run, step.organizationId);
    assert p in t.store.main;
    forall w | InPhase(t, w, Done) ensures WorkerAt(t, w).p != p {
      assert WorkerAt(s, w) == WorkerAt(t, w);
    }
    assert Waiting(t, p);
  }

  lemma StepKeepsServed(s: State, step: Step)
    requires Conserved(s) && Served(s) && Enabled(s, step) && GuardedStep(s, step)
    ensures Served(Apply(s, step))
  {
    var t := Apply(s, step);
    forall run | RunIs(t, run, true) && Enqueued(t, run) ensures WorkWaiting(t, run) {
      if (step.Enqueue? || step.RequeueStale?) && step.run == run {
        IssuedWaits(s, step);
      } else {
        WasServed(s, step, run);
        var p :| Waiting(s, p) && p.runId == run;
        WaitingStays(s, step, p);
      }
    }
  }

  lemma WasServed(s: State, step: Step, run: Id)
    requires Conserved(s) && Served(s) && Enabled(s, step) && GuardedStep(s, step)
    requires RunIs(Apply(s, step), run, true) && Enqueued(Apply(s, step), run)
    requires !((step.Enqueue? || step.RequeueStale?) && step.run == run)
    ensures WorkWaiting(s, run)
  {
    var x :| x in Apply(s, step).issued && x.runId == run;
    assert x in s.issued;
    assert Enqueued(s, run);
  }

  ghost predicate AllGuarded(s: State, steps: seq<Step>)
    requires CanRun(s, steps)
    decreases |steps|
  {
    steps == [] || (GuardedStep(s, steps[0]) && AllGuarded(Apply(s, steps[0]), steps[1..]))
  }

  lemma {:induction false} RunKeepsServed(s: State, steps: seq<Step>)
    requires Conserved(s) && Served(s) && CanRun(s, steps) && AllGuarded(s, steps)
    ensures Conserved(After(s, steps)) && Served(After(s, steps))
    decreases |steps|
  {
    if steps != [] {
      StepConserves(s, steps[0]);
      StepKeepsServed(s, steps[0]);
      RunKeepsServed(Apply(s, steps[0]), steps[1..]);
    }
  }

  /** Over every interleaving, running rows included, whose resets obey the guard, each
      enqueued run that is queued or running has a payload somewhere that no worker is about
      to acknowledge. */
  lemma GuardedResetsStrandNobody(s: State, steps: seq<Step>, run: Id)
    requires Initial(s) && CanRun(s, steps) && AllGuarded(s, steps)
    requires RunIs(After(s, steps), run, true) && Enqueued(After(s, steps), run)
    ensures WorkWaiting(After(s, steps), run)
  {
    InitialConserved(s);
    RunKeepsServed(s, steps);
  }

  // ----- without the guard, the run can be stranded -----

  /** The run is to be executed, and no payload of it is anywhere. */
  ghost predicate Stranded(s: State, run: Id)
  {
    RunIs(s, run, true) && Enqueued(s, run) && forall p :: Present(s, p) ==> p.runId != run
  }

  predicate NoReset(steps: seq<Step>) { forall i :: 0 <= i < |steps| ==> !steps[i].CommitReset? }

  lemma FreshId(ids: set<Id>) returns (v: Id)
    ensures forall i :: i in ids ==> i < v
    decreases |ids|
  {
    v := 0;
    if i :| i in ids {
      var u := FreshId(ids - {i});
      v := if u <= i then i + 1 else u;
      forall k | k in ids ensures k < v {
        assert k == i || k in ids - {i};
      }
    }
  }

  /** Whatever is left of the run is about to be acknowledged. */
  ghost predicate AllAboutToAck(s: State, run: Id)
  {
    forall p :: Present(s, p) && p.runId == run ==> AboutToAck(s, p)
  }

  /** The recovering workers that hold a payload of the run. */
  ghost function Holders(s: State, run: Id): set<Id>
  {
    set w | w in s.workers && WorkerAt(s, w).Holding? && WorkerAt(s, w).p.runId == run
  }

  /** `t` follows `s` by steps that neither reset nor change runs or issue anything. */
  ghost predicate Drifts(s: State, steps: seq<Step>, t: State)
  {
    Reaches(s, steps, t) && NoReset(steps) && t.runs == s.runs && t.issued == s.issued
  }

  lemma DriftsOn(s: State, a: seq<Step>, t: State, b: seq<Step>, u: State)
    requires Drifts(s, a, t) && Drifts(t, b, u)
    ensures Drifts(s, a + b, u)
  {
    RunConcat(s, a, b);
  }

  lemma OneDrift(s: State, step: Step)
    requires Enabled(s, step) && !step.CommitReset?
    requires Apply(s, step).runs == s.runs && Apply(s, step).issued == s.issued
    ensures Drifts(s, [step], Apply(s, step))
  {
    Chain(s, step, []);
    assert [step] + [] == [step];
  }

  ghost predicate Doomed(s: State, run: Id) { Conserved(s) && AllAboutToAck(s, run) }

  /** Steps of workers that are not about to acknowledge leave those that are alone. */
  lemma KeepsDoomed(s: State, step: Step, run: Id)
    requires Doomed(s, run) && Enabled(s, step)
    requires step.ClearLease? || step.ClearOwner? || step.PushBack? || step.Move? || step.Crash?
    requires !InPhase(s, step.w, Done)
    ensures Doomed(Apply(s, step), run)
  {
    var t := Apply(s, step);
    StepConserves(s, step);
    OthersUnchanged(s, t, step.w);
    forall p | Present(t, p) && p.runId == run ensures AboutToAck(t, p) {
      assert p in t.issued && p !in t.acked;
      assert Present(s, p);
      var w :| InPhase(s, w, Done) && WorkerAt(s, w).p == p;
      assert w != step.w;
      assert InPhase(t, w, Done) && WorkerAt(t, w).p == p;
    }
  }

  /** A holding worker clears what is left to clear and pushes its payload back. */
  lemma FinishHold(s: State, w: Id, run: Id) returns (t: State, steps: seq<Step>)
    requires Doomed(s, run) && WorkerAt(s, w).Holding?
    ensures Drifts(s, steps, t) && Doomed(t, run) && !WorkerAt(t, w).Holding?
    ensures forall v :: v != w ==> WorkerAt(t, v) == WorkerAt(s, v)
    decreases if InHold(s, w, TakenOut) then 2 else if InHold(s, w, LeaseCleared) then 1 else 0
  {
    var step := if InHold(s, w, TakenOut) then ClearLease(w)
      else if InHold(s, w, LeaseCleared) then ClearOwner(w) else PushBack(w);
    KeepsDoomed(s, step, run);
    OneDrift(s, step);
    OthersUnchanged(s, Apply(s, step), w);
    t, steps := Apply(s, step), [step];
    if !step.PushBack? {
      var more;
      t, more := FinishHold(Apply(s, step), w, run);
      DriftsOn(s, steps, Apply(s, step), more, t);
      steps := steps + more;
    }
  }

  lemma ReleaseHolders(s: State, run: Id) returns (t: State, steps: seq<Step>)
    requires Doomed(s, run)
    ensures Drifts(s, steps, t) && Doomed(t, run) && Holders(t, run) == {}
    decreases |Holders(s, run)|
  {
    t, steps := s, [];
    if w :| w in Holders(s, run) {
      var next, first := FinishHold(s, w, run);
      assert Holders(next, run) == Holders(s, run) - {w};
      var more;
      t, more := ReleaseHolders(next, run);
      DriftsOn(s, first, next, more, t);
      steps := first + more;
    }
  }

  /** A fresh worker takes one delivery and crashes. */
  lemma DrainOne(s: State, run: Id) returns (t: State, steps: seq<Step>)
    requires Doomed(s, run) && Holders(s, run) == {} && s.store.main != []
    ensures Drifts(s, steps, t) && Doomed(t, run) && Holders(t, run) == {}
    ensures |t.store.main| == |s.store.main| - 1
  {
    var v := FreshId(s.workers.Keys);
    assert v !in s.workers;
    var moved := Apply(s, Move(v));
    KeepsDoomed(s, Move(v), run);
    OneDrift(s, Move(v));
    KeepsDoomed(moved, Crash(v), run);
    OneDrift(moved, Crash(v));
    t, steps := Apply(moved, Crash(v)), [Move(v)] + [Crash(v)];
    DriftsOn(s, [Move(v)], moved, [Crash(v)], t);
    forall w ensures WorkerAt(t, w) == WorkerAt(s, w) {}
  }

  lemma {:induction false} DrainMain(s: State, run: Id) returns (t: State, steps: seq<Step>)
    requires Doomed(s, run) && Holders(s, run) == {}
    ensures Drifts(s, steps, t) && Doomed(t, run) && Holders(t, run) == {} && t.store.main == []
    decreases |s.store.main|
  {
    t, steps := s, [];
    if s.store.main != [] {
      var next, first := DrainOne(s, run);
      var more;
      t, more := DrainMain(next, run);
      DriftsOn(s, first, next, more, t);
      steps := first + more;
    }
  }

  lemma AckOne(s: State, w: Id, run: Id)
    requires Doomed(s, run) && InPhase(s, w, Done) && WorkerAt(s, w).p in s.store.processing
    ensures Drifts(s, [AckRemove(w)], Apply(s, AckRemove(w))) && Doomed(Apply(s, AckRemove(w)), run)
    ensures Holders(Apply(s, AckRemove(w)), run) == Holders(s, run)
    ensures |Apply(s, AckRemove(w)).store.processing| < |s.store.processing|
  {
    var t, p := Apply(s, AckRemove(w)), WorkerAt(s, w).p;
    OneDrift(s, AckRemove(w));
    StepConserves(s, AckRemove(w));
    OthersUnchanged(s, t, w);
    RemoveFirstLength(s.store.processing, p);
    forall x | Present(t, x) && x.runId == run ensures AboutToAck(t, x) {
      assert x in t.issued && x !in t.acked && x != p;
      assert Present(s, x);
      var v :| InPhase(s, v, Done) && WorkerAt(s, v).p == x;
      assert InPhase(t, v, Done) && WorkerAt(t, v).p == x;
    }
  }

  lemma AckAll(s: State, run: Id) returns (t: State, steps: seq<Step>)
    requires Doomed(s, run) && Holders(s, run) == {} && s.store.main == []
    ensures Drifts(s, steps, t) && forall p :: Present(t, p) ==> p.runId != run
    decreases |s.store.processing|
  {
    t, steps := s, [];
    if p :| p in s.store.processing && p.runId == run {
      assert Present(s, p);
      var w :| InPhase(s, w, Done) && WorkerAt(s, w).p == p;
      AckOne(s, w, run);
      var more;
      t, more := AckAll(Apply(s, AckRemove(w)), run);
      DriftsOn(s, [AckRemove(w)], Apply(s, AckRemove(w)), more, t);
      steps := [AckRemove(w)] + more;
    } else {
      forall p | Present(s, p) ensures p.runId != run {
        if InHand(s, p) {
          var w :| Holds(s, w, p);
          assert w in s.workers && w !in Holders(s, run);
        }
      }
    }
  }

  lemma DoomedIsStranded(s: State, run: Id) returns (steps: seq<Step>)
    requires Doomed(s, run) && RunIs(s, run, true) && Enqueued(s, run)
    ensures CanRun(s, steps) && NoReset(steps) && Stranded(After(s, steps), run)
  {
    var s1, a := ReleaseHolders(s, run);
    var s2, b := DrainMain(s1, run);
    var s3, c := AckAll(s2, run);
    DriftsOn(s, a, s1, b, s2);
    DriftsOn(s, a + b, s2, c, s3);
    steps := a + b + c;
  }

  // ----- the exact condition -----

  lemma {:induction false} NoResetIsGuarded(s: State, steps: seq<Step>)
    requires CanRun(s, steps) && NoReset(steps)
    ensures AllGuarded(s, steps)
    decreases |steps|
  {
    if steps != [] {
      NoResetIsGuarded(Apply(s, steps[0]), steps[1..]);
    }
  }

  ghost predicate MayStrand(s: State, run: Id)
  {
    exists steps :: CanRun(s, steps) && NoReset(steps) && Stranded(After(s, steps), run)
  }

  lemma ServedIsNotStranded(s: State, run: Id)
    requires Conserved(s) && Served(s)
    ensures !MayStrand(s, run)
  {
    forall steps | CanRun(s, steps) && NoReset(steps) ensures !Stranded(After(s, steps), run) {
      NoResetIsGuarded(s, steps);
      RunKeepsServed(s, steps);
    }
  }

  /** A reset can leave its run stranded, by some continuation without another reset, exactly
      when the stored status is no longer live and every payload of the run that is anywhere
      is about to be acknowledged. */
  lemma ResetStrandsIff(s: State, p: Payload)
    requires Conserved(s) && Served(s) && Enabled(s, CommitReset(p))
    ensures MayStrand(Apply(s, CommitReset(p)), p.runId) <==> !MayReset(s, p.runId)
  {
    var t, run := Apply(s, CommitReset(p)), p.runId;
    StepConserves(s, CommitReset(p));
    if MayReset(s, run) {
      if RunIs(s, run, true) {
        assert Enqueued(s, run);
      }
      StepKeepsServed(s, CommitReset(p));
      ServedIsNotStranded(t, run);
    } else {
      ResetDooms(s, p);
      var steps := DoomedIsStranded(t, run);
      assert MayStrand(t, run);
    }
  }

  lemma ResetDooms(s: State, p: Payload)
    requires Conserved(s) && Enabled(s, CommitReset(p)) && !WorkWaiting(s, p.runId)
    ensures Doomed(Apply(s, CommitReset(p)), p.runId) && Enqueued(Apply(s, CommitReset(p)), p.runId)
    ensures RunIs(Apply(s, CommitReset(p)), p.runId, true)
  {
    var t := Apply(s, CommitReset(p));
    StepConserves(s, CommitReset(p));
    assert p in t.issued;
    forall x | Present(t, x) && x.runId == p.runId ensures AboutToAck(t, x) {
      assert Present(s, x) && !Waiting(s, x);
      var w :| InPhase(s, w, Done) && WorkerAt(s, w).p == x;
      assert InPhase(t, w, Done) && WorkerAt(t, w).p == x;
    }
  }
}
