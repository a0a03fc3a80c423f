/** Concrete runs of the protocol in which a condition of the safety results is missing
    and the result fails. */
module QueueHazards {
  import opened Options
  import opened RedisQueue
  import opened QueueProtocol

  /** Taking `step` and then `rest`. */
  lemma Chain(s: State, step: Step, rest: seq<Step>)
    requires Enabled(s, step) && CanRun(Apply(s, step), rest)
    ensures CanRun(s, [step] + rest)
    ensures After(s, [step] + rest) == After(Apply(s, step), rest)
  {
    assert ([step] + rest)[1..] == rest;
  }

  lemma {:induction false} RunConcat(s: State, a: seq<Step>, b: seq<Step>)
    requires CanRun(s, a) && CanRun(After(s, a), b)
    ensures CanRun(s, a + b)
    ensures After(s, a + b) == After(After(s, a), b)
    decreases |a|
  {
    if a == [] {
      assert a + b == b;
    } else {
      RunConcat(Apply(s, a[0]), a[1..], b);
      assert (a + b)[1..] == a[1..] + b;
    }
  }

  /** `t` is reached from `s` by `steps`. */
  predicate Reaches(s: State, steps: seq<Step>, t: State)
  {
    CanRun(s, steps) && After(s, steps) == t
  }

  lemma ThreeSteps(s: State, a: Step, b: Step, c: Step)
    requires Enabled(s, a) && Enabled(Apply(s, a), b) && Enabled(Apply(Apply(s, a), b), c)
    ensures Reaches(s, [a, b, c], Apply(Apply(Apply(s, a), b), c))
  {
    Chain(Apply(Apply(s, a), b), c, []);
    assert [c] + [] == [c];
    Chain(Apply(s, a), b, [c]);
    assert [b] + [c] == [b, c];
    Chain(s, a, [b, c]);
    assert [a] + [b, c] == [a, b, c];
  }

  /** One delivery, to the point where execution begins. */
  lemma DeliverOne(s: State, p: Payload, w: Id) returns (t: State, steps: seq<Step>)
    requires s.store.main == [p] && s.store.processing == [] && WorkerAt(s, w).Idle?
    ensures Reaches(s, steps, t)
    ensures t.store.main == [] && t.store.processing == [p]
    ensures p in t.store.leases && t.store.leases[p] == At(s.clock)
    ensures t == s.(store := t.store, workers := s.workers[w := Delivery(p, s.clock, Ready)])
  {
    steps := [Move(w), WriteLease(w), WriteOwner(w)];
    ThreeSteps(s, Move(w), WriteLease(w), WriteOwner(w));
    t := Apply(Apply(Apply(s, Move(w)), WriteLease(w)), WriteOwner(w));
  }

  /** A delivered job is executed to success and removed from processing. */
  lemma ExecuteAndRemove(s: State, p: Payload, w: Id) returns (t: State, steps: seq<Step>)
    requires s.store.main == [] && s.store.processing == [p]
    requires WorkerAt(s, w).Delivery? && WorkerAt(s, w).phase == Ready && WorkerAt(s, w).p == p
    requires RunIs(s, p.runId, true)
    ensures Reaches(s, steps, t)
    ensures t.store.main == [] && t.store.processing == []
    ensures t == s.(store := t.store, workers := s.workers[w := WorkerAt(s, w).(phase := Removed)],
                    runs := s.runs[p.runId := Succeeded], finished := s.finished + {p}, acked := s.acked + {p})
  {
    var a, b, c := BeginExecute(w), FinishExecute(w, Succeeded), AckRemove(w);
    steps := [a, b, c];
    ThreeSteps(s, a, b, c);
    t := Apply(Apply(Apply(s, a), b), c);
  }

  // ----- a reset committed too late -----

  lemma ResetAfterAck(s: State, p: Payload, w: Id) returns (t: State, steps: seq<Step>)
    requires s.store.main == [p] && s.store.processing == [] && WorkerAt(s, w).Idle?
    requires RunIs(s, p.runId, true) && p in s.resets
    ensures Reaches(s, steps, t)
    ensures t.store.main == [] && t.store.processing == []
    ensures t.runs == s.runs[p.runId := Queued] && t.issued == s.issued
    ensures forall v, x :: Holds(t, v, x) ==> Holds(s, v, x)
  {
    var s1, first := DeliverOne(s, p, w);
    var s2, second := ExecuteAndRemove(s1, p, w);
    RunConcat(s, first, second);
    t := Apply(s2, CommitReset(p));
    Chain(s2, CommitReset(p), []);
    assert [CommitReset(p)] + [] == [CommitReset(p)];
    RunConcat(s, first + second, [CommitReset(p)]);
    steps := first + second + [CommitReset(p)];
    forall v, x | Holds(t, v, x) ensures Holds(s, v, x) {
      assert v != w;
    }
  }

  /** The requeue script pushes a job for a stale running run; a worker delivers, executes and
      acknowledges that job; then the script commits its reset. The run is queued and no
      payload for it is left anywhere. */
  lemma LateResetStrandsRun(s: State) returns (steps: seq<Step>)
    requires Initial(s) && s.runs == map[1 := Running]
    ensures CanRun(s, steps)
    ensures RunIs(After(s, steps), 1, true) && Enqueued(After(s, steps), 1)
    ensures forall p :: !Present(After(s, steps), p)
  {
    var p := Payload(0, 1, None);
    var s1 := Apply(s, SelectStale(1));
    var s2 := Apply(s1, RequeueStale(1, None));
    assert s2.store.main == [p];
    var t, rest := ResetAfterAck(s2, p, 7);
    Chain(s1, RequeueStale(1, None), rest);
    Chain(s, SelectStale(1), [RequeueStale(1, None)] + rest);
    steps := [SelectStale(1)] + ([RequeueStale(1, None)] + rest);
    assert p in t.issued;
  }

  // ----- a crash while a recovering worker holds a payload -----

  /** The excluded crash, between taking a payload out of processing and pushing it back,
      loses the payload although nobody acknowledged it. */
  lemma CrashWhileHoldingLosesPayload(s: State, w: Id)
    requires Conserved(s) && WorkerAt(s, w).Holding?
    ensures
      var p, crashed := WorkerAt(s, w).p, SetWorker(s, w, Idle);
      !Present(crashed, p) && p in crashed.issued && p !in crashed.acked
  {
    var p, crashed := WorkerAt(s, w).p, SetWorker(s, w, Idle);
    assert Holds(s, w, p);
    assert InHand(s, p);
    assert Present(s, p);
    OthersUnchanged(s, crashed, w);
    forall v ensures !Holds(crashed, v, p) {
      if Holds(crashed, v, p) {
        assert Holds(s, v, p);
      }
    }
  }
}
