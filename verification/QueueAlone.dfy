/** The protocol's single commands, taken by one worker with nobody else in between, are the queue's
    whole operations. */
module QueueAlone {
  import opened Options
  import opened RedisQueue
  import opened QueueProtocol
  import opened QueueHazards

  /** A dequeue: three commands make the delivery of the right end of the main list. */
  lemma DequeueAlone(s: State, w: Id)
    requires Enabled(s, Move(w))
    ensures
      var p := s.store.main[|s.store.main| - 1];
      Reaches(s, [Move(w), WriteLease(w), WriteOwner(w)],
              s.(store := Dequeued(s.store, s.clock, w), workers := s.workers[w := Delivery(p, s.clock, Ready)]))
  {
    ThreeSteps(s, Move(w), WriteLease(w), WriteOwner(w));
  }

  /** An acknowledgement: three commands. */
  lemma AckAlone(s: State, w: Id)
    requires Enabled(s, AckRemove(w))
    ensures
      var p := WorkerAt(s, w).p;
      Reaches(s, [AckRemove(w), AckUnlease(w), AckUnown(w)],
              s.(store := Acked(s.store, p), workers := s.workers[w := Idle],
                 acked := if p in s.store.processing then s.acked + {p} else s.acked))
  {
    ThreeSteps(s, AckRemove(w), AckUnlease(w), AckUnown(w));
  }

  lemma PushBackAlone(s: State, w: Id) returns (t: State, steps: seq<Step>)
    requires Enabled(s, ClearLease(w))
    ensures Reaches(s, steps, t)
    ensures
      var h := WorkerAt(s, w);
      t == s.(store := RpushMain(HdelOwner(HdelLease(s.store, h.p), h.p), h.p),
              workers := s.workers[w := Scanning(h.todo, h.now)])
  {
    ThreeSteps(s, ClearLease(w), ClearOwner(w), PushBack(w));
    t := Apply(Apply(Apply(s, ClearLease(w)), ClearOwner(w)), PushBack(w));
    steps := [ClearLease(w), ClearOwner(w), PushBack(w)];
  }

  /** A recovery's treatment of one payload that it has found recoverable: four commands, or one when
      the payload is gone. */
  lemma TakeBackAlone(s: State, w: Id) returns (t: State, steps: seq<Step>)
    requires WorkerAt(s, w).Checked?
    ensures
      var c := WorkerAt(s, w);
      && Reaches(s, steps, t)
      && t == s.(store := if c.p in s.store.processing then TakenBack(s.store, c.p) else s.store,
                 workers := s.workers[w := Scanning(c.todo, c.now)])
  {
    var c := WorkerAt(s, w);
    if c.p in s.store.processing {
      var held := Apply(s, TakeOut(w));
      var rest;
      t, rest := PushBackAlone(held, w);
      Chain(s, TakeOut(w), rest);
      steps := [TakeOut(w)] + rest;
    } else {
      t := Apply(s, TakeOut(w));
      Chain(s, TakeOut(w), []);
      steps := [TakeOut(w)] + [];
    }
  }

  lemma OnePayloadAlone(s: State, w: Id) returns (t: State, steps: seq<Step>)
    requires WorkerAt(s, w).Scanning? && WorkerAt(s, w).todo != []
    ensures
      var scan := WorkerAt(s, w);
      var p := scan.todo[0];
      var takes := Recoverable(s.store, p, scan.now, s.leaseSeconds) && p in s.store.processing;
      && Reaches(s, steps, t)
      && t == s.(store := if takes then TakenBack(s.store, p) else s.store,
                 workers := s.workers[w := Scanning(scan.todo[1..], scan.now)])
  {
    var scan := WorkerAt(s, w);
    var seen := Apply(s, Inspect(w));
    if Recoverable(s.store, scan.todo[0], scan.now, s.leaseSeconds) {
      var rest;
      t, rest := TakeBackAlone(seen, w);
      Chain(s, Inspect(w), rest);
      steps := [Inspect(w)] + rest;
    } else {
      t := seen;
      Chain(s, Inspect(w), []);
      steps := [Inspect(w)] + [];
    }
  }

  lemma {:induction false} ScanAlone(s: State, w: Id) returns (t: State, steps: seq<Step>)
    requires WorkerAt(s, w).Scanning?
    ensures
      var scan := WorkerAt(s, w);
      && Reaches(s, steps, t)
      && t == s.(store := Recovered(s.store, scan.todo, scan.now, s.leaseSeconds), workers := s.workers[w := Idle])
    decreases |WorkerAt(s, w).todo|
  {
    var scan := WorkerAt(s, w);
    if scan.todo == [] {
      t := Apply(s, EndRecovery(w));
      Chain(s, EndRecovery(w), []);
      steps := [EndRecovery(w)] + [];
    } else {
      var next, first := OnePayloadAlone(s, w);
      var rest;
      t, rest := ScanAlone(next, w);
      RunConcat(s, first, rest);
      steps := first + rest;
    }
  }

  /** A whole recovery pass, command by command, is the pass over a snapshot of at most `limit`
      payloads. */
  lemma RecoveryAlone(s: State, w: Id, limit: nat) returns (t: State, steps: seq<Step>)
    requires WorkerAt(s, w).Idle?
    ensures Reaches(s, steps, t)
    ensures t == s.(store := Recovered(s.store, Prefix(s.store.processing, limit), s.clock, s.leaseSeconds),
                    workers := s.workers[w := Idle])
  {
    var started := Apply(s, StartRecovery(w, limit));
    var rest;
    t, rest := ScanAlone(started, w);
    Chain(s, StartRecovery(w, limit), rest);
    steps := [StartRecovery(w, limit)] + rest;
  }
}
