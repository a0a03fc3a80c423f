/** The queue under concurrency. Every Redis command and every database commit is one
    atomic step; workers interleave and crash between steps. */
module QueueProtocol {
  import opened Options
  import opened Sequences
  import opened Sorting
  import opened RedisQueue

  datatype Status = Queued | Running | Succeeded | Infeasible | Failed | Canceled

  predicate IsLive(status: Status) { status == Queued || status == Running }

  /** How far a worker is with a delivery: after BRPOPLPUSH, after each HSET, while
      executing, after the final commit, after LREM, after the first HDEL. */
  datatype Phase = Moved | Leased | Ready | Executing | Done | Removed | Unleased

  /** How far a recovering worker is with a payload it has taken out of processing. */
  datatype HoldPhase = TakenOut | LeaseCleared | OwnerCleared

  datatype Worker =
    | Idle
    | Delivery(p: Payload, since: int, phase: Phase)
    | Scanning(todo: seq<Payload>, now: int)
    | Checked(p: Payload, todo: seq<Payload>, now: int)
    | Holding(p: Payload, todo: seq<Payload>, now: int, hold: HoldPhase)

  /** `issued`, `finished` and `acked` are history: the payloads ever enqueued, those some
      worker has finished executing, and those an acknowledgement has removed. `selected`
      and `resets` are the requeue script's uncommitted work. */
  datatype State = State(
    store: Store,
    runs: map<Id, Status>,
    workers: map<Id, Worker>,
    clock: int,
    leaseSeconds: int,
    nextJobId: nat,
    issued: set<Payload>,
    finished: set<Payload>,
    acked: set<Payload>,
    selected: set<Id>,
    resets: set<Payload>)

  datatype Step =
    | CreateRun(run: Id, status: Status)
    | Enqueue(run: Id, organizationId: Option<Id>)
    | Tick(seconds: nat)
    // a worker's delivery
    | Move(w: Id)
    | WriteLease(w: Id)
    | WriteOwner(w: Id)
    | BeginExecute(w: Id)
    | FinishExecute(w: Id, outcome: Status)
    | AckRemove(w: Id)
    | AckUnlease(w: Id)
    | AckUnown(w: Id)
    // a worker's recovery pass
    | StartRecovery(w: Id, limit: nat)
    | Inspect(w: Id)
    | TakeOut(w: Id)
    | ClearLease(w: Id)
    | ClearOwner(w: Id)
    | PushBack(w: Id)
    | EndRecovery(w: Id)
    | Crash(w: Id)
    // the API and the requeue script
    | CancelRun(run: Id)
    | RetryRun(run: Id)
    | SelectStale(run: Id)
    | RequeueStale(run: Id, organizationId: Option<Id>)
    | CommitReset(p: Payload)

  function WorkerAt(s: State, w: Id): Worker { if w in s.workers then s.workers[w] else Idle }

  predicate InPhase(s: State, w: Id, phase: Phase)
  {
    WorkerAt(s, w).Delivery? && WorkerAt(s, w).phase == phase
  }

  predicate InHold(s: State, w: Id, hold: HoldPhase)
  {
    WorkerAt(s, w).Holding? && WorkerAt(s, w).hold == hold
  }

  predicate RunIs(s: State, run: Id, live: bool) { run in s.runs && IsLive(s.runs[run]) == live }

  predicate Enabled(s: State, step: Step)
  {
    match step
    case CreateRun(run, _) => run !in s.runs && forall p :: p in s.issued ==> p.runId != run
    case Enqueue(_, _) => true
    case Tick(_) => true
    case Move(w) => WorkerAt(s, w).Idle? && s.store.main != []
    case WriteLease(w) => InPhase(s, w, Moved)
    case WriteOwner(w) => InPhase(s, w, Leased)
    case BeginExecute(w) => InPhase(s, w, Ready)
    case FinishExecute(w, outcome) => InPhase(s, w, Executing) && !IsLive(outcome)
    case AckRemove(w) => InPhase(s, w, Done)
    case AckUnlease(w) => InPhase(s, w, Removed)
    case AckUnown(w) => InPhase(s, w, Unleased)
    case StartRecovery(w, _) => WorkerAt(s, w).Idle?
    case Inspect(w) => WorkerAt(s, w).Scanning? && WorkerAt(s, w).todo != []
    case TakeOut(w) => WorkerAt(s, w).Checked?
    case ClearLease(w) => InHold(s, w, TakenOut)
    case ClearOwner(w) => InHold(s, w, LeaseCleared)
    case PushBack(w) => InHold(s, w, OwnerCleared)
    case EndRecovery(w) => WorkerAt(s, w).Scanning? && WorkerAt(s, w).todo == []
    // a crash while a recovering worker holds a payload is excluded
    case Crash(w) => !WorkerAt(s, w).Holding?
    case CancelRun(run) => RunIs(s, run, true)
    case RetryRun(run) => run in s.runs && s.runs[run] != Canceled
    case SelectStale(run) => run in s.runs && s.runs[run] == Running
    case RequeueStale(run, _) => run in s.selected
    case CommitReset(p) => p in s.resets && p.runId in s.runs
  }

  function SetWorker(s: State, w: Id, worker: Worker): State { s.(workers := s.workers[w := worker]) }

  function InPhaseNext(s: State, w: Id, phase: Phase): State
    requires WorkerAt(s, w).Delivery?
  {
    SetWorker(s, w, WorkerAt(s, w).(phase := phase))
  }

  function NextHold(s: State, w: Id, hold: HoldPhase): State
    requires WorkerAt(s, w).Holding?
  {
    SetWorker(s, w, WorkerAt(s, w).(hold := hold))
  }

  function Issue(s: State, p: Payload): State
  {
    s.(store := LpushMain(s.store, p), nextJobId := s.nextJobId + 1, issued := s.issued + {p})
  }

  function Apply(s: State, step: Step): State
    requires Enabled(s, step)
  {
    match step
    case CreateRun(run, status) => s.(runs := s.runs[run := status])
    case Enqueue(run, org) => Issue(s, Payload(s.nextJobId, run, org))
    case Tick(seconds) => s.(clock := s.clock + seconds)
    case Move(w) =>
      var p := s.store.main[|s.store.main| - 1];
      SetWorker(s.(store := Brpoplpush(s.store)), w, Delivery(p, s.clock, Moved))
    case WriteLease(w) =>
      var p := WorkerAt(s, w).p;
      SetWorker(s.(store := HsetLease(s.store, p, At(s.clock))), w, Delivery(p, s.clock, Leased))
    case WriteOwner(w) =>
      InPhaseNext(s.(store := HsetOwner(s.store, WorkerAt(s, w).p, w)), w, Ready)
    case BeginExecute(w) =>
      var p := WorkerAt(s, w).p;
      // a missing or terminal run ends the execution at once
      if RunIs(s, p.runId, true) then InPhaseNext(s, w, Executing)
      else InPhaseNext(s.(finished := s.finished + {p}), w, Done)
    case FinishExecute(w, outcome) =>
      var p := WorkerAt(s, w).p;
      InPhaseNext(s.(runs := s.runs[p.runId := outcome], finished := s.finished + {p}), w, Done)
    case AckRemove(w) =>
      var p := WorkerAt(s, w).p;
      InPhaseNext(
        s.(store := LremProcessing(s.store, p),
           acked := if p in s.store.processing then s.acked + {p} else s.acked),
        w, Removed)
    case AckUnlease(w) => InPhaseNext(s.(store := HdelLease(s.store, WorkerAt(s, w).p)), w, Unleased)
    case AckUnown(w) => SetWorker(s.(store := HdelOwner(s.store, WorkerAt(s, w).p)), w, Idle)
    case StartRecovery(w, limit) => SetWorker(s, w, Scanning(Prefix(s.store.processing, limit), s.clock))
    case Inspect(w) =>
      var scan := WorkerAt(s, w);
      if Recoverable(s.store, scan.todo[0], scan.now, s.leaseSeconds)
      then SetWorker(s, w, Checked(scan.todo[0], scan.todo[1..], scan.now))
      else SetWorker(s, w, Scanning(scan.todo[1..], scan.now))
    case TakeOut(w) =>
      var c := WorkerAt(s, w);
      if c.p in s.store.processing
      then SetWorker(s.(store := LremProcessing(s.store, c.p)), w, Holding(c.p, c.todo, c.now, TakenOut))
      else SetWorker(s, w, Scanning(c.todo, c.now))
    case ClearLease(w) => NextHold(s.(store := HdelLease(s.store, WorkerAt(s, w).p)), w, LeaseCleared)
    case ClearOwner(w) => NextHold(s.(store := HdelOwner(s.store, WorkerAt(s, w).p)), w, OwnerCleared)
    case PushBack(w) =>
      var h := WorkerAt(s, w);
      SetWorker(s.(store := RpushMain(s.store, h.p)), w, Scanning(h.todo, h.now))
    case EndRecovery(w) => SetWorker(s, w, Idle)
    case Crash(w) => SetWorker(s, w, Idle)
    case CancelRun(run) => s.(runs := s.runs[run := Canceled])
    case RetryRun(run) => s.(runs := s.runs[run := Succeeded])
    case SelectStale(run) => s.(selected := s.selected + {run})
    case RequeueStale(run, org) =>
      var p := Payload(s.nextJobId, run, org);
      Issue(s, p).(selected := s.selected - {run}, resets := s.resets + {p})
    case CommitReset(p) => s.(runs := s.runs[p.runId := Queued], resets := s.resets - {p})
  }

  /** A database of runs, an empty queue and no workers yet. */
  ghost predicate Initial(s: State)
  {
    && s.store == EmptyStore() && s.workers == map[] && s.nextJobId == 0
    && s.issued == {} && s.finished == {} && s.acked == {} && s.selected == {} && s.resets == {}
  }

  // ----- where a payload is -----

  predicate Holds(s: State, w: Id, p: Payload) { WorkerAt(s, w).Holding? && WorkerAt(s, w).p == p }

  ghost predicate InHand(s: State, p: Payload) { exists w :: Holds(s, w, p) }

  ghost predicate Present(s: State, p: Payload)
  {
    p in s.store.main || p in s.store.processing || InHand(s, p)
  }

  /** Each payload is in at most one place, once. */
  ghost predicate OnePlace(s: State)
  {
    && NoDuplicates(s.store.main) && NoDuplicates(s.store.processing)
    && (forall p :: p in s.store.main ==> p !in s.store.processing)
    && (forall w, p :: Holds(s, w, p) ==> p !in s.store.main && p !in s.store.processing)
    && (forall v, w, p :: Holds(s, v, p) && Holds(s, w, p) ==> v == w)
  }

  /** What has been issued is present until an acknowledgement removes it, and an
      acknowledgement only removes what some worker has finished executing. */
  ghost predicate Accounted(s: State)
  {
    && (forall p :: Present(s, p) <==> p in s.issued && p !in s.acked)
    && s.acked <= s.finished <= s.issued
  }

  ghost predicate Bookkeeping(s: State)
  {
    && (forall p :: p in s.issued ==> p.jobId < s.nextJobId)
    && (forall w :: WorkerAt(s, w).Delivery? ==> WorkerAt(s, w).p in s.issued)
    && (forall w :: WorkerAt(s, w).Delivery? && WorkerAt(s, w).phase in {Done, Removed, Unleased}
          ==> WorkerAt(s, w).p in s.finished)
    && s.resets <= s.issued
  }

  ghost predicate Conserved(s: State)
  {
    OnePlace(s) && Accounted(s) && Bookkeeping(s)
  }

  // ----- list facts -----

  lemma {:induction false} RemoveFirstMembers(ps: seq<Payload>, p: Payload)
    requires NoDuplicates(ps)
    ensures NoDuplicates(RemoveFirst(ps, p))
    ensures forall x :: x in RemoveFirst(ps, p) <==> x in ps && x != p
  {
    if ps != [] {
      assert ps == [ps[0]] + ps[1..];
      if ps[0] != p {
        RemoveFirstMembers(ps[1..], p);
        var rest := RemoveFirst(ps[1..], p);
        forall j | 0 <= j < |rest| ensures rest[j] != ps[0] {
          assert rest[j] in rest;
        }
      }
    }
  }

  /** A step of one worker leaves the others as they are. */
  lemma OthersUnchanged(s: State, t: State, w: Id)
    requires t.workers == s.workers[w := WorkerAt(t, w)]
    ensures forall v {:trigger WorkerAt(t, v)} {:trigger WorkerAt(s, v)} :: v != w ==> WorkerAt(t, v) == WorkerAt(s, v)
  {
  }

  lemma LastSplit(ps: seq<Payload>)
    requires NoDuplicates(ps) && ps != []
    ensures NoDuplicates(ps[..|ps| - 1])
    ensures forall x :: x in ps[..|ps| - 1] <==> x in ps && x != ps[|ps| - 1]
  {
    assert ps == ps[..|ps| - 1] + [ps[|ps| - 1]];
  }

  // ----- conservation, step by step -----

  lemma InHandAfter(s: State, t: State)
    requires forall w, p :: Holds(s, w, p) <==> Holds(t, w, p)
    ensures forall p :: InHand(s, p) <==> InHand(t, p)
  {
  }

  lemma IssueConserves(s: State, p: Payload)
    requires Conserved(s) && p.jobId == s.nextJobId
    ensures Conserved(Issue(s, p))
  {
    var t := Issue(s, p);
    assert p !in s.issued;
    assert !Present(s, p);
    InHandAfter(s, t);
    assert forall x :: x in t.store.main <==> x == p || x in s.store.main;
    forall w ensures WorkerAt(t, w) == WorkerAt(s, w) {}
  }

  /** Steps that touch neither list and leave what workers hold alone. */
  lemma QuietConserves(s: State, t: State)
    requires Conserved(s) && Bookkeeping(t)
    requires t.store.main == s.store.main && t.store.processing == s.store.processing
    requires t.issued == s.issued && t.acked == s.acked && s.finished <= t.finished <= t.issued
    requires forall w, p :: Holds(s, w, p) <==> Holds(t, w, p)
    ensures Conserved(t)
  {
    InHandAfter(s, t);
  }

  lemma MoveConserves(s: State, w: Id)
    requires Conserved(s) && Enabled(s, Move(w))
    ensures Conserved(Apply(s, Move(w)))
  {
    var t := Apply(s, Move(w));
    OthersUnchanged(s, t, w);
    var p := s.store.main[|s.store.main| - 1];
    LastSplit(s.store.main);
    assert p in s.store.main;
    forall v, x ensures Holds(s, v, x) <==> Holds(t, v, x) {}
    InHandAfter(s, t);
    assert Present(s, p);
    forall x ensures Present(t, x) <==> Present(s, x) {}
  }

  lemma AckRemoveConserves(s: State, w: Id)
    requires Conserved(s) && Enabled(s, AckRemove(w))
    ensures Conserved(Apply(s, AckRemove(w)))
  {
    var t := Apply(s, AckRemove(w));
    OthersUnchanged(s, t, w);
    var p := WorkerAt(s, w).p;
    RemoveFirstMembers(s.store.processing, p);
    RemoveFirstLength(s.store.processing, p);
    forall v, x ensures Holds(s, v, x) <==> Holds(t, v, x) {}
    AckRemoveTakesOne(s, w);
  }

  /** What an acknowledgement removes is exactly what it adds to the acknowledged. */
  lemma AckRemoveTakesOne(s: State, w: Id)
    requires Conserved(s) && Enabled(s, AckRemove(w))
    ensures forall x :: Present(Apply(s, AckRemove(w)), x) <==>
      Present(s, x) && !(x == WorkerAt(s, w).p && x in s.store.processing)
  {
    var t, p := Apply(s, AckRemove(w)), WorkerAt(s, w).p;
    OthersUnchanged(s, t, w);
    RemoveFirstMembers(s.store.processing, p);
    forall v, x ensures Holds(s, v, x) <==> Holds(t, v, x) {}
    InHandAfter(s, t);
    forall x ensures Present(t, x) <==> Present(s, x) && !(x == p && x in s.store.processing) {
      assert p in s.store.processing ==> !InHand(s, p);
    }
  }

  lemma TakeOutConserves(s: State, w: Id)
    requires Conserved(s) && Enabled(s, TakeOut(w))
    ensures Conserved(Apply(s, TakeOut(w)))
  {
    var t := Apply(s, TakeOut(w));
    OthersUnchanged(s, t, w);
    var p := WorkerAt(s, w).p;
    if p in s.store.processing {
      RemoveFirstMembers(s.store.processing, p);
      assert Holds(t, w, p);
      forall v, x ensures Holds(t, v, x) <==> Holds(s, v, x) || (v == w && x == p) {}
      forall x ensures Present(t, x) <==> Present(s, x) {
        if InHand(s, x) {
          var v :| Holds(s, v, x);
          assert Holds(t, v, x);
        }
      }
    } else {
      forall v, x ensures Holds(s, v, x) <==> Holds(t, v, x) {}
      QuietConserves(s, t);
    }
  }

  lemma PushBackConserves(s: State, w: Id)
    requires Conserved(s) && Enabled(s, PushBack(w))
    ensures Conserved(Apply(s, PushBack(w)))
  {
    var t := Apply(s, PushBack(w));
    OthersUnchanged(s, t, w);
    var p := WorkerAt(s, w).p;
    assert Holds(s, w, p);
    forall v, x ensures Holds(t, v, x) <==> Holds(s, v, x) && v != w {}
    forall x ensures Present(t, x) <==> Present(s, x) {
      if InHand(s, x) {
        var v :| Holds(s, v, x);
        assert v != w ==> Holds(t, v, x);
        assert v == w ==> x == p;
      }
    }
    assert forall x :: x in t.store.main <==> x == p || x in s.store.main;
  }

  /** A worker's other steps. */
  lemma WorkerStepConserves(s: State, step: Step)
    requires Conserved(s) && Enabled(s, step)
    requires step.WriteLease? || step.WriteOwner? || step.BeginExecute? || step.FinishExecute?
      || step.AckUnlease? || step.AckUnown?
    ensures Conserved(Apply(s, step))
  {
    var t := Apply(s, step);
    OthersUnchanged(s, t, step.w);
    forall v, x ensures Holds(s, v, x) <==> Holds(t, v, x) {}
    QuietConserves(s, t);
  }

  lemma RecoveryStepConserves(s: State, step: Step)
    requires Conserved(s) && Enabled(s, step)
    requires step.StartRecovery? || step.Inspect? || step.ClearLease? || step.ClearOwner?
      || step.EndRecovery? || step.Crash?
    ensures Conserved(Apply(s, step))
  {
    var t := Apply(s, step);
    OthersUnchanged(s, t, step.w);
    forall v, x ensures Holds(s, v, x) <==> Holds(t, v, x) {}
    QuietConserves(s, t);
  }

  lemma OutsideStepConserves(s: State, step: Step)
    requires Conserved(s) && Enabled(s, step)
    requires step.CreateRun? || step.Tick? || step.CancelRun? || step.RetryRun? || step.SelectStale?
      || step.CommitReset?
    ensures Conserved(Apply(s, step))
  {
    var t := Apply(s, step);
    forall v ensures WorkerAt(t, v) == WorkerAt(s, v) {}
    QuietConserves(s, t);
  }

  lemma RequeueConserves(s: State, run: Id, org: Option<Id>)
    requires Conserved(s) && Enabled(s, RequeueStale(run, org))
    ensures Conserved(Apply(s, RequeueStale(run, org)))
  {
    var p := Payload(s.nextJobId, run, org);
    IssueConserves(s, p);
    var t := Apply(s, RequeueStale(run, org));
    forall v ensures WorkerAt(t, v) == WorkerAt(Issue(s, p), v) {}
    QuietConserves(Issue(s, p), t);
  }

  lemma StepConserves(s: State, step: Step)
    requires Conserved(s) && Enabled(s, step)
    ensures Conserved(Apply(s, step))
  {
    match step {
      case Enqueue(run, org) => IssueConserves(s, Payload(s.nextJobId, run, org));
      case RequeueStale(run, org) => RequeueConserves(s, run, org);
      case Move(w) => MoveConserves(s, w);
      case AckRemove(w) => AckRemoveConserves(s, w);
      case TakeOut(w) => TakeOutConserves(s, w);
      case PushBack(w) => PushBackConserves(s, w);
      case CreateRun(_, _) => OutsideStepConserves(s, step);
      case Tick(_) => OutsideStepConserves(s, step);
      case CancelRun(_) => OutsideStepConserves(s, step);
      case RetryRun(_) => OutsideStepConserves(s, step);
      case SelectStale(_) => OutsideStepConserves(s, step);
      case CommitReset(_) => OutsideStepConserves(s, step);
      case WriteLease(_) => WorkerStepConserves(s, step);
      case WriteOwner(_) => WorkerStepConserves(s, step);
      case BeginExecute(_) => WorkerStepConserves(s, step);
      case FinishExecute(_, _) => WorkerStepConserves(s, step);
      case AckUnlease(_) => WorkerStepConserves(s, step);
      case AckUnown(_) => WorkerStepConserves(s, step);
      case _ => RecoveryStepConserves(s, step);
    }
  }

  // ----- whole runs of the protocol -----

  /** Every step of the list can be taken in turn. */
  predicate CanRun(s: State, steps: seq<Step>)
    decreases |steps|
  {
    steps == [] || (Enabled(s, steps[0]) && CanRun(Apply(s, steps[0]), steps[1..]))
  }

  function After(s: State, steps: seq<Step>): State
    requires CanRun(s, steps)
    decreases |steps|
  {
    if steps == [] then s else After(Apply(s, steps[0]), steps[1..])
  }

  lemma InitialConserved(s: State)
    requires Initial(s)
    ensures Conserved(s)
  {
  }

  lemma {:induction false} RunConserves(s: State, steps: seq<Step>)
    requires Conserved(s) && CanRun(s, steps)
    ensures Conserved(After(s, steps))
    decreases |steps|
  {
    if steps != [] {
      StepConserves(s, steps[0]);
      RunConserves(Apply(s, steps[0]), steps[1..]);
    }
  }

  /** Conservation over every interleaving: an issued payload that no acknowledgement has
      removed is in exactly one place, once; and only payloads that some worker finished
      executing are ever removed. */
  lemma PayloadsAreConserved(s: State, steps: seq<Step>, p: Payload)
    requires Initial(s) && CanRun(s, steps)
    ensures
      var t := After(s, steps);
      && (p in t.issued && p !in t.acked ==>
            (if p in t.store.main then 1 else 0) + (if p in t.store.processing then 1 else 0)
            + (if InHand(t, p) then 1 else 0) == 1)
      && multiset(t.store.main)[p] <= 1 && multiset(t.store.processing)[p] <= 1
      && (forall v, w :: Holds(t, v, p) && Holds(t, w, p) ==> v == w)
      && (p in t.acked ==> p in t.finished && !Present(t, p))
  {
    InitialConserved(s);
    RunConserves(s, steps);
    var t := After(s, steps);
    MultiplicityOfDistinct(t.store.main);
    MultiplicityOfDistinct(t.store.processing);
  }

  // ----- no stranded run -----

  ghost predicate Enqueued(s: State, run: Id) { exists p :: p in s.issued && p.runId == run }

  /** Some payload of the run is still to be executed. */
  ghost predicate WorkLeft(s: State, run: Id)
  {
    exists p :: p in s.issued && p !in s.finished && p.runId == run
  }

  ghost predicate NoneStranded(s: State)
  {
    forall run :: RunIs(s, run, true) && Enqueued(s, run) ==> WorkLeft(s, run)
  }

  /** The requeue script commits its reset while the payload it pushed is still waiting or
      being executed. */
  predicate TimelyReset(s: State, step: Step)
  {
    step.CommitReset? ==> step.p !in s.finished
  }

  lemma WorkStaysLeft(s: State, t: State, run: Id)
    requires WorkLeft(s, run) && s.issued <= t.issued
    requires forall p :: p in t.finished && p !in s.finished ==> p.runId != run
    ensures WorkLeft(t, run)
  {
    var p :| p in s.issued && p !in s.finished && p.runId == run;
    assert p in t.issued && p !in t.finished;
  }

  lemma IssueLeavesWork(s: State, p: Payload)
    requires Conserved(s) && NoneStranded(s) && p.jobId == s.nextJobId
    ensures NoneStranded(Issue(s, p))
  {
    var t := Issue(s, p);
    assert p !in s.finished;
    forall run | RunIs(t, run, true) && Enqueued(t, run) ensures WorkLeft(t, run) {
      if run == p.runId {
        assert p in t.issued && p !in t.finished;
      } else {
        var x :| x in t.issued && x.runId == run;
        assert x in s.issued;
        WorkStaysLeft(s, t, run);
      }
    }
  }

  /** Steps that issue nothing: a run that is live and enqueued afterwards was so before. */
  lemma FinishLeavesWork(s: State, t: State)
    requires NoneStranded(s) && t.issued == s.issued
    requires forall run :: RunIs(t, run, true) && Enqueued(t, run) ==> RunIs(s, run, true)
    requires forall p :: p in t.finished && p !in s.finished ==> !RunIs(t, p.runId, true)
    ensures NoneStranded(t)
  {
    forall run | RunIs(t, run, true) && Enqueued(t, run) ensures WorkLeft(t, run) {
      assert Enqueued(s, run);
      WorkStaysLeft(s, t, run);
    }
  }

  lemma StepLeavesWork(s: State, step: Step)
    requires Conserved(s) && NoneStranded(s) && Enabled(s, step) && TimelyReset(s, step)
    ensures NoneStranded(Apply(s, step))
  {
    var t := Apply(s, step);
    match step {
      case Enqueue(run, org) => IssueLeavesWork(s, Payload(s.nextJobId, run, org));
      case RequeueStale(run, org) =>
        var p := Payload(s.nextJobId, run, org);
        IssueLeavesWork(s, p);
        FinishLeavesWork(Issue(s, p), t);
      case CommitReset(p) =>
        forall run | RunIs(t, run, true) && Enqueued(t, run) ensures WorkLeft(t, run) {
          if run == p.runId {
            assert p in t.issued && p !in t.finished;
          } else {
            assert Enqueued(s, run);
            WorkStaysLeft(s, t, run);
          }
        }
      case _ => FinishLeavesWork(s, t);
    }
  }

  predicate AllTimely(s: State, steps: seq<Step>)
    requires CanRun(s, steps)
    decreases |steps|
  {
    steps == [] || (TimelyReset(s, steps[0]) && AllTimely(Apply(s, steps[0]), steps[1..]))
  }

  lemma {:induction false} RunLeavesWork(s: State, steps: seq<Step>)
    requires Conserved(s) && NoneStranded(s) && CanRun(s, steps) && AllTimely(s, steps)
    ensures NoneStranded(After(s, steps))
    decreases |steps|
  {
    if steps != [] {
      StepConserves(s, steps[0]);
      StepLeavesWork(s, steps[0]);
      RunLeavesWork(Apply(s, steps[0]), steps[1..]);
    }
  }

  // ----- databases in which no run is stored as running -----

  predicate CreatesRunning(step: Step) { step.CreateRun? && step.status == Running }

  /** No stored run is running, so the requeue script has nothing to reset. */
  ghost predicate NothingRunning(s: State)
  {
    s.selected == {} && s.resets == {} && forall run :: run in s.runs ==> s.runs[run] != Running
  }

  lemma NothingRunningStays(s: State, step: Step)
    requires NothingRunning(s) && Enabled(s, step) && !CreatesRunning(step)
    ensures NothingRunning(Apply(s, step)) && TimelyReset(s, step)
  {
  }

  lemma {:induction false} NothingRunningIsTimely(s: State, steps: seq<Step>)
    requires NothingRunning(s) && CanRun(s, steps)
    requires forall i :: 0 <= i < |steps| ==> !CreatesRunning(steps[i])
    ensures AllTimely(s, steps)
    decreases |steps|
  {
    if steps != [] {
      NothingRunningStays(s, steps[0]);
      NothingRunningIsTimely(Apply(s, steps[0]), steps[1..]);
    }
  }

  /** No stranded run: over every interleaving from a database that stores no run as running,
      each enqueued run that is queued or running has a payload in the main list, the
      processing list or a recovering worker's hand, not yet executed. */
  lemma NoStrandedRun(s: State, steps: seq<Step>, run: Id)
    requires Initial(s) && CanRun(s, steps)
    requires forall r :: r in s.runs ==> s.runs[r] != Running
    requires forall i :: 0 <= i < |steps| ==> !CreatesRunning(steps[i])
    requires RunIs(After(s, steps), run, true) && Enqueued(After(s, steps), run)
    ensures exists p: Payload :: p.runId == run && Present(After(s, steps), p) && p !in After(s, steps).finished
  {
    NothingRunningIsTimely(s, steps);
    NoStrandedRunTimely(s, steps, run);
  }

  /** The same for a database that does store running rows, when the script commits each reset
      before the payload it pushed has been executed. */
  lemma NoStrandedRunTimely(s: State, steps: seq<Step>, run: Id)
    requires Initial(s) && CanRun(s, steps) && AllTimely(s, steps)
    requires RunIs(After(s, steps), run, true) && Enqueued(After(s, steps), run)
    ensures exists p: Payload :: p.runId == run && Present(After(s, steps), p) && p !in After(s, steps).finished
  {
    InitialConserved(s);
    RunConserves(s, steps);
    RunLeavesWork(s, steps);
    var t := After(s, steps);
    assert WorkLeft(t, run);
    var p :| p in t.issued && p !in t.finished && p.runId == run;
    assert Present(t, p);
  }
}
