/** Whole operations on the Redis queue, one after the other: what a recovery pass takes back, and
    what the lease and owner hashes say at any time. */
module RedisRuns {
  import opened Options
  import opened Sequences
  import opened RedisQueue

  // ----- a recovery pass -----

  /** Nothing protects the delivery: there is no lease, or an unreadable one, or the lease has lasted
      its time. */
  ghost function Unprotected(s: Store, now: int, leaseSeconds: int): Payload -> bool
  {
    (p: Payload) => !(p in s.leases && s.leases[p].At? && now < s.leases[p].seconds + leaseSeconds)
  }

  ghost function Protected(s: Store, now: int, leaseSeconds: int): Payload -> bool
  {
    (p: Payload) => !Unprotected(s, now, leaseSeconds)(p)
  }

  lemma {:induction false} RemoveFirstMiddle(a: seq<Payload>, p: Payload, b: seq<Payload>)
    requires p !in a
    ensures RemoveFirst(a + [p] + b, p) == a + b
  {
    if a == [] {
      assert a + [p] + b == [p] + b && a + b == b;
    } else {
      RemoveFirstMiddle(a[1..], p, b);
      assert (a + [p] + b)[1..] == a[1..] + [p] + b;
    }
  }

  lemma FilterFirst<A>(f: A -> bool, x: A, rest: seq<A>)
    ensures Filter(f, [x] + rest) == (if f(x) then [x] else []) + Filter(f, rest)
  {
    FilterConcat(f, [x], rest);
    assert Filter(f, [x][..0]) == [];
  }

  lemma TakeBackMiddle(s: Store, kept: seq<Payload>, p: Payload, rest: seq<Payload>)
    requires s.processing == kept + [p] + rest && p !in kept
    ensures p in s.processing
    ensures TakenBack(s, p) == Store(s.main + [p], kept + rest, s.leases - {p}, s.owners - {p})
  {
    RemoveFirstMiddle(kept, p, rest);
    assert (kept + [p] + rest)[|kept|] == p;
  }

  /** The pass has taken `taken`, and has left `left` between what it had looked at and the rest. */
  ghost predicate PassLeaves(s: Store, kept: seq<Payload>, rest: seq<Payload>, taken: seq<Payload>,
                             left: seq<Payload>, after: Store)
  {
    && after.main == s.main + taken && after.processing == kept + left + rest
    && after.leases == s.leases - Elements(taken) && after.owners == s.owners - Elements(taken)
  }

  lemma NothingTaken(s: Store, kept: seq<Payload>, rest: seq<Payload>)
    requires s.processing == kept + rest
    ensures PassLeaves(s, kept, rest, [], [], s)
  {
    assert s.main + [] == s.main && kept + [] == kept;
    assert Elements<Payload>([]) == {};
  }

  lemma TakenFirst(s: Store, next: Store, kept: seq<Payload>, p: Payload, rest: seq<Payload>, taken: seq<Payload>,
                   left: seq<Payload>, after: Store)
    requires next.main == s.main + [p] && next.leases == s.leases - {p} && next.owners == s.owners - {p}
    requires PassLeaves(next, kept, rest, taken, left, after)
    ensures PassLeaves(s, kept, rest, [p] + taken, left, after)
  {
    assert s.main + [p] + taken == s.main + ([p] + taken);
    assert Elements([p] + taken) == {p} + Elements(taken);
  }

  lemma LeftFirst(s: Store, kept: seq<Payload>, p: Payload, rest: seq<Payload>, taken: seq<Payload>,
                  left: seq<Payload>, after: Store)
    requires PassLeaves(s, kept + [p], rest, taken, left, after)
    ensures PassLeaves(s, kept, rest, taken, [p] + left, after)
  {
    assert (kept + [p]) + left == kept + ([p] + left);
  }

  lemma UnprotectedIsRecoverable(s: Store, p: Payload, now: int, leaseSeconds: int)
    ensures Unprotected(s, now, leaseSeconds)(p) <==> Recoverable(s, p, now, leaseSeconds)
  {
  }

  lemma TakingKeepsProtection(s: Store, kept: seq<Payload>, p: Payload, later: seq<Payload>, rest: seq<Payload>,
                              now: int, leaseSeconds: int)
    requires s.processing == kept + [p] + (later + rest) && NoDuplicates(s.processing)
    ensures
      var next := TakenBack(s, p);
      && next.processing == kept + later + rest && NoDuplicates(next.processing)
      && Filter(Unprotected(s, now, leaseSeconds), later) == Filter(Unprotected(next, now, leaseSeconds), later)
      && Filter(Protected(s, now, leaseSeconds), later) == Filter(Protected(next, now, leaseSeconds), later)
  {
    WithoutOne(kept, p, later + rest);
    TakeBackMiddle(s, kept, p, later + rest);
    assert kept + later + rest == kept + (later + rest);
    assert forall x :: x in later ==> x in later + rest;
    SameOn(Unprotected(s, now, leaseSeconds), Unprotected(TakenBack(s, p), now, leaseSeconds), later);
    SameOn(Protected(s, now, leaseSeconds), Protected(TakenBack(s, p), now, leaseSeconds), later);
  }

  lemma {:induction false} PassOver(s: Store, kept: seq<Payload>, snapshot: seq<Payload>, rest: seq<Payload>,
                                    now: int, leaseSeconds: int)
    requires s.processing == kept + snapshot + rest && NoDuplicates(s.processing)
    ensures
      var taken := Filter(Unprotected(s, now, leaseSeconds), snapshot);
      var left := Filter(Protected(s, now, leaseSeconds), snapshot);
      && PassLeaves(s, kept, rest, taken, left, Recovered(s, snapshot, now, leaseSeconds))
      && RecoveredCount(s, snapshot, now, leaseSeconds) == |taken|
    decreases |snapshot|
  {
    if snapshot == [] {
      NothingTaken(s, kept, rest);
    } else {
      var p, later := snapshot[0], snapshot[1..];
      assert snapshot == [p] + later && s.processing == kept + [p] + (later + rest);
      var f, g := Unprotected(s, now, leaseSeconds), Protected(s, now, leaseSeconds);
      FilterFirst(f, p, later);
      FilterFirst(g, p, later);
      UnprotectedIsRecoverable(s, p, now, leaseSeconds);
      WithoutOne(kept, p, later + rest);
      if f(p) {
        TakeBackMiddle(s, kept, p, later + rest);
        TakingKeepsProtection(s, kept, p, later, rest, now, leaseSeconds);
        PassOver(TakenBack(s, p), kept, later, rest, now, leaseSeconds);
        TakenFirst(s, TakenBack(s, p), kept, p, rest, Filter(f, later), Filter(g, later),
                   Recovered(s, snapshot, now, leaseSeconds));
        assert [] + Filter(g, later) == Filter(g, later);
      } else {
        assert s.processing == (kept + [p]) + later + rest;
        PassOver(s, kept + [p], later, rest, now, leaseSeconds);
        LeftFirst(s, kept, p, rest, Filter(f, later), Filter(g, later), Recovered(s, snapshot, now, leaseSeconds));
        assert [] + Filter(f, later) == Filter(f, later);
      }
    }
  }

  lemma WithoutOne<T>(a: seq<T>, x: T, b: seq<T>)
    requires NoDuplicates(a + [x] + b)
    ensures NoDuplicates(a + b) && x !in a && x !in b
  {
    var all := a + [x] + b;
    forall i, j | 0 <= i < j < |a + b| ensures (a + b)[i] != (a + b)[j] {
      assert all[if i < |a| then i else i + 1] != all[if j < |a| then j else j + 1];
    }
    forall i | 0 <= i < |a| ensures a[i] != x {
      assert all[i] != all[|a|];
    }
    forall i | 0 <= i < |b| ensures b[i] != x {
      assert all[|a|] != all[|a| + 1 + i];
    }
  }

  lemma {:induction false} SameOn<A>(f: A -> bool, g: A -> bool, xs: seq<A>)
    requires forall x :: x in xs ==> f(x) == g(x)
    ensures Filter(f, xs) == Filter(g, xs)
  {
    if xs != [] {
      var n := |xs| - 1;
      assert xs == xs[..n] + [xs[n]];
      SameOn(f, g, xs[..n]);
    }
  }

  /** A recovery pass takes back exactly the deliveries that nothing protects among the first `limit`
      in processing. They go to the right end of the main list in the order they had, without lease
      or owner; everything else stays where it was, and they are counted. */
  lemma RecoveryTakesUnprotected(s: Store, limit: nat, now: int, leaseSeconds: int)
    requires NoDuplicates(s.processing)
    ensures
      var seen := if limit <= |s.processing| then s.processing[..limit] else s.processing;
      var taken := Filter(Unprotected(s, now, leaseSeconds), seen);
      var after := Recovered(s, Prefix(s.processing, limit), now, leaseSeconds);
      && after.main == s.main + taken
      && after.processing == Filter(Protected(s, now, leaseSeconds), seen) + s.processing[|seen|..]
      && after.leases == s.leases - Elements(taken) && after.owners == s.owners - Elements(taken)
      && RecoveredCount(s, Prefix(s.processing, limit), now, leaseSeconds) == |taken|
  {
    var seen := Prefix(s.processing, limit);
    var rest := s.processing[|seen|..];
    assert s.processing == [] + seen + rest;
    PassOver(s, [], seen, rest, now, leaseSeconds);
    var left := Filter(Protected(s, now, leaseSeconds), seen);
    assert [] + left + rest == left + rest;
  }

  // ----- leases and owners over whole runs -----

  datatype Whole = Do(op: Operation) | Recover(now: int, limit: nat)

  function Done(s: Store, x: Whole, leaseSeconds: int): Store
  {
    match x
    case Do(Enq(p)) => LpushMain(s, p)
    case Do(Deq(now, worker)) => if s.main == [] then s else Dequeued(s, now, worker)
    case Do(AckOf(p)) => Acked(s, p)
    case Recover(now, limit) => Recovered(s, Prefix(s.processing, limit), now, leaseSeconds)
  }

  function Played(s: Store, xs: seq<Whole>, leaseSeconds: int): Store
  {
    if xs == [] then s else Done(Played(s, xs[..|xs| - 1], leaseSeconds), xs[|xs| - 1], leaseSeconds)
  }

  /** Every payload is in one place, once, and has a lease and an owner exactly while it is in
      processing. */
  ghost predicate Tidy(s: Store)
  {
    && NoDuplicates(s.main) && NoDuplicates(s.processing)
    && (forall p :: p in s.main ==> p !in s.processing)
    && (forall p :: p in s.leases <==> p in s.processing)
    && (forall p :: p in s.owners <==> p in s.processing)
  }

  /** Every enqueued payload is new. */
  ghost predicate EnqueuesNew(s: Store, xs: seq<Whole>, leaseSeconds: int)
  {
    forall i :: 0 <= i < |xs| && xs[i].Do? && xs[i].op.Enq? ==>
      !Mentioned(Played(s, xs[..i], leaseSeconds), xs[i].op.p)
  }

  lemma {:induction false} RemoveFirstOfDistinct(ps: seq<Payload>, p: Payload)
    requires NoDuplicates(ps)
    ensures NoDuplicates(RemoveFirst(ps, p))
    ensures forall x :: x in RemoveFirst(ps, p) <==> x in ps && x != p
  {
    if ps != [] {
      assert ps == [ps[0]] + ps[1..];
      if ps[0] != p {
        RemoveFirstOfDistinct(ps[1..], p);
        var rest := RemoveFirst(ps[1..], p);
        forall j | 0 <= j < |rest| ensures rest[j] != ps[0] {
          assert rest[j] in rest;
        }
      }
    }
  }

  lemma DequeueKeepsTidy(s: Store, now: int, worker: Id)
    requires Tidy(s) && s.main != []
    ensures Tidy(Dequeued(s, now, worker))
  {
    var p, front := s.main[|s.main| - 1], s.main[..|s.main| - 1];
    assert s.main == front + [p];
    assert p in s.main && p !in front;
  }

  lemma AckKeepsTidy(s: Store, p: Payload)
    requires Tidy(s)
    ensures Tidy(Acked(s, p))
  {
    RemoveFirstOfDistinct(s.processing, p);
  }

  lemma TakeBackKeepsTidy(s: Store, p: Payload)
    requires Tidy(s) && p in s.processing
    ensures Tidy(TakenBack(s, p))
  {
    RemoveFirstOfDistinct(s.processing, p);
  }

  lemma {:induction false} PassKeepsTidy(s: Store, snapshot: seq<Payload>, now: int, leaseSeconds: int)
    requires Tidy(s)
    ensures Tidy(Recovered(s, snapshot, now, leaseSeconds))
    decreases |snapshot|
  {
    if snapshot != [] {
      var p := snapshot[0];
      if Recoverable(s, p, now, leaseSeconds) && p in s.processing {
        TakeBackKeepsTidy(s, p);
        PassKeepsTidy(TakenBack(s, p), snapshot[1..], now, leaseSeconds);
      } else {
        PassKeepsTidy(s, snapshot[1..], now, leaseSeconds);
      }
    }
  }

  lemma EnqueueKeepsTidy(s: Store, p: Payload)
    requires Tidy(s) && !Mentioned(s, p)
    ensures Tidy(LpushMain(s, p))
  {
  }

  /** From an empty queue, over every sequence of whole operations - enqueues of new payloads,
      dequeues, acknowledgements of anything, recovery passes - each payload stays in one place and
      has a lease and an owner exactly while it is in processing. */
  lemma {:induction false} StoreStaysTidy(xs: seq<Whole>, leaseSeconds: int)
    requires EnqueuesNew(EmptyStore(), xs, leaseSeconds)
    ensures Tidy(Played(EmptyStore(), xs, leaseSeconds))
  {
    if xs != [] {
      var n := |xs| - 1;
      var s := Played(EmptyStore(), xs[..n], leaseSeconds);
      forall i | 0 <= i < n ensures xs[..n][..i] == xs[..i] {}
      StoreStaysTidy(xs[..n], leaseSeconds);
      match xs[n] {
        case Do(Enq(p)) => EnqueueKeepsTidy(s, p);
        case Do(Deq(now, worker)) =>
          if s.main != [] {
            DequeueKeepsTidy(s, now, worker);
          }
        case Do(AckOf(p)) => AckKeepsTidy(s, p);
        case Recover(now, limit) => PassKeepsTidy(s, Prefix(s.processing, limit), now, leaseSeconds);
      }
    }
  }

  // ----- whose delivery it is -----

  /** Operation `i` was the dequeue that handed `p` out, to the owner and at the time on record. */
  ghost predicate HandedOut(xs: seq<Whole>, leaseSeconds: int, i: int, p: Payload, lease: Lease, owner: Id)
  {
    && 0 <= i < |xs| && xs[i].Do? && xs[i].op.Deq?
    && lease == At(xs[i].op.now) && owner == xs[i].op.worker
    && var main := Played(EmptyStore(), xs[..i], leaseSeconds).main;
       main != [] && main[|main| - 1] == p
  }

  /** What leases and owners remain on record are those there were. */
  ghost predicate RecordsKept(s: Store, t: Store)
  {
    forall p :: p in t.processing ==>
      p in s.processing && p in t.leases && p in s.leases && t.leases[p] == s.leases[p]
      && p in t.owners && p in s.owners && t.owners[p] == s.owners[p]
  }

  lemma {:induction false} PassKeepsRecords(s: Store, snapshot: seq<Payload>, now: int, leaseSeconds: int)
    requires Tidy(s)
    ensures RecordsKept(s, Recovered(s, snapshot, now, leaseSeconds))
    decreases |snapshot|
  {
    if snapshot != [] {
      var p := snapshot[0];
      if Recoverable(s, p, now, leaseSeconds) && p in s.processing {
        TakeBackKeepsTidy(s, p);
        RemoveFirstOfDistinct(s.processing, p);
        PassKeepsRecords(TakenBack(s, p), snapshot[1..], now, leaseSeconds);
      } else {
        PassKeepsRecords(s, snapshot[1..], now, leaseSeconds);
      }
    }
  }

  lemma OthersKeepRecords(s: Store, x: Whole, leaseSeconds: int)
    requires Tidy(s) && !(x.Do? && x.op.Deq?)
    ensures RecordsKept(s, Done(s, x, leaseSeconds))
  {
    match x {
      case Do(Enq(p)) =>
      case Do(AckOf(p)) => RemoveFirstOfDistinct(s.processing, p);
      case Recover(now, limit) => PassKeepsRecords(s, Prefix(s.processing, limit), now, leaseSeconds);
    }
  }

  lemma RecordStays(s: Store, x: Whole, leaseSeconds: int, p: Payload)
    requires Tidy(s) && p in Done(s, x, leaseSeconds).processing
    requires !(x.Do? && x.op.Deq? && s.main != [] && s.main[|s.main| - 1] == p)
    ensures
      var t := Done(s, x, leaseSeconds);
      && p in s.processing && p in t.leases && p in s.leases && t.leases[p] == s.leases[p]
      && p in t.owners && p in s.owners && t.owners[p] == s.owners[p]
  {
    if !(x.Do? && x.op.Deq?) {
      OthersKeepRecords(s, x, leaseSeconds);
    }
  }

  /** The lease and owner of a payload in processing are those of a dequeue that handed it out. */
  lemma {:induction false} DeliveryIsOnRecord(xs: seq<Whole>, leaseSeconds: int, p: Payload)
    requires EnqueuesNew(EmptyStore(), xs, leaseSeconds)
    requires p in Played(EmptyStore(), xs, leaseSeconds).processing
    ensures
      var s := Played(EmptyStore(), xs, leaseSeconds);
      p in s.leases && p in s.owners && exists i :: HandedOut(xs, leaseSeconds, i, p, s.leases[p], s.owners[p])
  {
    var n := |xs| - 1;
    var before, after := Played(EmptyStore(), xs[..n], leaseSeconds), Played(EmptyStore(), xs, leaseSeconds);
    forall i | 0 <= i < n ensures xs[..n][..i] == xs[..i] {}
    StoreStaysTidy(xs[..n], leaseSeconds);
    StoreStaysTidy(xs, leaseSeconds);
    if xs[n].Do? && xs[n].op.Deq? && before.main != [] && before.main[|before.main| - 1] == p {
      assert HandedOut(xs, leaseSeconds, n, p, after.leases[p], after.owners[p]);
    } else {
      RecordStays(before, xs[n], leaseSeconds, p);
      DeliveryIsOnRecord(xs[..n], leaseSeconds, p);
      var i :| HandedOut(xs[..n], leaseSeconds, i, p, before.leases[p], before.owners[p]);
      assert HandedOut(xs, leaseSeconds, i, p, after.leases[p], after.owners[p]);
    }
  }
}
