/** Worked days, streaks, rest and adjacent repeats: what those families say about a
    valuation. */
module ReadingDates {
  import opened Options
  import opened Sequences
  import opened Sorting
  import opened LinearModel
  import opened DateRuns
  import opened Scheduling
  import opened Costs
  import opened Encoding
  import opened Reading

  lemma SlotIsKnown(q: Request, c: Choice)
    requires WellFormed(q) && CanChoose(q, c)
    ensures SlotOf(q, c) in q.slots && SlotOf(q, c).id == c.req.slotId
  {
    var t :| t in q.slots && t.id == c.req.slotId;
    FindSlotFinds(q.slots, t);
  }

  lemma SlotDatesMembers(q: Request)
    ensures Increasing(SlotDates(q))
    ensures forall d :: d in SlotDates(q) <==> exists t :: t in q.slots && t.localDate == d
  {
    var all := seq(|q.slots|, i requires 0 <= i < |q.slots| => q.slots[i].localDate);
    SortedSetIncreasing(all);
    forall d ensures d in all <==> exists t :: t in q.slots && t.localDate == d {
      if t :| t in q.slots && t.localDate == d {
        var i :| 0 <= i < |q.slots| && q.slots[i] == t;
        assert all[i] == d;
      }
    }
  }

  lemma WorkDatesAreSlotDates(q: Request, s: Schedule, e: Employee)
    requires WellFormed(q) && OnlyEligible(q, s)
    ensures forall d :: d in WorkDates(q, s, e) ==> d in SlotDates(q) && (e, d) in WorkKeys(q)
  {
    SlotDatesMembers(q);
    KeysOfChoosable(q, ByEmployeeDate(q));
    forall d | d in WorkDates(q, s, e) ensures d in SlotDates(q) && (e, d) in WorkKeys(q) {
      var c :| c in s && c.emp == e && DateOf(q, c) == d;
      SlotIsKnown(q, c);
      assert ByEmployeeDate(q)(c) == (e, d);
    }
  }

  // ----- worked days -----

  ghost predicate WorkedRead(q: Request, val: Valuation, s: Schedule, key: (Employee, int))
  {
    val(Worked(key.0, key.1)) == if key.1 in WorkDates(q, s, key.0) then 1 else 0
  }

  lemma ReadWorkedAt(q: Request, val: Valuation, s: Schedule, key: (Employee, int))
    requires Basis(q, val, s)
    ensures Satisfies(val, WorkedUnit(q)(key)) <==> WorkedRead(q, val, s, key)
  {
    var vs := VarsUnder(Choosable(q), ByEmployeeDate(q), key);
    var here := Under(s, ByEmployeeDate(q), key);
    LoadUnder(q, val, s, ByEmployeeDate(q), key);
    FlagHolds(val, vs, Worked(key.0, key.1), |here|);
    var m := WorkedUnit(q)(key);
    assert m.decls[0] in m.decls;
    if key.1 in WorkDates(q, s, key.0) {
      var c :| c in s && c.emp == key.0 && DateOf(q, c) == key.1;
      assert c in here;
    } else {
      assert forall c :: c in here ==> key.1 in WorkDates(q, s, key.0);
      assert here == {};
    }
  }

  ghost predicate AllWorkedRead(q: Request, val: Valuation, s: Schedule)
  {
    forall key :: key in WorkKeys(q) ==> WorkedRead(q, val, s, key)
  }

  lemma ReadWorked(q: Request, val: Valuation, s: Schedule)
    requires Basis(q, val, s)
    ensures Satisfies(val, WorkedFamily(q)) <==> AllWorkedRead(q, val, s)
  {
    SatisfiesFamily(val, WorkedUnit(q), WorkKeys(q));
    forall key ensures Satisfies(val, WorkedUnit(q)(key)) <==> WorkedRead(q, val, s, key) {
      ReadWorkedAt(q, val, s, key);
    }
  }

  // ----- streaks -----

  lemma {:induction false} SumOfWorked(val: Valuation, e: Employee, dates: seq<int>, worked: set<int>)
    requires forall d :: d in dates ==> val(Worked(e, d)) == Indicator(worked)(d)
    ensures Sum(val, Map(WorkedVar(e), dates)) == Sum(Indicator(worked), dates)
  {
    if dates != [] {
      var n := |dates| - 1;
      SumOfWorked(val, e, dates[..n], worked);
      assert Map(WorkedVar(e), dates)[..n] == Map(WorkedVar(e), dates[..n]);
    }
  }

  /** The variables of a stretch of days add up to the number of days worked in it. */
  lemma WorkedVarsCount(q: Request, val: Valuation, s: Schedule, e: Employee, dates: seq<int>)
    requires Basis(q, val, s) && AllWorkedRead(q, val, s) && NoDuplicates(dates)
    ensures Value(val, SumOf(WorkedVars(q, e, dates))) == |set d | d in WorkDates(q, s, e) && d in dates|
    ensures (exists d :: d in WorkDates(q, s, e) && d in dates) ==> WorkedVars(q, e, dates) != []
  {
    var worked := WorkDates(q, s, e);
    var days := Filter(HasWork(q, e), dates);
    FilterMembers(HasWork(q, e), dates);
    FilterNoDuplicates(HasWork(q, e), dates);
    forall d | d in days ensures val(Worked(e, d)) == Indicator(worked)(d) {
      assert WorkedRead(q, val, s, (e, d));
    }
    SumOfWorked(val, e, days, worked);
    ValueOfSum(val, WorkedVars(q, e, dates));
    CountIsCardinality(worked, days);
    ChoosableMembers(q);
    WorkDatesAreSlotDates(q, s, e);
    assert (set d | d in worked && d in days) == set d | d in worked && d in dates;
    if d :| d in worked && d in dates {
      assert d in days;
    }
  }

  /** Not all days of a duplicate-free list are worked when fewer are worked than it has. */
  lemma AllOrFewer(worked: set<int>, dates: seq<int>)
    requires NoDuplicates(dates)
    ensures |set d | d in worked && d in dates| < |dates| <==> exists d :: d in dates && d !in worked
  {
    ElementsCount(dates);
    var all := Elements(dates);
    var some := set d | d in worked && d in dates;
    if d :| d in dates && d !in worked {
      SubsetCardinality(some, all - {d});
    } else {
      assert some == all;
    }
  }

  lemma WindowDays(run: Run, window: seq<int>, limit: int, i: int)
    requires ConsecutiveDays(run) && 0 < limit && 0 <= i && i + limit < |run|
    requires window == run[i..i + limit + 1]
    ensures NoDuplicates(window)
    ensures forall d :: d in window <==> run[i] <= d <= run[i] + limit
  {
    assert forall j :: 0 <= j < |window| ==> window[j] == run[i] + j;
    forall d | run[i] <= d <= run[i] + limit ensures d in window {
      assert window[d - run[i]] == d;
    }
  }

  lemma ReadWindow(q: Request, val: Valuation, s: Schedule, e: Employee, run: Run, limit: int, i: int)
    requires Basis(q, val, s) && AllWorkedRead(q, val, s)
    requires ConsecutiveDays(run) && 0 < limit && 0 <= i && i + limit < |run|
    ensures Satisfies(val, WindowUnit(q, e, run, limit)(i)) <==> !ExceedsStreak(q, s, e, run[i], limit)
  {
    var window := run[i..i + limit + 1];
    WindowDays(run, window, limit, i);
    WorkedVarsCount(q, val, s, e, window);
    AllOrFewer(WorkDates(q, s, e), window);
    AtMostSumHolds(val, WorkedVars(q, e, window), limit);
    assert WindowUnit(q, e, run, limit)(i) == AtMostIfAny(WorkedVars(q, e, window), limit);
    if WorkedVars(q, e, window) == [] {
      assert run[i] in window && run[i] !in WorkDates(q, s, e);
    }
  }

  ghost predicate RunRead(q: Request, s: Schedule, e: Employee, run: Run, limit: int)
  {
    forall i :: 0 <= i < |run| && i + limit < |run| ==> !ExceedsStreak(q, s, e, run[i], limit)
  }

  lemma ReadRun(q: Request, val: Valuation, s: Schedule, e: Employee, run: Run, limit: int)
    requires Basis(q, val, s) && AllWorkedRead(q, val, s)
    requires ConsecutiveDays(run) && 0 < limit
    ensures Satisfies(val, RunUnit(q, e, limit)(run)) <==> RunRead(q, s, e, run, limit)
  {
    var unit := WindowUnit(q, e, run, limit);
    SatisfiesRange(val, unit, 0, |run| - limit);
    forall i | 0 <= i && i + limit < |run|
      ensures Satisfies(val, unit(i)) <==> !ExceedsStreak(q, s, e, run[i], limit)
    {
      ReadWindow(q, val, s, e, run, limit, i);
    }
  }

  ghost predicate NoStreak(q: Request, s: Schedule, e: Employee, limit: int)
  {
    forall first :: !ExceedsStreak(q, s, e, first, limit)
  }

  lemma ReadStreakOf(q: Request, val: Valuation, s: Schedule, e: Employee, limit: int)
    requires Basis(q, val, s) && AllWorkedRead(q, val, s) && 0 < limit
    ensures Satisfies(val, StreakUnit(q, limit)(e)) <==> NoStreak(q, s, e, limit)
  {
    var dates := SlotDates(q);
    SatisfiesFamily(val, RunUnit(q, e, limit), Runs(dates));
    RunsAreMaximal(dates);
    forall run | run in Runs(dates)
      ensures Satisfies(val, RunUnit(q, e, limit)(run)) <==> RunRead(q, s, e, run, limit)
    {
      ReadRun(q, val, s, e, run, limit);
    }
    if forall run :: run in Runs(dates) ==> RunRead(q, s, e, run, limit) {
      forall first ensures !ExceedsStreak(q, s, e, first, limit) {
        if ExceedsStreak(q, s, e, first, limit) {
          StreakLiesInRun(q, val, s, e, first, limit);
          assert false;
        }
      }
    }
  }

  /** A streak that is too long shows up in one of the runs. */
  lemma StreakLiesInRun(q: Request, val: Valuation, s: Schedule, e: Employee, first: int, limit: int)
    requires Basis(q, val, s) && 0 < limit && ExceedsStreak(q, s, e, first, limit)
    ensures exists run :: run in Runs(SlotDates(q)) && !RunRead(q, s, e, run, limit)
  {
    var dates := SlotDates(q);
    ChoosableMembers(q);
    WorkDatesAreSlotDates(q, s, e);
    SlotDatesMembers(q);
    assert BlockIn(dates, first, first + limit);
    BlockIsStretch(dates, first, first + limit);
    var run :| run in Runs(dates) && StretchOf(run, first, first + limit);
    var i :| 0 <= i && i + limit < |run| && run[i] == first;
    assert !RunRead(q, s, e, run, limit);
  }

  lemma ReadStreak(q: Request, val: Valuation, s: Schedule)
    requires Basis(q, val, s) && AllWorkedRead(q, val, s)
    ensures Satisfies(val, StreakFamily(q)) <==> WithinStreakLimit(q, s)
  {
    if q.maxConsecutiveShifts.Some? && q.maxConsecutiveShifts.value > 0 {
      var limit := q.maxConsecutiveShifts.value;
      SatisfiesFamily(val, StreakUnit(q, limit), q.employees);
      forall e ensures Satisfies(val, StreakUnit(q, limit)(e)) <==> NoStreak(q, s, e, limit) {
        ReadStreakOf(q, val, s, e, limit);
      }
    }
  }

  // ----- rest -----

  /** An employee and a slot hold one choice exactly when the employee works there. */
  lemma EmployeePresence(q: Request, val: Valuation, s: Schedule, e: Employee, slotId: Id)
    requires Basis(q, val, s) && OneRolePerSlot(s) && e in q.employees
    ensures Value(val, SumOf(VarsUnder(Choosable(q), ByEmployeeSlot(), (e, slotId))))
      == if WorksIn(s, e.id, slotId) then 1 else 0
    ensures WorksIn(s, e.id, slotId) ==> VarsUnder(Choosable(q), ByEmployeeSlot(), (e, slotId)) != []
  {
    LoadUnder(q, val, s, ByEmployeeSlot(), (e, slotId));
    PresenceInSlot(q, val, s, e.id, slotId);
    ChoosableMembers(q);
    assert Under(s, ByEmployeeSlot(), (e, slotId)) == Under(s, ByEmployeeIdSlot(), (e.id, slotId)) by {
      forall c | c in s && c.emp.id == e.id ensures c.emp == e {
        assert CanChoose(q, c);
      }
    }
  }

  /** Two timed slots are worked together only with enough rest between them. */
  ghost predicate PairRested(s: Schedule, e: Employee, t: Slot, u: Slot, hours: int)
    requires Timed(t) && Timed(u)
  {
    WorksIn(s, e.id, t.id) && WorksIn(s, e.id, u.id) ==>
      RestedBetween(if StartsFirst(u, t) then u else t, if StartsFirst(u, t) then t else u, hours)
  }

  lemma ReadRestPiece(q: Request, val: Valuation, s: Schedule, e: Employee, t: Slot, u: Slot, hours: int)
    requires Basis(q, val, s) && OneRolePerSlot(s) && e in q.employees
    requires Timed(t) && Timed(u) && SlotBefore(t, u)
    ensures Satisfies(val, RestPiece(q, e, t, u, hours)) <==> PairRested(s, e, t, u, hours)
  {
    var (earlier, later) := if t.startsAt.value <= u.startsAt.value then (t, u) else (u, t);
    EmployeePresence(q, val, s, e, earlier.id);
    EmployeePresence(q, val, s, e, later.id);
    var varsA := VarsUnder(Choosable(q), ByEmployeeSlot(), (e, earlier.id));
    var varsB := VarsUnder(Choosable(q), ByEmployeeSlot(), (e, later.id));
    SumOfConcat(val, varsA, varsB);
    AtMostSumHolds(val, varsA + varsB, 1);
  }

  lemma ReadRestAgainst(q: Request, val: Valuation, s: Schedule, e: Employee, slots: seq<Slot>, i: int, j: int,
                        hours: int)
    requires Basis(q, val, s) && OneRolePerSlot(s) && e in q.employees
    requires 0 <= i < j < |slots| && Timed(slots[i]) && Timed(slots[j]) && SlotBefore(slots[i], slots[j])
    ensures Satisfies(val, RestAgainst(q, e, slots, i, hours)(j)) <==> PairRested(s, e, slots[i], slots[j], hours)
  {
    ReadRestPiece(q, val, s, e, slots[i], slots[j], hours);
    assert RestAgainst(q, e, slots, i, hours)(j) == RestPiece(q, e, slots[i], slots[j], hours);
  }

  ghost predicate AllTimed(slots: seq<Slot>)
  {
    forall j :: 0 <= j < |slots| ==> Timed(slots[j])
  }

  ghost predicate InOrder(slots: seq<Slot>)
  {
    forall j, k :: 0 <= j < k < |slots| ==> SlotBefore(slots[j], slots[k])
  }

  ghost predicate RestedFrom(s: Schedule, e: Employee, slots: seq<Slot>, i: int, hours: int)
    requires 0 <= i < |slots| && AllTimed(slots)
  {
    forall j :: i < j < |slots| ==> PairRested(s, e, slots[i], slots[j], hours)
  }

  lemma RestFromIsFamily(q: Request, val: Valuation, e: Employee, slots: seq<Slot>, i: int, hours: int)
    ensures Satisfies(val, RestFrom(q, e, slots, hours)(i)) <==>
      forall j :: i < j < |slots| ==> Satisfies(val, RestAgainst(q, e, slots, i, hours)(j))
  {
    SatisfiesRange(val, RestAgainst(q, e, slots, i, hours), i + 1, |slots|);
  }

  lemma ReadRestFrom(q: Request, val: Valuation, s: Schedule, e: Employee, slots: seq<Slot>, i: int, hours: int)
    requires Basis(q, val, s) && OneRolePerSlot(s) && e in q.employees
    requires AllTimed(slots) && InOrder(slots) && 0 <= i < |slots|
    ensures Satisfies(val, RestFrom(q, e, slots, hours)(i)) <==> RestedFrom(s, e, slots, i, hours)
  {
    var unit := RestAgainst(q, e, slots, i, hours);
    RestFromIsFamily(q, val, e, slots, i, hours);
    forall j | i < j < |slots| ensures Satisfies(val, unit(j)) <==> PairRested(s, e, slots[i], slots[j], hours) {
      ReadRestAgainst(q, val, s, e, slots, i, j, hours);
    }
  }

  ghost predicate EmployeeRested(q: Request, s: Schedule, e: Employee, hours: int)
  {
    forall t, u :: t in q.slots && u in q.slots && Timed(t) && Timed(u) && StartsFirst(t, u)
      && WorksIn(s, e.id, t.id) && WorksIn(s, e.id, u.id)
      ==> RestedBetween(t, u, hours)
  }

  lemma TimedSlotsInOrder(q: Request)
    requires WellFormed(q) && SlotsInOrder(q)
    ensures forall t :: t in TimedSlots(q) <==> t in q.slots && Timed(t)
    ensures AllTimed(TimedSlots(q)) && InOrder(TimedSlots(q))
  {
    FilterMembers(IsTimed(), q.slots);
    FilterNoDuplicates(IsTimed(), q.slots);
    FilterOrdered(SlotLeq(), IsTimed(), q.slots);
    var slots := TimedSlots(q);
    forall j | 0 <= j < |slots| ensures Timed(slots[j]) {
      assert slots[j] in slots;
    }
    forall j, k | 0 <= j < k < |slots| ensures SlotBefore(slots[j], slots[k]) {
      assert SlotLeq()(slots[j], slots[k]);
      assert slots[j] in q.slots && slots[k] in q.slots && slots[j] != slots[k];
    }
  }

  lemma ReadRestOf(q: Request, val: Valuation, s: Schedule, e: Employee, hours: int)
    requires Basis(q, val, s) && OneRolePerSlot(s) && e in q.employees && SlotsInOrder(q)
    ensures Satisfies(val, RestUnit(q, hours)(e)) <==> EmployeeRested(q, s, e, hours)
  {
    var slots := TimedSlots(q);
    TimedSlotsInOrder(q);
    var unit := RestFrom(q, e, slots, hours);
    SatisfiesRange(val, unit, 0, |slots|);
    forall i | 0 <= i < |slots| ensures Satisfies(val, unit(i)) <==> RestedFrom(s, e, slots, i, hours) {
      ReadRestFrom(q, val, s, e, slots, i, hours);
    }
    RestedPairwise(q, s, e, slots, hours);
  }

  /** Comparing each slot with the later ones of the list covers every pair of slots. */
  lemma RestedPairwise(q: Request, s: Schedule, e: Employee, slots: seq<Slot>, hours: int)
    requires forall t :: t in slots <==> t in q.slots && Timed(t)
    requires AllTimed(slots) && InOrder(slots)
    ensures (forall i :: 0 <= i < |slots| ==> RestedFrom(s, e, slots, i, hours)) <==> EmployeeRested(q, s, e, hours)
  {
    if EmployeeRested(q, s, e, hours) {
      forall i, j | 0 <= i < j < |slots| ensures PairRested(s, e, slots[i], slots[j], hours) {
        assert slots[i] in slots && slots[j] in slots;
      }
    }
    if forall i :: 0 <= i < |slots| ==> RestedFrom(s, e, slots, i, hours) {
      forall t, u | t in q.slots && u in q.slots && Timed(t) && Timed(u) && StartsFirst(t, u)
          && WorksIn(s, e.id, t.id) && WorksIn(s, e.id, u.id)
        ensures RestedBetween(t, u, hours)
      {
        assert t in slots && u in slots;
        var i :| 0 <= i < |slots| && slots[i] == t;
        var j :| 0 <= j < |slots| && slots[j] == u;
        if i < j {
          assert RestedFrom(s, e, slots, i, hours);
          assert PairRested(s, e, slots[i], slots[j], hours);
        } else {
          assert i != j;
          assert RestedFrom(s, e, slots, j, hours);
          assert PairRested(s, e, slots[j], slots[i], hours);
        }
      }
    }
  }

  lemma ReadRest(q: Request, val: Valuation, s: Schedule)
    requires Basis(q, val, s) && OneRolePerSlot(s) && SlotsInOrder(q)
    ensures Satisfies(val, RestFamily(q)) <==> WellRested(q, s)
  {
    if q.minRestHours.Some? && q.minRestHours.value > 0 {
      var hours := q.minRestHours.value;
      SatisfiesFamily(val, RestUnit(q, hours), q.employees);
      forall e | e in q.employees
        ensures Satisfies(val, RestUnit(q, hours)(e)) <==> EmployeeRested(q, s, e, hours)
      {
        ReadRestOf(q, val, s, e, hours);
      }
    }
  }

  // ----- adjacent repeats -----

  ghost predicate AdjacentRead(q: Request, val: Valuation, s: Schedule, e: Employee, first: int, second: int)
  {
    second - first == 1 && (e, first) in WorkKeys(q) && (e, second) in WorkKeys(q) ==>
      val(AdjacentRepeat(e, first)) ==
        if first in WorkDates(q, s, e) && second in WorkDates(q, s, e) then 1 else 0
  }

  lemma ReadAdjacentPiece(q: Request, val: Valuation, s: Schedule, e: Employee, first: int, second: int)
    requires Basis(q, val, s) && AllWorkedRead(q, val, s)
    ensures Satisfies(val, AdjacentPiece(q, e, first, second)) <==> AdjacentRead(q, val, s, e, first, second)
  {
    if second - first == 1 && (e, first) in WorkKeys(q) && (e, second) in WorkKeys(q) {
      assert WorkedRead(q, val, s, (e, first)) && WorkedRead(q, val, s, (e, second));
      BothHolds(val, Worked(e, first), Worked(e, second), AdjacentRepeat(e, first));
      var m := AdjacentPiece(q, e, first, second);
      assert m.decls[0] in m.decls;
    }
  }

  ghost predicate AdjacentReadAll(q: Request, val: Valuation, s: Schedule, e: Employee)
  {
    var dates := SlotDates(q);
    forall i :: 0 <= i < |dates| - 1 ==> AdjacentRead(q, val, s, e, dates[i], dates[i + 1])
  }

  lemma ReadAdjacentAt(q: Request, val: Valuation, s: Schedule, e: Employee, i: int)
    requires Basis(q, val, s) && AllWorkedRead(q, val, s)
    requires 0 <= i < |SlotDates(q)| - 1
    ensures Satisfies(val, AdjacentAt(q, e, SlotDates(q))(i)) <==>
      AdjacentRead(q, val, s, e, SlotDates(q)[i], SlotDates(q)[i + 1])
  {
    var dates := SlotDates(q);
    assert AdjacentAt(q, e, dates)(i) == AdjacentPiece(q, e, dates[i], dates[i + 1]);
    ReadAdjacentPiece(q, val, s, e, dates[i], dates[i + 1]);
  }

  lemma AdjacentIsFamily(q: Request, val: Valuation, e: Employee)
    ensures Satisfies(val, AdjacentUnit(q)(e)) <==>
      forall i :: 0 <= i < |SlotDates(q)| - 1 ==> Satisfies(val, AdjacentAt(q, e, SlotDates(q))(i))
  {
    SatisfiesRange(val, AdjacentAt(q, e, SlotDates(q)), 0, |SlotDates(q)| - 1);
  }

  lemma ReadAdjacentOf(q: Request, val: Valuation, s: Schedule, e: Employee)
    requires Basis(q, val, s) && AllWorkedRead(q, val, s)
    ensures Satisfies(val, AdjacentUnit(q)(e)) <==> AdjacentReadAll(q, val, s, e)
  {
    var dates := SlotDates(q);
    AdjacentIsFamily(q, val, e);
    forall i | 0 <= i < |dates| - 1
      ensures Satisfies(val, AdjacentAt(q, e, dates)(i)) <==> AdjacentRead(q, val, s, e, dates[i], dates[i + 1])
    {
      ReadAdjacentAt(q, val, s, e, i);
    }
  }

  lemma ReadAdjacent(q: Request, val: Valuation, s: Schedule)
    requires Basis(q, val, s) && AllWorkedRead(q, val, s)
    ensures Satisfies(val, AdjacentFamily(q)) <==> forall e :: e in q.employees ==> AdjacentReadAll(q, val, s, e)
  {
    SatisfiesFamily(val, AdjacentUnit(q), q.employees);
    forall e ensures Satisfies(val, AdjacentUnit(q)(e)) <==> AdjacentReadAll(q, val, s, e) {
      ReadAdjacentOf(q, val, s, e);
    }
  }
}
