/** What a reader of a reported schedule may rely on, said of its rows and of the request's own
    fields; and, the other way, what the rules never forbid. */
module ResultRows {
  import opened Options
  import opened Sequences
  import opened Scheduling
  import opened Costs
  import opened Exactness
  import opened Solver
  import opened Sorting
  import opened CanonicalOrder

  // ----- rows and choices -----

  /** The row places an employee of the request on a requirement of the request; the employee
      has the role and has not declared the slot unavailable. */
  predicate Places(a: Assignment, r: Requirement, e: Employee)
  {
    && a.requirementId == r.id && a.slotId == r.slotId && a.roleId == r.roleId && a.employeeId == e.id
    && r.roleId in e.roleIds && r.slotId !in e.unavailableSlotIds
  }

  predicate Reported(i: Issue, r: Requirement)
  {
    i.requirementId == r.id && i.slotId == r.slotId && i.roleId == r.roleId && 1 <= i.missingCount
  }

  lemma RowsAreChoices(q: Request, s: Schedule, result: SolveResult, a: Assignment) returns (c: Choice)
    requires Reports(q, s, result) && a in result.assignments
    ensures c in s && ToAssignment(c) == a
    ensures c.req in q.requirements && c.emp in q.employees && Places(a, c.req, c.emp)
  {
    c :| c in s && ToAssignment(c) == a;
    assert CanChoose(q, c);
  }

  /** Every row names an employee and a requirement of the request that fit each other, and
      every issue names a requirement of the request. */
  lemma RowsNameTheRequest(q: Request, s: Schedule, result: SolveResult)
    requires Reports(q, s, result)
    ensures forall a :: a in result.assignments ==>
      exists r, e :: r in q.requirements && e in q.employees && Places(a, r, e)
    ensures forall i :: i in result.issues ==> exists r :: r in q.requirements && Reported(i, r)
  {
    forall a | a in result.assignments
      ensures exists r, e :: r in q.requirements && e in q.employees && Places(a, r, e)
    {
      var c := RowsAreChoices(q, s, result, a);
    }
    forall i | i in result.issues
      ensures exists r :: r in q.requirements && Reported(i, r)
    {
      var r :| r in q.requirements && ShortBy(s, r, i);
    }
  }

  predicate RowBefore(a: Assignment, b: Assignment)
  {
    || a.slotId < b.slotId
    || (a.slotId == b.slotId && a.roleId < b.roleId)
    || (a.slotId == b.slotId && a.roleId == b.roleId && a.employeeId < b.employeeId)
  }

  /** The rows are listed by slot, role and employee, and an employee has one row in a slot. */
  lemma RowsAreOrdered(q: Request, s: Schedule, result: SolveResult)
    requires WellFormed(q) && Reports(q, s, result)
    ensures forall i, j :: 0 <= i < j < |result.assignments| ==> RowBefore(result.assignments[i], result.assignments[j])
    ensures forall i, j :: 0 <= i < j < |result.assignments| ==>
      !(result.assignments[i].slotId == result.assignments[j].slotId
        && result.assignments[i].employeeId == result.assignments[j].employeeId)
  {
    var rows := result.assignments;
    forall i, j | 0 <= i < j < |rows|
      ensures RowBefore(rows[i], rows[j])
      ensures !(rows[i].slotId == rows[j].slotId && rows[i].employeeId == rows[j].employeeId)
    {
      var c := RowsAreChoices(q, s, result, rows[i]);
      var d := RowsAreChoices(q, s, result, rows[j]);
      assert AssignmentLeq()(rows[i], rows[j]);
      if rows[i].slotId == rows[j].slotId && rows[i].employeeId == rows[j].employeeId {
        SameEmployeeId(q, c.emp, d.emp);
      }
    }
  }

  lemma SameEmployeeId(q: Request, d: Employee, e: Employee)
    requires WellFormed(q) && d in q.employees && e in q.employees && d.id == e.id
    ensures d == e
  {
    var i :| 0 <= i < |q.employees| && q.employees[i] == d;
    var j :| 0 <= j < |q.employees| && q.employees[j] == e;
  }

  // ----- the order of the issues -----

  lemma {:induction false} IssuePlace(requirements: seq<Requirement>, s: Schedule, i: nat) returns (k: nat)
    requires i < |IssuesOf(requirements, s)|
    ensures k < |requirements| && ShortBy(s, requirements[k], IssuesOf(requirements, s)[i])
  {
    var n := |requirements| - 1;
    if i < |IssuesOf(requirements[..n], s)| {
      k := IssuePlace(requirements[..n], s, i);
    } else {
      k := n;
    }
  }

  lemma {:induction false} IssuePlaces(requirements: seq<Requirement>, s: Schedule, i: nat, j: nat)
    returns (k: nat, l: nat)
    requires i < j < |IssuesOf(requirements, s)|
    ensures k < l < |requirements|
    ensures ShortBy(s, requirements[k], IssuesOf(requirements, s)[i])
    ensures ShortBy(s, requirements[l], IssuesOf(requirements, s)[j])
  {
    var n := |requirements| - 1;
    if j < |IssuesOf(requirements[..n], s)| {
      k, l := IssuePlaces(requirements[..n], s, i, j);
    } else {
      k := IssuePlace(requirements[..n], s, i);
      l := n;
    }
  }

  /** The first requirement's slot comes earlier, by date and then id; or it is the same slot and the
      role is smaller; or the same role and the requirement's id is smaller. */
  ghost predicate ListedBefore(q: Request, r: Requirement, u: Requirement)
  {
    exists a, b :: a in q.slots && b in q.slots && a.id == r.slotId && b.id == u.slotId
      && (if a == b then r.roleId < u.roleId || (r.roleId == u.roleId && r.id < u.id)
          else a.localDate < b.localDate || (a.localDate == b.localDate && a.id < b.id))
  }

  lemma CanonicalRequirements(q: Request, k: nat, l: nat)
    requires WellFormed(q) && k < l < |q.requirements|
    ensures |Canonical(q).requirements| == |q.requirements|
    ensures ListedBefore(q, Canonical(q).requirements[k], Canonical(q).requirements[l])
  {
    var p := Canonical(q);
    CanonicalIsOrdered(q);
    SameMembers(q.requirements, p.requirements);
    SameMembers(q.slots, p.slots);
    var leq := RequirementLeq(p.slots);
    assert TotalPreorder(leq);
    SortOrdered(leq, q.requirements);
    var r, u := p.requirements[k], p.requirements[l];
    assert leq(r, u) && r.id != u.id && r in p.requirements && u in p.requirements;
    SlotPositionFinds(p.slots, r.slotId);
    SlotPositionFinds(p.slots, u.slotId);
    var i, j := SlotPosition(p.slots, r.slotId), SlotPosition(p.slots, u.slotId);
    var a, b := p.slots[i], p.slots[j];
    assert a in p.slots && b in p.slots;
    assert i < j ==> SlotBefore(a, b);
  }

  /** The issues are listed by the date and id of the slot, then role, then requirement. */
  lemma IssuesAreOrdered(q: Request, s: Schedule, result: SolveResult, i: nat, j: nat)
    returns (r: Requirement, u: Requirement)
    requires WellFormed(q) && Reports(q, s, result) && i < j < |result.issues|
    ensures r in q.requirements && u in q.requirements && ListedBefore(q, r, u)
    ensures Reported(result.issues[i], r) && Reported(result.issues[j], u)
  {
    var rs := Canonical(q).requirements;
    var k, l := IssuePlaces(rs, s, i, j);
    CanonicalIsOrdered(q);
    SameMembers(q.requirements, rs);
    r, u := rs[k], rs[l];
    CanonicalRequirements(q, k, l);
    assert r in rs && u in rs;
  }

  // ----- pairs -----

  /** No row shares a slot with a row of an employee blocked from the first. */
  lemma RowsKeepBlockedPairs(q: Request, s: Schedule, result: SolveResult, a: Assignment, b: Assignment)
    requires WellFormed(q) && Reports(q, s, result)
    requires a in result.assignments && b in result.assignments && a.slotId == b.slotId
    ensures BlockedPair(a.employeeId, b.employeeId) !in q.blockedPairs
  {
    var p := BlockedPair(a.employeeId, b.employeeId);
    var c := RowsAreChoices(q, s, result, a);
    var d := RowsAreChoices(q, s, result, b);
    var t :| t in q.slots && t.id == c.req.slotId;
    assert WorksIn(s, p.a, t.id) && WorksIn(s, p.b, t.id);
  }

  // ----- caps -----

  /** The choices of an employee whose slots fall in the seven days from `monday`. */
  ghost function ShiftsFrom(q: Request, s: Schedule, e: Employee, monday: int): Schedule
  {
    set c | c in s && c.emp == e && InWeekFrom(monday, DateOf(q, c))
  }

  /** In the seven days from any Monday an employee works at most the own cap when there is one,
      and at most the global cap otherwise. */
  lemma ShiftsKeepWeeklyCaps(q: Request, s: Schedule, e: Employee, monday: int)
    requires Legal(q, s) && ShiftsFrom(q, s, e, monday) != {}
    ensures e.maxShiftsPerWeek.Some? ==> |ShiftsFrom(q, s, e, monday)| <= e.maxShiftsPerWeek.value
    ensures e.maxShiftsPerWeek.None? && q.globalMaxShiftsPerWeek.Some? ==>
      |ShiftsFrom(q, s, e, monday)| <= q.globalMaxShiftsPerWeek.value
  {
    var mine := ShiftsFrom(q, s, e, monday);
    var c :| c in mine;
    forall d | d in mine ensures d in ShiftsInWeek(q, s, e, WeekKey(DateOf(q, c))) {
      WeekIsMondayToSunday(DateOf(q, d), DateOf(q, c));
    }
    SubsetCardinality(mine, ShiftsInWeek(q, s, e, WeekKey(DateOf(q, c))));
    assert CanChoose(q, c);
  }

  // ----- what the rules never forbid -----

  /** One assignment on its own is legal whenever the employee has the role and the slot is not
      declared unavailable, nothing applicable is below one, and nobody is blocked from
      themselves. */
  lemma LoneAssignmentIsLegal(q: Request, r: Requirement, e: Employee)
    requires WellFormed(q) && r in q.requirements && e in q.employees
    requires r.roleId in e.roleIds && r.slotId !in e.unavailableSlotIds && 1 <= r.requiredCount
    requires LimitsAreNonNegative(q)
    requires if e.maxShiftsPerWeek.Some? then 1 <= e.maxShiftsPerWeek.value
             else q.globalMaxShiftsPerWeek.Some? ==> 1 <= q.globalMaxShiftsPerWeek.value
    requires q.weekendShiftLimitPerMonth.Some? ==> 1 <= q.weekendShiftLimitPerMonth.value
    requires q.nightShiftLimitPerMonth.Some? ==> 1 <= q.nightShiftLimitPerMonth.value
    requires forall p :: p in q.blockedPairs ==> p.a != p.b
    ensures Legal(q, {Choice(r, e)})
  {
    var c := Choice(r, e);
    var s := {c};
    LegalScheduleExists(q);
    assert CanChoose(q, c);
    forall t | t in q.requirements ensures |Filling(s, t)| <= t.requiredCount {
      AtMostOne(Filling(s, t), c);
      assert t != r ==> Filling(s, t) == {};
    }
    OneShiftKeepsCaps(q, c);
    forall d: Employee, m ensures |WeekendShifts(q, s, d, m)| <= 1 && |NightShifts(q, s, d, m)| <= 1 {
      AtMostOne(WeekendShifts(q, s, d, m), c);
      AtMostOne(NightShifts(q, s, d, m), c);
    }
    OneDayIsNoStreak(q, c);
    OneSlotIsRested(q, c);
  }

  lemma AtMostOne<T>(xs: set<T>, x: T)
    requires xs <= {x}
    ensures |xs| <= 1
  {
    SubsetCardinality(xs, {x});
  }

  lemma OneShiftKeepsCaps(q: Request, c: Choice)
    requires LimitsAreNonNegative(q) && CanChoose(q, c)
    requires if c.emp.maxShiftsPerWeek.Some? then 1 <= c.emp.maxShiftsPerWeek.value
             else q.globalMaxShiftsPerWeek.Some? ==> 1 <= q.globalMaxShiftsPerWeek.value
    ensures WithinWeeklyCaps(q, {c})
  {
    forall d | CanChoose(q, d) && WeeklyCap(q, d.emp).Some?
      ensures |ShiftsInWeek(q, {c}, d.emp, WeekKey(DateOf(q, d)))| <= WeeklyCap(q, d.emp).value
    {
      AtMostOne(ShiftsInWeek(q, {c}, d.emp, WeekKey(DateOf(q, d))), c);
      assert d.emp != c.emp ==> ShiftsInWeek(q, {c}, d.emp, WeekKey(DateOf(q, d))) == {};
    }
  }

  lemma OneDayIsNoStreak(q: Request, c: Choice)
    ensures WithinStreakLimit(q, {c})
  {
    forall e, first | q.maxConsecutiveShifts.Some? && q.maxConsecutiveShifts.value > 0
      ensures !ExceedsStreak(q, {c}, e, first, q.maxConsecutiveShifts.value)
    {
      assert first !in WorkDates(q, {c}, e) || first + 1 !in WorkDates(q, {c}, e);
    }
  }

  lemma OneSlotIsRested(q: Request, c: Choice)
    requires WellFormed(q)
    ensures WellRested(q, {c})
  {
    forall e: Id, t, u | t in q.slots && u in q.slots && WorksIn({c}, e, t.id) && WorksIn({c}, e, u.id)
      ensures t == u
    {
      var i :| 0 <= i < |q.slots| && q.slots[i] == t;
      var j :| 0 <= j < |q.slots| && q.slots[j] == u;
    }
  }
}
