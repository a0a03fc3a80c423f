/** What the fair share and the rotation tie-breaker mean. */
module CostFacts {
  import opened Options
  import opened Sequences
  import opened Sorting
  import opened Scheduling
  import opened Costs

  // ----- the fair share -----

  lemma CeilingIsLeast(total: int, n: int, t: int)
    requires 0 < n
    ensures t >= (total + n - 1) / n <==> t * n >= total
  {
    var k := (total + n - 1) / n;
    assert k * n <= total + n - 1 < k * n + n;
    if t >= k {
      assert t * n >= k * n;
    } else {
      assert t * n <= (k - 1) * n == k * n - n;
    }
  }

  ghost function RequiredOf(): Requirement -> int { (r: Requirement) => r.requiredCount }

  lemma {:induction false} TotalIsSum(requirements: seq<Requirement>)
    ensures TotalRequired(requirements) == Sum(RequiredOf(), requirements)
  {
    if requirements != [] {
      TotalIsSum(requirements[..|requirements| - 1]);
    }
  }

  /** The fair share is the least positive number of shifts that, worked by everybody, covers
      all that is required. */
  lemma FairTargetIsLeast(q: Request, t: int)
    requires q.employees != []
    ensures t >= FairTarget(q) <==> t >= 1 && t * |q.employees| >= Sum(RequiredOf(), q.requirements)
  {
    TotalIsSum(q.requirements);
    CeilingIsLeast(TotalRequired(q.requirements), |q.employees|, t);
  }

  // ----- days in a row -----

  /** An employee's second shift on the day after the first costs 20,000, and one shift costs no such
      thing. */
  lemma TwoDaysInARowCost(q: Request, c: Choice, d: Choice)
    requires c.emp == d.emp && DateOf(q, d) == DateOf(q, c) + 1
    ensures AdjacentCost(q, {c, d})(c.emp) == 20_000
    ensures AdjacentCost(q, {c})(c.emp) == 0
  {
    var s := {c, d};
    assert WorkDates(q, s, c.emp) == {DateOf(q, c), DateOf(q, c) + 1};
    assert WorksNextDay(q, s, c.emp, DateOf(q, c)) && !WorksNextDay(q, s, c.emp, DateOf(q, c) + 1);
    assert AdjacentRepeats(q, s, c.emp) == {DateOf(q, c)};
    assert WorkDates(q, {c}, c.emp) == {DateOf(q, c)};
    assert AdjacentRepeats(q, {c}, c.emp) == {};
  }

  // ----- the rotation -----

  /** How many places after the preferred employee, going round, an employee stands. */
  function Turn(q: Request, c: Choice): int
  {
    (Position(q.employees, c.emp) - PreferredEmployee(q, c.req)) % Max(|q.employees|, 1)
  }

  lemma {:induction false} PositionOfLast<T>(xs: seq<T>)
    requires xs != [] && xs[|xs| - 1] !in xs[..|xs| - 1]
    ensures Position(xs, xs[|xs| - 1]) == |xs| - 1
  {
    if |xs| > 1 {
      assert xs[..|xs| - 1][0] == xs[0];
      assert xs[1..][..|xs| - 2] == xs[..|xs| - 1][1..];
      PositionOfLast(xs[1..]);
    }
  }

  /** Going round a list of `n` places once. */
  lemma GoingRound(x: int, n: int)
    requires -n < x < n
    ensures x % n == if x >= 0 then x else x + n
  {
    var k := x / n;
    assert x == k * n + x % n;
    assert k >= 1 ==> k * n >= n;
    assert k <= -2 ==> k * n <= -2 * n;
  }

  lemma TurnIs(q: Request, c: Choice)
    requires c.emp in q.employees
    ensures
      var x := Position(q.employees, c.emp) - PreferredEmployee(q, c.req);
      Turn(q, c) == if x >= 0 then x else x + |q.employees|
  {
    PositionFinds(q.employees, c.emp);
    GoingRound(Position(q.employees, c.emp) - PreferredEmployee(q, c.req), |q.employees|);
  }

  /** Two employees never have the same turn for a requirement. */
  lemma TurnsAreDistinct(q: Request, c: Choice, d: Choice)
    requires c.req == d.req && c.emp in q.employees && d.emp in q.employees && Turn(q, c) == Turn(q, d)
    ensures c == d
  {
    PositionFinds(q.employees, c.emp);
    PositionFinds(q.employees, d.emp);
    TurnIs(q, c);
    TurnIs(q, d);
  }

  lemma TieBreakerIs(q: Request, c: Choice)
    requires c.emp in q.employees
    ensures TieBreaker(q, c) == Turn(q, c) * ROTATION_TIE_BREAKER_WEIGHT + Position(q.employees, c.emp)
    ensures 0 <= Position(q.employees, c.emp) < |q.employees|
    ensures 0 <= Turn(q, c) < |q.employees|
  {
    PositionFinds(q.employees, c.emp);
  }

  /** The tie-breaker of one candidate is below that of another exactly when its turn is earlier. */
  predicate OrderedByTurn(q: Request, c: Choice, d: Choice)
  {
    TieBreaker(q, c) < TieBreaker(q, d) <==> Turn(q, c) < Turn(q, d)
  }

  lemma ShortListIsOrdered(q: Request, c: Choice, d: Choice)
    requires c.req == d.req && c.emp in q.employees && d.emp in q.employees
    requires |q.employees| <= ROTATION_TIE_BREAKER_WEIGHT
    ensures OrderedByTurn(q, c, d)
  {
    TieBreakerIs(q, c);
    TieBreakerIs(q, d);
    if Turn(q, c) == Turn(q, d) {
      TurnsAreDistinct(q, c, d);
    }
  }

  lemma FirstPreferredIsOrdered(q: Request, c: Choice, d: Choice)
    requires c.req == d.req && c.emp in q.employees && d.emp in q.employees
    requires PreferredEmployee(q, c.req) == 0
    ensures OrderedByTurn(q, c, d)
  {
    TieBreakerIs(q, c);
    TieBreakerIs(q, d);
    TurnIs(q, c);
    TurnIs(q, d);
  }

  /** In a long list whose first employee is not the preferred one, the last comes a turn before
      the first and costs no less. */
  lemma LongListIsNotOrdered(q: Request, r: Requirement)
    requires |q.employees| > ROTATION_TIE_BREAKER_WEIGHT && NoDuplicates(q.employees)
    requires PreferredEmployee(q, r) != 0
    ensures
      var c, d := Choice(r, q.employees[|q.employees| - 1]), Choice(r, q.employees[0]);
      Turn(q, c) < Turn(q, d) && TieBreaker(q, c) >= TieBreaker(q, d)
  {
    var n := |q.employees| - 1;
    var c, d := Choice(r, q.employees[n]), Choice(r, q.employees[0]);
    PositionOfLast(q.employees);
    TieBreakerIs(q, c);
    TieBreakerIs(q, d);
    TurnIs(q, c);
    TurnIs(q, d);
  }

  /** The tie-breaker orders the employees of a requirement exactly by turn - the preferred one
      first, then round the list - if and only if there are at most 1000 employees or the
      preferred one is the first in the list. */
  lemma TieBreakerFollowsTurnsIff(q: Request, r: Requirement)
    requires WellFormed(q)
    ensures
      (forall d, e :: d in q.employees && e in q.employees ==> OrderedByTurn(q, Choice(r, d), Choice(r, e))) <==>
      |q.employees| <= 1_000 || PreferredEmployee(q, r) == 0
  {
    if |q.employees| <= ROTATION_TIE_BREAKER_WEIGHT || PreferredEmployee(q, r) == 0 {
      forall d, e | d in q.employees && e in q.employees
        ensures OrderedByTurn(q, Choice(r, d), Choice(r, e))
      {
        if PreferredEmployee(q, r) == 0 {
          FirstPreferredIsOrdered(q, Choice(r, d), Choice(r, e));
        } else {
          ShortListIsOrdered(q, Choice(r, d), Choice(r, e));
        }
      }
    } else {
      LongListIsNotOrdered(q, r);
      var last, first := q.employees[|q.employees| - 1], q.employees[0];
      assert last in q.employees && first in q.employees;
      assert !OrderedByTurn(q, Choice(r, last), Choice(r, first));
    }
  }

  // ----- a request with 1001 employees -----

  function Staff(n: nat): seq<Employee> { seq(n, i => Employee(i, {1}, {}, None)) }

  /** Two slots, one role, and a requirement on the second slot: the second employee is
      preferred for it. */
  function LongRequest(): Request
  {
    Request(Staff(1001), [Slot(1, 1, 1, None, None, false, false), Slot(2, 2, 1, None, None, false, false)],
            [Requirement(1, 2, 1, 1, 1)], [], [], [], None, None, None, None, None, 0)
  }

  lemma OneRequirementOneRole(q: Request)
    requires |q.requirements| == 1
    ensures RoleIds(q) == [q.requirements[0].roleId]
  {
    var id := q.requirements[0].roleId;
    assert RolesAsked(q) == [id];
    SortedSetIncreasing([id]);
    IncreasingIsUnique(SortedSet([id]), [id]);
  }

  lemma SecondSlotPosition(slots: seq<Slot>)
    requires |slots| == 2 && slots[0].id != slots[1].id
    ensures SlotPosition(slots, slots[1].id) == 1
  {
    assert slots[1..][0] == slots[1];
  }

  lemma LongRequestPrefersSecond()
    ensures PreferredEmployee(LongRequest(), LongRequest().requirements[0]) == 1
  {
    var q := LongRequest();
    OneRequirementOneRole(q);
    SecondSlotPosition(q.slots);
    assert q.requirements[0].slotId == q.slots[1].id;
  }

  lemma LongRequestIsWellFormed()
    ensures WellFormed(LongRequest())
  {
    var q := LongRequest();
    assert q.slots[1] in q.slots && q.slots[1].id == q.requirements[0].slotId;
  }

  /** There, two choices that the model has are ordered against the rotation. */
  lemma LongRequestIsNotOrdered()
    ensures
      var q := LongRequest();
      var c, d := Choice(q.requirements[0], q.employees[1000]), Choice(q.requirements[0], q.employees[0]);
      && WellFormed(q) && c in Choosable(q) && d in Choosable(q)
      && Turn(q, c) < Turn(q, d) && TieBreaker(q, c) >= TieBreaker(q, d)
  {
    var q := LongRequest();
    var r, last, first := q.requirements[0], q.employees[1000], q.employees[0];
    LongRequestIsWellFormed();
    LongRequestPrefersSecond();
    assert last in q.employees && first in q.employees && r in q.requirements;
    ChoosableMembers(q);
    LongListIsNotOrdered(q, r);
  }
}
