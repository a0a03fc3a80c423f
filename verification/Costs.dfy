/** What a schedule costs, said directly. */
module Costs {
  import opened Options
  import opened Sequences
  import opened Sorting
  import opened Scheduling

  const ROTATION_TIE_BREAKER_WEIGHT := 1_000
  const ADJACENT_DAY_REPEAT_WEIGHT := 20_000
  const UNFILLED_SCALE := 100_000

  function Max(a: int, b: int): int { if a >= b then a else b }

  // ----- unfilled requirements -----

  ghost function UnfilledCost(q: Request, s: Schedule): Requirement -> int
  {
    (r: Requirement) => r.unfilledWeight * UNFILLED_SCALE * (r.requiredCount - |Filling(s, r)|)
  }

  // ----- staffing targets -----

  ghost function StaffingCost(s: Schedule): StaffingTarget -> int
  {
    (t: StaffingTarget) =>
      Max(t.underPenalty, 0) * Max(t.target - |Staffing(s, t.slotId)|, 0)
      + Max(t.overPenalty, 0) * Max(|Staffing(s, t.slotId)| - t.target, 0)
  }

  // ----- pairs that should be kept apart -----

  ghost function SharedSlots(q: Request, s: Schedule, p: AvoidPair): set<Slot>
  {
    set t | t in q.slots && WorksIn(s, p.a, t.id) && WorksIn(s, p.b, t.id)
  }

  ghost function AvoidCost(q: Request, s: Schedule): AvoidPair -> int
  {
    (p: AvoidPair) => p.weight * |SharedSlots(q, s, p)|
  }

  // ----- rotation -----

  function Position<T(==)>(xs: seq<T>, x: T): nat
  {
    if xs == [] || xs[0] == x then 0 else 1 + Position(xs[1..], x)
  }

  lemma {:induction false} PositionFinds<T>(xs: seq<T>, x: T)
    ensures Position(xs, x) <= |xs|
    ensures x in xs ==> Position(xs, x) < |xs| && xs[Position(xs, x)] == x
  {
    if xs != [] && xs[0] != x {
      PositionFinds(xs[1..], x);
    }
  }

  /** The index of a slot by id; past the end when there is none. */
  function SlotPosition(slots: seq<Slot>, id: Id): nat
  {
    if slots == [] || slots[0].id == id then 0 else 1 + SlotPosition(slots[1..], id)
  }

  function RolesAsked(q: Request): seq<Id>
  {
    seq(|q.requirements|, i requires 0 <= i < |q.requirements| => q.requirements[i].roleId)
  }

  function RoleIds(q: Request): seq<Id> { SortedSet(RolesAsked(q)) }

  function PreferredEmployee(q: Request, r: Requirement): int
  {
    (SlotPosition(q.slots, r.slotId) + Position(RoleIds(q), r.roleId)) % Max(|q.employees|, 1)
  }

  /** How far an employee stands, in turn, from the one preferred for a requirement. */
  function TieBreaker(q: Request, c: Choice): int
  {
    var place := Position(q.employees, c.emp);
    ((place - PreferredEmployee(q, c.req)) % Max(|q.employees|, 1)) * ROTATION_TIE_BREAKER_WEIGHT + place
  }

  ghost function RotationCost(q: Request, s: Schedule): Choice -> int
  {
    (c: Choice) => if c in s then TieBreaker(q, c) else 0
  }

  /** The choices open to one requirement, then to all, in the order of the program's loops. */
  function ChoicesFor(r: Requirement, employees: seq<Employee>): seq<Choice>
  {
    if employees == [] then []
    else
      var n := |employees| - 1;
      ChoicesFor(r, employees[..n]) + if Eligible(r, employees[n]) then [Choice(r, employees[n])] else []
  }

  function ChoicesAmong(requirements: seq<Requirement>, employees: seq<Employee>): seq<Choice>
  {
    if requirements == [] then []
    else
      var n := |requirements| - 1;
      ChoicesAmong(requirements[..n], employees) + ChoicesFor(requirements[n], employees)
  }

  function Choosable(q: Request): seq<Choice> { ChoicesAmong(q.requirements, q.employees) }

  // ----- fairness -----

  function TotalRequired(requirements: seq<Requirement>): int
  {
    if requirements == [] then 0
    else TotalRequired(requirements[..|requirements| - 1]) + requirements[|requirements| - 1].requiredCount
  }

  /** An equal share of the total, rounded up, and at least 1. */
  function FairTarget(q: Request): int
  {
    if q.employees == [] then 0
    else Max(1, (TotalRequired(q.requirements) + |q.employees| - 1) / |q.employees|)
  }

  ghost function OptionsOf(q: Request, e: Employee): Schedule
  {
    set c | c in Choosable(q) && c.emp == e
  }

  /** Shifts beyond the fair share. A negative weight rewards the over-target variable
      itself, which is then driven to its upper bound whatever the schedule is. */
  ghost function CountedOver(q: Request, s: Schedule, e: Employee): int
  {
    if q.fairnessWeight >= 0 then Max(|ShiftsOf(s, e)| - FairTarget(q), 0) else |OptionsOf(q, e)|
  }

  ghost function FairnessCost(q: Request, s: Schedule): Employee -> int
  {
    (e: Employee) => q.fairnessWeight * CountedOver(q, s, e)
  }

  // ----- working on adjacent days -----

  ghost predicate WorksNextDay(q: Request, s: Schedule, e: Employee, date: int)
  {
    date + 1 in WorkDates(q, s, e)
  }

  /** The days worked whose next day is worked too. */
  ghost function AdjacentRepeats(q: Request, s: Schedule, e: Employee): set<int>
  {
    set d | d in WorkDates(q, s, e) && WorksNextDay(q, s, e, d)
  }

  ghost function AdjacentCost(q: Request, s: Schedule): Employee -> int
  {
    (e: Employee) => ADJACENT_DAY_REPEAT_WEIGHT * |AdjacentRepeats(q, s, e)|
  }

  // ----- the whole cost -----

  ghost function Cost(q: Request, s: Schedule): int
  {
    Sum(UnfilledCost(q, s), q.requirements)
    + Sum(StaffingCost(s), q.staffingTargets)
    + Sum(AvoidCost(q, s), q.avoidPairs)
    + Sum(RotationCost(q, s), Choosable(q))
    + Sum(FairnessCost(q, s), q.employees)
    + Sum(AdjacentCost(q, s), q.employees)
  }

  // ----- facts about the choosable list -----

  lemma {:induction false} ChoicesForMembers(r: Requirement, employees: seq<Employee>)
    ensures forall c :: c in ChoicesFor(r, employees) <==> c.req == r && c.emp in employees && Eligible(r, c.emp)
  {
    if employees != [] {
      var n := |employees| - 1;
      ChoicesForMembers(r, employees[..n]);
      assert employees == employees[..n] + [employees[n]];
    }
  }

  lemma {:induction false} ChoicesAmongMembers(requirements: seq<Requirement>, employees: seq<Employee>)
    ensures forall c :: c in ChoicesAmong(requirements, employees) <==>
      c.req in requirements && c.emp in employees && Eligible(c.req, c.emp)
  {
    if requirements != [] {
      var n := |requirements| - 1;
      ChoicesAmongMembers(requirements[..n], employees);
      ChoicesForMembers(requirements[n], employees);
      assert requirements == requirements[..n] + [requirements[n]];
    }
  }

  lemma ChoosableMembers(q: Request)
    ensures forall c :: c in Choosable(q) <==> CanChoose(q, c)
  {
    ChoicesAmongMembers(q.requirements, q.employees);
  }

  lemma {:induction false} ChoicesForDistinct(r: Requirement, employees: seq<Employee>)
    requires NoDuplicates(employees)
    ensures NoDuplicates(ChoicesFor(r, employees))
  {
    if employees != [] {
      var n := |employees| - 1;
      ChoicesForDistinct(r, employees[..n]);
      ChoicesForMembers(r, employees[..n]);
    }
  }

  lemma {:induction false} ChoicesAmongDistinct(requirements: seq<Requirement>, employees: seq<Employee>)
    requires NoDuplicates(requirements) && NoDuplicates(employees)
    ensures NoDuplicates(ChoicesAmong(requirements, employees))
  {
    if requirements != [] {
      var n := |requirements| - 1;
      ChoicesAmongDistinct(requirements[..n], employees);
      ChoicesAmongMembers(requirements[..n], employees);
      ChoicesForDistinct(requirements[n], employees);
      ChoicesForMembers(requirements[n], employees);
    }
  }

  lemma ChoosableDistinct(q: Request)
    requires WellFormed(q)
    ensures NoDuplicates(Choosable(q))
  {
    ChoicesAmongDistinct(q.requirements, q.employees);
  }
}
