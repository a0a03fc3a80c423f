/** A staffing request, and what a legal and a cheap schedule for it are, said
    directly: no variables, no linear constraints. */
module Scheduling {
  import opened Options
  import opened Sequences

  datatype Employee = Employee(id: Id, roleIds: set<Id>, unavailableSlotIds: set<Id>, maxShiftsPerWeek: Option<int>)

  /** `localDate` is a proleptic Gregorian day number (day 1 is a Monday), `month`
      the year and month of that date, and the times are in seconds. */
  datatype Slot = Slot(
    id: Id, localDate: int, month: int,
    startsAt: Option<int>, endsAt: Option<int>,
    isWeekend: bool, isNight: bool)

  datatype Requirement = Requirement(id: Id, slotId: Id, roleId: Id, requiredCount: int, unfilledWeight: int)

  datatype BlockedPair = BlockedPair(a: Id, b: Id)

  datatype AvoidPair = AvoidPair(a: Id, b: Id, weight: int)

  datatype StaffingTarget = StaffingTarget(slotId: Id, target: int, underPenalty: int, overPenalty: int)

  datatype Request = Request(
    employees: seq<Employee>,
    slots: seq<Slot>,
    requirements: seq<Requirement>,
    blockedPairs: seq<BlockedPair>,
    avoidPairs: seq<AvoidPair>,
    staffingTargets: seq<StaffingTarget>,
    globalMaxShiftsPerWeek: Option<int>,
    maxConsecutiveShifts: Option<int>,
    minRestHours: Option<int>,
    weekendShiftLimitPerMonth: Option<int>,
    nightShiftLimitPerMonth: Option<int>,
    fairnessWeight: int)

  /** Placing one employee on one requirement. A schedule is a set of these. */
  datatype Choice = Choice(req: Requirement, emp: Employee)

  type Schedule = set<Choice>

  // ----- well-formed requests -----

  ghost predicate WellFormed(q: Request)
  {
    && (forall i, j :: 0 <= i < j < |q.employees| ==> q.employees[i].id != q.employees[j].id)
    && (forall i, j :: 0 <= i < j < |q.slots| ==> q.slots[i].id != q.slots[j].id)
    && (forall i, j :: 0 <= i < j < |q.requirements| ==> q.requirements[i].id != q.requirements[j].id)
    && (forall r :: r in q.requirements ==> exists s :: s in q.slots && s.id == r.slotId)
  }

  /** The slot with a given id. Ids of a well-formed request name exactly one slot. */
  function FindSlot(slots: seq<Slot>, id: Id): Slot
  {
    if slots == [] then Slot(id, 0, 0, None, None, false, false)
    else if slots[0].id == id then slots[0]
    else FindSlot(slots[1..], id)
  }

  function SlotOf(q: Request, c: Choice): Slot { FindSlot(q.slots, c.req.slotId) }

  function DateOf(q: Request, c: Choice): int { SlotOf(q, c).localDate }

  lemma {:induction false} FindSlotFinds(slots: seq<Slot>, s: Slot)
    requires s in slots
    requires forall i, j :: 0 <= i < j < |slots| ==> slots[i].id != slots[j].id
    ensures FindSlot(slots, s.id) == s
  {
    if slots[0] != s {
      assert s in slots[1..];
      FindSlotFinds(slots[1..], s);
    }
  }

  /** Weeks start on Monday, and day 1 is a Monday. */
  function WeekKey(date: int): int { (date - 1) / 7 }

  predicate InWeekFrom(monday: int, date: int) { monday % 7 == 1 && monday <= date < monday + 7 }

  /** Two dates share a week exactly when one Monday-to-Sunday span holds both. */
  lemma WeekIsMondayToSunday(a: int, b: int)
    ensures WeekKey(a) == WeekKey(b) <==> exists monday :: InWeekFrom(monday, a) && InWeekFrom(monday, b)
  {
    if WeekKey(a) == WeekKey(b) {
      var monday := 7 * WeekKey(a) + 1;
      assert InWeekFrom(monday, a) && InWeekFrom(monday, b);
    }
    if monday :| InWeekFrom(monday, a) && InWeekFrom(monday, b) {
      assert monday == 7 * (monday / 7) + 1;
    }
  }

  predicate Eligible(r: Requirement, e: Employee)
  {
    r.roleId in e.roleIds && r.slotId !in e.unavailableSlotIds
  }

  ghost predicate CanChoose(q: Request, c: Choice)
  {
    c.req in q.requirements && c.emp in q.employees && Eligible(c.req, c.emp)
  }

  function WeeklyCap(q: Request, e: Employee): Option<int>
  {
    if e.maxShiftsPerWeek.Some? then e.maxShiftsPerWeek else q.globalMaxShiftsPerWeek
  }

  // ----- what a schedule contains -----

  ghost function Filling(s: Schedule, r: Requirement): Schedule
  {
    set c | c in s && c.req == r
  }

  ghost function Staffing(s: Schedule, slotId: Id): Schedule
  {
    set c | c in s && c.req.slotId == slotId
  }

  ghost function ShiftsOf(s: Schedule, e: Employee): Schedule
  {
    set c | c in s && c.emp == e
  }

  ghost function ShiftsInWeek(q: Request, s: Schedule, e: Employee, week: int): Schedule
  {
    set c | c in s && c.emp == e && WeekKey(DateOf(q, c)) == week
  }

  ghost function WeekendShifts(q: Request, s: Schedule, e: Employee, month: int): Schedule
  {
    set c | c in s && c.emp == e && SlotOf(q, c).month == month && SlotOf(q, c).isWeekend
  }

  ghost function NightShifts(q: Request, s: Schedule, e: Employee, month: int): Schedule
  {
    set c | c in s && c.emp == e && SlotOf(q, c).month == month && SlotOf(q, c).isNight
  }

  ghost function WorkDates(q: Request, s: Schedule, e: Employee): set<int>
  {
    set c | c in s && c.emp == e :: DateOf(q, c)
  }

  ghost predicate WorksIn(s: Schedule, employeeId: Id, slotId: Id)
  {
    exists c :: c in s && c.emp.id == employeeId && c.req.slotId == slotId
  }

  /** `e` works on `first` and on each of the `limit` days after it. */
  ghost predicate ExceedsStreak(q: Request, s: Schedule, e: Employee, first: int, limit: int)
  {
    forall d | first <= d <= first + limit :: d in WorkDates(q, s, e)
  }

  // ----- the rules -----

  ghost predicate OnlyEligible(q: Request, s: Schedule)
  {
    forall c :: c in s ==> CanChoose(q, c)
  }

  ghost predicate WithinRequirements(q: Request, s: Schedule)
  {
    forall r :: r in q.requirements ==> |Filling(s, r)| <= r.requiredCount
  }

  ghost predicate OneRolePerSlot(s: Schedule)
  {
    forall c, d :: c in s && d in s && c.emp == d.emp && c.req.slotId == d.req.slotId ==> c == d
  }

  ghost predicate NoBlockedPair(q: Request, s: Schedule)
  {
    forall p, t :: p in q.blockedPairs && t in q.slots ==> !(WorksIn(s, p.a, t.id) && WorksIn(s, p.b, t.id))
  }

  ghost predicate WithinWeeklyCaps(q: Request, s: Schedule)
  {
    forall c :: CanChoose(q, c) && WeeklyCap(q, c.emp).Some? ==>
      |ShiftsInWeek(q, s, c.emp, WeekKey(DateOf(q, c)))| <= WeeklyCap(q, c.emp).value
  }

  ghost predicate WithinWeekendLimit(q: Request, s: Schedule)
  {
    q.weekendShiftLimitPerMonth.Some? ==>
      forall c :: CanChoose(q, c) && SlotOf(q, c).isWeekend ==>
        |WeekendShifts(q, s, c.emp, SlotOf(q, c).month)| <= q.weekendShiftLimitPerMonth.value
  }

  ghost predicate WithinNightLimit(q: Request, s: Schedule)
  {
    q.nightShiftLimitPerMonth.Some? ==>
      forall c :: CanChoose(q, c) && SlotOf(q, c).isNight ==>
        |NightShifts(q, s, c.emp, SlotOf(q, c).month)| <= q.nightShiftLimitPerMonth.value
  }

  /** Nobody works more than the limit of calendar days in a row. A limit that is
      absent or not positive is no limit. */
  ghost predicate WithinStreakLimit(q: Request, s: Schedule)
  {
    q.maxConsecutiveShifts.Some? && q.maxConsecutiveShifts.value > 0 ==>
      forall e, first :: e in q.employees ==>
        !ExceedsStreak(q, s, e, first, q.maxConsecutiveShifts.value)
  }

  predicate Timed(t: Slot) { t.startsAt.Some? && t.endsAt.Some? }

  predicate SlotBefore(t: Slot, u: Slot)
  {
    t.localDate < u.localDate || (t.localDate == u.localDate && t.id < u.id)
  }

  ghost predicate SlotsInOrder(q: Request)
  {
    forall i, j :: 0 <= i < j < |q.slots| ==> SlotBefore(q.slots[i], q.slots[j])
  }

  function SlotLeq(): (Slot, Slot) -> bool
  {
    (t: Slot, u: Slot) => t.localDate < u.localDate || (t.localDate == u.localDate && t.id <= u.id)
  }

  /** Which of two timed slots comes first; slots that start together go by date and id. */
  predicate StartsFirst(t: Slot, u: Slot)
    requires Timed(t) && Timed(u)
  {
    t.startsAt.value < u.startsAt.value || (t.startsAt.value == u.startsAt.value && SlotBefore(t, u))
  }

  predicate RestedBetween(t: Slot, u: Slot, hours: int)
    requires Timed(t) && Timed(u)
  {
    u.startsAt.value - t.endsAt.value >= 3600 * hours
  }

  ghost predicate WellRested(q: Request, s: Schedule)
  {
    q.minRestHours.Some? && q.minRestHours.value > 0 ==>
      forall e, t, u ::
        && e in q.employees && t in q.slots && u in q.slots
        && Timed(t) && Timed(u) && StartsFirst(t, u)
        && WorksIn(s, e.id, t.id) && WorksIn(s, e.id, u.id)
        ==> RestedBetween(t, u, q.minRestHours.value)
  }

  ghost predicate Legal(q: Request, s: Schedule)
  {
    && OnlyEligible(q, s)
    && WithinRequirements(q, s)
    && OneRolePerSlot(s)
    && NoBlockedPair(q, s)
    && WithinWeeklyCaps(q, s)
    && WithinWeekendLimit(q, s)
    && WithinNightLimit(q, s)
    && WithinStreakLimit(q, s)
    && WellRested(q, s)
  }

  // ----- removal -----

  lemma WorksInMonotone(s: Schedule, smaller: Schedule, e: Id, t: Id)
    requires smaller <= s
    ensures WorksIn(smaller, e, t) ==> WorksIn(s, e, t)
  {
  }

  /** Taking assignments away from a legal schedule leaves a legal schedule. */
  lemma RemovalKeepsLegal(q: Request, s: Schedule, smaller: Schedule)
    requires Legal(q, s) && smaller <= s
    ensures Legal(q, smaller)
  {
    forall r | r in q.requirements ensures |Filling(smaller, r)| <= r.requiredCount {
      SubsetCardinality(Filling(smaller, r), Filling(s, r));
    }
    assert NoBlockedPair(q, smaller) by {
      forall p, t | p in q.blockedPairs && t in q.slots
        ensures !(WorksIn(smaller, p.a, t.id) && WorksIn(smaller, p.b, t.id))
      {
        WorksInMonotone(s, smaller, p.a, t.id);
        WorksInMonotone(s, smaller, p.b, t.id);
      }
    }
    forall e, week ensures |ShiftsInWeek(q, smaller, e, week)| <= |ShiftsInWeek(q, s, e, week)| {
      SubsetCardinality(ShiftsInWeek(q, smaller, e, week), ShiftsInWeek(q, s, e, week));
    }
    forall e, m ensures |WeekendShifts(q, smaller, e, m)| <= |WeekendShifts(q, s, e, m)| {
      SubsetCardinality(WeekendShifts(q, smaller, e, m), WeekendShifts(q, s, e, m));
    }
    forall e, m ensures |NightShifts(q, smaller, e, m)| <= |NightShifts(q, s, e, m)| {
      SubsetCardinality(NightShifts(q, smaller, e, m), NightShifts(q, s, e, m));
    }
    assert WithinStreakLimit(q, smaller) by {
      forall e, first, limit
        ensures ExceedsStreak(q, smaller, e, first, limit) ==> ExceedsStreak(q, s, e, first, limit)
      {
        assert WorkDates(q, smaller, e) <= WorkDates(q, s, e);
      }
    }
    assert WellRested(q, smaller) by {
      forall e: Id, t: Id ensures WorksIn(smaller, e, t) ==> WorksIn(s, e, t) {
        WorksInMonotone(s, smaller, e, t);
      }
    }
  }

  /** Every count, cap and limit that applies to somebody is non-negative. */
  ghost predicate LimitsAreNonNegative(q: Request)
  {
    && (forall r :: r in q.requirements ==> 0 <= r.requiredCount)
    && (forall c :: CanChoose(q, c) && WeeklyCap(q, c.emp).Some? ==> 0 <= WeeklyCap(q, c.emp).value)
    && (forall c :: CanChoose(q, c) && SlotOf(q, c).isWeekend && q.weekendShiftLimitPerMonth.Some?
          ==> 0 <= q.weekendShiftLimitPerMonth.value)
    && (forall c :: CanChoose(q, c) && SlotOf(q, c).isNight && q.nightShiftLimitPerMonth.Some?
          ==> 0 <= q.nightShiftLimitPerMonth.value)
  }

  /** Some schedule is legal exactly when the applicable limits are non-negative;
      the empty schedule is then legal. */
  lemma LegalScheduleExists(q: Request)
    ensures (exists s :: Legal(q, s)) <==> LimitsAreNonNegative(q)
    ensures LimitsAreNonNegative(q) ==> Legal(q, {})
  {
    if s :| Legal(q, s) {
      RemovalKeepsLegal(q, s, {});
      EmptyIsLegal(q);
    }
    EmptyIsLegal(q);
  }

  lemma EmptyIsLegal(q: Request)
    ensures Legal(q, {}) <==> LimitsAreNonNegative(q)
  {
    forall r ensures Filling({}, r) == {} {}
    forall e, w ensures ShiftsInWeek(q, {}, e, w) == {} {}
    forall e, m ensures WeekendShifts(q, {}, e, m) == {} {}
    forall e, m ensures NightShifts(q, {}, e, m) == {} {}
    forall e ensures WorkDates(q, {}, e) == {} {}
    if q.maxConsecutiveShifts.Some? && q.maxConsecutiveShifts.value > 0 {
      forall e, first ensures !ExceedsStreak(q, {}, e, first, q.maxConsecutiveShifts.value) {
        assert first !in WorkDates(q, {}, e);
      }
    }
  }
}
