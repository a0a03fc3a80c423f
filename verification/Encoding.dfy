/** The linear model that the compiler builds, family by family, as a function of the
    request. A variable is identified by what it was created for. */
module Encoding {
  import opened Options
  import opened Sequences
  import opened Sorting
  import opened LinearModel
  import opened DateRuns
  import opened Scheduling
  import opened Costs

  /** `pair` and `target` are positions in the request's lists of avoid pairs and
      staffing targets: two entries may be equal and still have their own variables. */
  datatype Var =
    | Assign(choice: Choice)
    | Unfilled(req: Requirement)
    | StaffCount(target: nat)
    | UnderStaffing(target: nat)
    | OverStaffing(target: nat)
    | AvoidA(pair: nat, slotId: Id)
    | AvoidB(pair: nat, slotId: Id)
    | AvoidViolation(pair: nat, slotId: Id)
    | ShiftCount(emp: Employee)
    | OverTarget(emp: Employee)
    | Worked(emp: Employee, date: int)
    | AdjacentRepeat(emp: Employee, date: int)

  type CpModel = Model<Var>

  type Valuation = Var -> int

  // ----- the dictionaries of variables -----

  function ToVar(): Choice -> Var { (c: Choice) => Assign(c) }

  function KeyIs<K(==)>(key: Choice -> K, k: K): Choice -> bool
  {
    (c: Choice) => key(c) == k
  }

  /** The variables of `choices` filed under `k`, in order of creation. */
  ghost function VarsUnder<K>(choices: seq<Choice>, key: Choice -> K, k: K): seq<Var>
  {
    Map(ToVar(), Filter(KeyIs(key, k), choices))
  }

  /** The keys under which something is filed, in order of first use. */
  ghost function KeysOf<K>(choices: seq<Choice>, key: Choice -> K): seq<K>
  {
    Dedup(Map(key, choices))
  }

  function ByRequirement(): Choice -> Requirement { (c: Choice) => c.req }

  function BySlot(): Choice -> Id { (c: Choice) => c.req.slotId }

  function ByEmployee(): Choice -> Employee { (c: Choice) => c.emp }

  function ByEmployeeSlot(): Choice -> (Employee, Id) { (c: Choice) => (c.emp, c.req.slotId) }

  function ByEmployeeIdSlot(): Choice -> (Id, Id) { (c: Choice) => (c.emp.id, c.req.slotId) }

  function ByEmployeeWeek(q: Request): Choice -> (Employee, int)
  {
    (c: Choice) => (c.emp, WeekKey(DateOf(q, c)))
  }

  function ByEmployeeDate(q: Request): Choice -> (Employee, int)
  {
    (c: Choice) => (c.emp, DateOf(q, c))
  }

  function ByEmployeeMonth(q: Request): Choice -> (Employee, int)
  {
    (c: Choice) => (c.emp, SlotOf(q, c).month)
  }

  function OnWeekend(q: Request): Choice -> bool { (c: Choice) => SlotOf(q, c).isWeekend }

  function AtNight(q: Request): Choice -> bool { (c: Choice) => SlotOf(q, c).isNight }

  // ----- pieces shared by several families -----

  function JustConstraint(c: Constraint<Var>): CpModel { Model([], [c], []) }

  function AtMostSum(vs: seq<Var>, limit: int): CpModel
  {
    JustConstraint(AtMost(SumOf(vs), Const(limit)))
  }

  /** The program adds no constraint on an empty list of variables. */
  function AtMostIfAny(vs: seq<Var>, limit: int): CpModel
  {
    if vs == [] then EmptyModel() else AtMostSum(vs, limit)
  }

  /** Makes the 0/1 variable `flag` true exactly when some variable of `vs` is. */
  function FlagConstraints(vs: seq<Var>, flag: Var): seq<Constraint<Var>>
  {
    [AtLeast(SumOf(vs), Of(flag)), AtMost(SumOf(vs), Scaled(|vs|, flag))]
  }

  /** Makes the 0/1 variable `both` true exactly when `a` and `b` are. */
  function BothConstraints(a: Var, b: Var, both: Var): seq<Constraint<Var>>
  {
    [AtMost(Of(both), Of(a)), AtMost(Of(both), Of(b)), AtLeast(Of(both), Expr([Term(1, a), Term(1, b)], -1))]
  }

  // ----- one function per family of the builder -----

  function ChoiceUnit(): Choice -> CpModel { (c: Choice) => Model([Decl(Assign(c), 0, 1)], [], []) }

  function UnfilledPiece(r: Requirement, vs: seq<Var>): CpModel
  {
    Model(
      [Decl(Unfilled(r), 0, r.requiredCount)],
      [Equal(Add(SumOf(vs), Of(Unfilled(r))), Const(r.requiredCount))],
      [Term(r.unfilledWeight * UNFILLED_SCALE, Unfilled(r))])
  }

  ghost function UnfilledUnit(q: Request): Requirement -> CpModel
  {
    (r: Requirement) => UnfilledPiece(r, VarsUnder(Choosable(q), ByRequirement(), r))
  }

  /** Everybody the requirements of a slot ask for. */
  function MaxStaff(requirements: seq<Requirement>, slotId: Id): int
  {
    if requirements == [] then 0
    else
      var n := |requirements| - 1;
      MaxStaff(requirements[..n], slotId)
      + if requirements[n].slotId == slotId then requirements[n].requiredCount else 0
  }

  function StaffingPiece(k: nat, t: StaffingTarget, maxStaff: int, vs: seq<Var>): CpModel
  {
    Model(
      [Decl(StaffCount(k), 0, maxStaff),
       Decl(UnderStaffing(k), 0, Max(t.target, 0)),
       Decl(OverStaffing(k), 0, Max(maxStaff - t.target, 0))],
      [Equal(Of(StaffCount(k)), SumOf(vs)),
       AtMost(Expr([Term(-1, StaffCount(k))], t.target), Of(UnderStaffing(k))),
       AtMost(Expr([Term(1, StaffCount(k))], -t.target), Of(OverStaffing(k)))],
      [Term(Max(t.underPenalty, 0), UnderStaffing(k)),
       Term(Max(t.overPenalty, 0), OverStaffing(k))])
  }

  ghost function StaffingUnit(q: Request): int -> CpModel
  {
    (k: int) =>
      if 0 <= k < |q.staffingTargets| then
        var t := q.staffingTargets[k];
        StaffingPiece(k, t, MaxStaff(q.requirements, t.slotId), VarsUnder(Choosable(q), BySlot(), t.slotId))
      else EmptyModel()
  }

  ghost function OneRoleUnit(q: Request): ((Employee, Id)) -> CpModel
  {
    (key: (Employee, Id)) => AtMostSum(VarsUnder(Choosable(q), ByEmployeeSlot(), key), 1)
  }

  function Normalized(a: Id, b: Id): (Id, Id) { if a <= b then (a, b) else (b, a) }

  ghost function BlockedAt(q: Request, p: BlockedPair): Slot -> CpModel
  {
    var (a, b) := Normalized(p.a, p.b);
    (t: Slot) => AtMostIfAny(
      VarsUnder(Choosable(q), ByEmployeeIdSlot(), (a, t.id)) + VarsUnder(Choosable(q), ByEmployeeIdSlot(), (b, t.id)),
      1)
  }

  ghost function BlockedUnit(q: Request): BlockedPair -> CpModel
  {
    (p: BlockedPair) => Family(BlockedAt(q, p), q.slots)
  }

  function AvoidPiece(k: nat, weight: int, slotId: Id, varsA: seq<Var>, varsB: seq<Var>): CpModel
  {
    if varsA == [] || varsB == [] then EmptyModel()
    else
      var a, b, both := AvoidA(k, slotId), AvoidB(k, slotId), AvoidViolation(k, slotId);
      Model(
        [Decl(a, 0, 1), Decl(b, 0, 1), Decl(both, 0, 1)],
        FlagConstraints(varsA, a) + FlagConstraints(varsB, b) + BothConstraints(a, b, both),
        [Term(weight, both)])
  }

  ghost function AvoidAt(q: Request, k: nat, p: AvoidPair): Slot -> CpModel
  {
    var (a, b) := Normalized(p.a, p.b);
    (t: Slot) => AvoidPiece(k, p.weight, t.id,
      VarsUnder(Choosable(q), ByEmployeeIdSlot(), (a, t.id)),
      VarsUnder(Choosable(q), ByEmployeeIdSlot(), (b, t.id)))
  }

  ghost function AvoidUnit(q: Request): int -> CpModel
  {
    (k: int) => if 0 <= k < |q.avoidPairs| then Family(AvoidAt(q, k, q.avoidPairs[k]), q.slots) else EmptyModel()
  }

  ghost function WeeklyUnit(q: Request): ((Employee, int)) -> CpModel
  {
    (key: (Employee, int)) =>
      if WeeklyCap(q, key.0).None? then EmptyModel()
      else AtMostSum(VarsUnder(Choosable(q), ByEmployeeWeek(q), key), WeeklyCap(q, key.0).value)
  }

  ghost function WeekendChoices(q: Request): seq<Choice> { Filter(OnWeekend(q), Choosable(q)) }

  ghost function NightChoices(q: Request): seq<Choice> { Filter(AtNight(q), Choosable(q)) }

  ghost function MonthlyUnit(q: Request, choices: seq<Choice>, limit: int): ((Employee, int)) -> CpModel
  {
    (key: (Employee, int)) => AtMostSum(VarsUnder(choices, ByEmployeeMonth(q), key), limit)
  }

  ghost function MonthlyFamily(q: Request, choices: seq<Choice>, limit: Option<int>): CpModel
  {
    if limit.None? then EmptyModel()
    else Family(MonthlyUnit(q, choices, limit.value), KeysOf(choices, ByEmployeeMonth(q)))
  }

  function RotationUnit(q: Request): Choice -> CpModel
  {
    (c: Choice) => Model([], [], [Term(TieBreaker(q, c), Assign(c))])
  }

  function FairnessPiece(e: Employee, vs: seq<Var>, fairTarget: int, weight: int): CpModel
  {
    if vs == [] then EmptyModel()
    else Model(
      [Decl(ShiftCount(e), 0, |vs|), Decl(OverTarget(e), 0, |vs|)],
      [Equal(Of(ShiftCount(e)), SumOf(vs)),
       AtMost(Expr([Term(1, ShiftCount(e))], -fairTarget), Of(OverTarget(e)))],
      [Term(weight, OverTarget(e))])
  }

  ghost function FairnessUnit(q: Request): Employee -> CpModel
  {
    (e: Employee) =>
      FairnessPiece(e, VarsUnder(Choosable(q), ByEmployee(), e), FairTarget(q), q.fairnessWeight)
  }

  ghost function WorkedUnit(q: Request): ((Employee, int)) -> CpModel
  {
    (key: (Employee, int)) => Model(
      [Decl(Worked(key.0, key.1), 0, 1)],
      FlagConstraints(VarsUnder(Choosable(q), ByEmployeeDate(q), key), Worked(key.0, key.1)),
      [])
  }

  ghost function WorkKeys(q: Request): seq<(Employee, int)> { KeysOf(Choosable(q), ByEmployeeDate(q)) }

  /** The distinct dates of the slots, in order. */
  function SlotDates(q: Request): seq<int>
  {
    SortedSet(seq(|q.slots|, i requires 0 <= i < |q.slots| => q.slots[i].localDate))
  }

  ghost function HasWork(q: Request, e: Employee): int -> bool
  {
    (d: int) => (e, d) in WorkKeys(q)
  }

  function WorkedVar(e: Employee): int -> Var { (d: int) => Worked(e, d) }

  ghost function WorkedVars(q: Request, e: Employee, dates: seq<int>): seq<Var>
  {
    Map(WorkedVar(e), Filter(HasWork(q, e), dates))
  }

  ghost function WindowUnit(q: Request, e: Employee, run: Run, limit: int): int -> CpModel
  {
    (i: int) =>
      if 0 <= i && i + limit + 1 <= |run| && 0 <= limit
      then AtMostIfAny(WorkedVars(q, e, run[i..i + limit + 1]), limit)
      else EmptyModel()
  }

  ghost function RunUnit(q: Request, e: Employee, limit: int): Run -> CpModel
  {
    (run: Run) => Family(WindowUnit(q, e, run, limit), Interval(0, |run| - limit))
  }

  ghost function StreakUnit(q: Request, limit: int): Employee -> CpModel
  {
    (e: Employee) => Family(RunUnit(q, e, limit), Runs(SlotDates(q)))
  }

  ghost function StreakFamily(q: Request): CpModel
  {
    if q.maxConsecutiveShifts.Some? && q.maxConsecutiveShifts.value > 0
    then Family(StreakUnit(q, q.maxConsecutiveShifts.value), q.employees)
    else EmptyModel()
  }

  function IsTimed(): Slot -> bool { (t: Slot) => Timed(t) }

  ghost function TimedSlots(q: Request): seq<Slot> { Filter(IsTimed(), q.slots) }

  /** At most one of two slots that leave too little rest between them. */
  ghost function RestPiece(q: Request, e: Employee, first: Slot, second: Slot, hours: int): CpModel
    requires Timed(first) && Timed(second)
  {
    var (earlier, later) :=
      if first.startsAt.value <= second.startsAt.value then (first, second) else (second, first);
    if later.startsAt.value - earlier.endsAt.value >= 3600 * hours then EmptyModel()
    else AtMostIfAny(
      VarsUnder(Choosable(q), ByEmployeeSlot(), (e, earlier.id))
      + VarsUnder(Choosable(q), ByEmployeeSlot(), (e, later.id)),
      1)
  }

  ghost function RestAgainst(q: Request, e: Employee, slots: seq<Slot>, i: int, hours: int): int -> CpModel
  {
    (j: int) =>
      if 0 <= i < |slots| && 0 <= j < |slots| && Timed(slots[i]) && Timed(slots[j])
      then RestPiece(q, e, slots[i], slots[j], hours)
      else EmptyModel()
  }

  ghost function RestFrom(q: Request, e: Employee, slots: seq<Slot>, hours: int): int -> CpModel
  {
    (i: int) => Family(RestAgainst(q, e, slots, i, hours), Interval(i + 1, |slots|))
  }

  ghost function RestUnit(q: Request, hours: int): Employee -> CpModel
  {
    (e: Employee) => Family(RestFrom(q, e, TimedSlots(q), hours), Interval(0, |TimedSlots(q)|))
  }

  ghost function RestFamily(q: Request): CpModel
  {
    if q.minRestHours.Some? && q.minRestHours.value > 0
    then Family(RestUnit(q, q.minRestHours.value), q.employees)
    else EmptyModel()
  }

  ghost function AdjacentPiece(q: Request, e: Employee, first: int, second: int): CpModel
  {
    if second - first != 1 || (e, first) !in WorkKeys(q) || (e, second) !in WorkKeys(q) then EmptyModel()
    else Model(
      [Decl(AdjacentRepeat(e, first), 0, 1)],
      BothConstraints(Worked(e, first), Worked(e, second), AdjacentRepeat(e, first)),
      [Term(ADJACENT_DAY_REPEAT_WEIGHT, AdjacentRepeat(e, first))])
  }

  ghost function AdjacentAt(q: Request, e: Employee, dates: seq<int>): int -> CpModel
  {
    (i: int) => if 0 <= i < |dates| - 1 then AdjacentPiece(q, e, dates[i], dates[i + 1]) else EmptyModel()
  }

  ghost function AdjacentUnit(q: Request): Employee -> CpModel
  {
    (e: Employee) => Family(AdjacentAt(q, e, SlotDates(q)), Interval(0, |SlotDates(q)| - 1))
  }

  // ----- the families, in the order of the program -----

  ghost function ChoiceFamily(q: Request): CpModel { Family(ChoiceUnit(), Choosable(q)) }

  ghost function UnfilledFamily(q: Request): CpModel { Family(UnfilledUnit(q), q.requirements) }

  ghost function StaffingFamily(q: Request): CpModel
  {
    Family(StaffingUnit(q), Interval(0, |q.staffingTargets|))
  }

  ghost function OneRoleFamily(q: Request): CpModel
  {
    Family(OneRoleUnit(q), KeysOf(Choosable(q), ByEmployeeSlot()))
  }

  ghost function BlockedFamily(q: Request): CpModel { Family(BlockedUnit(q), q.blockedPairs) }

  ghost function AvoidFamily(q: Request): CpModel { Family(AvoidUnit(q), Interval(0, |q.avoidPairs|)) }

  ghost function WeeklyFamily(q: Request): CpModel
  {
    Family(WeeklyUnit(q), KeysOf(Choosable(q), ByEmployeeWeek(q)))
  }

  ghost function WeekendFamily(q: Request): CpModel
  {
    MonthlyFamily(q, WeekendChoices(q), q.weekendShiftLimitPerMonth)
  }

  ghost function NightFamily(q: Request): CpModel
  {
    MonthlyFamily(q, NightChoices(q), q.nightShiftLimitPerMonth)
  }

  ghost function RotationFamily(q: Request): CpModel { Family(RotationUnit(q), Choosable(q)) }

  ghost function FairnessFamily(q: Request): CpModel { Family(FairnessUnit(q), q.employees) }

  ghost function WorkedFamily(q: Request): CpModel { Family(WorkedUnit(q), WorkKeys(q)) }

  ghost function AdjacentFamily(q: Request): CpModel { Family(AdjacentUnit(q), q.employees) }

  ghost function Same(): CpModel -> CpModel { (m: CpModel) => m }

  ghost function StaffingPart(q: Request): CpModel
  {
    Family(Same(), [ChoiceFamily(q), UnfilledFamily(q), StaffingFamily(q), OneRoleFamily(q), BlockedFamily(q)])
  }

  ghost function LimitPart(q: Request): CpModel
  {
    Family(Same(), [AvoidFamily(q), WeeklyFamily(q), WeekendFamily(q), NightFamily(q), RotationFamily(q)])
  }

  ghost function DayPart(q: Request): CpModel
  {
    Family(Same(), [FairnessFamily(q), WorkedFamily(q), StreakFamily(q), RestFamily(q), AdjacentFamily(q)])
  }

  /** The whole model. */
  ghost function Encoded(q: Request): CpModel
  {
    Plus(Plus(StaffingPart(q), LimitPart(q)), DayPart(q))
  }
}
