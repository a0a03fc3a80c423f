/** The objective is exact: over the valuations that choose a schedule, its least value
    is the directly defined cost of the schedule. */
module ObjectiveReading {
  import opened Options
  import opened Sequences
  import opened Sorting
  import opened LinearModel
  import opened DateRuns
  import opened Scheduling
  import opened Costs
  import opened Encoding
  import opened Reading
  import opened ReadingLimits
  import opened ReadingDates
  import opened Exactness

  // ----- sums -----

  /** A family without objective terms adds nothing. */
  lemma NoTerms<K>(val: Valuation, unit: K -> CpModel, keys: seq<K>)
    requires forall k :: k in keys ==> Objective(val, unit(k)) == 0
    ensures Objective(val, Family(unit, keys)) == 0
  {
    SatisfiesFamily(val, unit, keys);
    SumOfZeros(ObjectiveOf(val, unit), keys);
  }

  /** Summing over positions is summing over the elements there. */
  lemma {:induction false} SumByPosition<A>(f: int -> int, g: A -> int, xs: seq<A>)
    requires forall k :: 0 <= k < |xs| ==> g(xs[k]) <= f(k)
    ensures Sum(g, xs) <= Sum(f, Interval(0, |xs|))
    ensures (forall k :: 0 <= k < |xs| ==> g(xs[k]) == f(k)) ==> Sum(g, xs) == Sum(f, Interval(0, |xs|))
  {
    if xs != [] {
      var n := |xs| - 1;
      SumByPosition(f, g, xs[..n]);
      IntervalStep(0, n);
      SumStep(f, Interval(0, n), n);
    }
  }

  lemma {:induction false} SumOfScaled<A>(f: A -> int, k: int, s: set<A>, xs: seq<A>)
    requires forall x :: x in xs ==> f(x) == k * Indicator(s)(x)
    ensures Sum(f, xs) == k * Sum(Indicator(s), xs)
  {
    if xs != [] {
      var n := |xs| - 1;
      SumOfScaled(f, k, s, xs[..n]);
      calc {
        Sum(f, xs);
        Sum(f, xs[..n]) + f(xs[n]);
        k * Sum(Indicator(s), xs[..n]) + k * Indicator(s)(xs[n]);
        k * (Sum(Indicator(s), xs[..n]) + Indicator(s)(xs[n]));
        k * Sum(Indicator(s), xs);
      }
    }
  }

  // ----- families without terms -----

  lemma PlainFamilies(q: Request, val: Valuation)
    ensures Objective(val, ChoiceFamily(q)) == 0
    ensures Objective(val, OneRoleFamily(q)) == 0
    ensures Objective(val, WeeklyFamily(q)) == 0
    ensures Objective(val, WorkedFamily(q)) == 0
  {
    NoTerms(val, ChoiceUnit(), Choosable(q));
    NoTerms(val, OneRoleUnit(q), KeysOf(Choosable(q), ByEmployeeSlot()));
    NoTerms(val, WeeklyUnit(q), KeysOf(Choosable(q), ByEmployeeWeek(q)));
    NoTerms(val, WorkedUnit(q), WorkKeys(q));
  }

  lemma MonthlyFamilies(q: Request, val: Valuation, choices: seq<Choice>, limit: Option<int>)
    ensures Objective(val, MonthlyFamily(q, choices, limit)) == 0
  {
    if limit.Some? {
      NoTerms(val, MonthlyUnit(q, choices, limit.value), KeysOf(choices, ByEmployeeMonth(q)));
    }
  }

  lemma BlockedFamilyPlain(q: Request, val: Valuation)
    ensures Objective(val, BlockedFamily(q)) == 0
  {
    forall p ensures Objective(val, BlockedUnit(q)(p)) == 0 {
      forall t ensures Objective(val, BlockedAt(q, p)(t)) == 0 {}
      NoTerms(val, BlockedAt(q, p), q.slots);
    }
    NoTerms(val, BlockedUnit(q), q.blockedPairs);
  }

  lemma WindowPlain(q: Request, val: Valuation, e: Employee, run: Run, limit: int, i: int)
    ensures Objective(val, WindowUnit(q, e, run, limit)(i)) == 0
  {
    var m := WindowUnit(q, e, run, limit)(i);
    if 0 <= i && i + limit + 1 <= |run| && 0 <= limit {
      assert m == AtMostIfAny(WorkedVars(q, e, run[i..i + limit + 1]), limit);
    } else {
      assert m == EmptyModel();
    }
  }

  lemma StreakUnitPlain(q: Request, val: Valuation, limit: int, e: Employee)
    ensures Objective(val, StreakUnit(q, limit)(e)) == 0
  {
    forall run ensures Objective(val, RunUnit(q, e, limit)(run)) == 0 {
      forall i ensures Objective(val, WindowUnit(q, e, run, limit)(i)) == 0 {
        WindowPlain(q, val, e, run, limit, i);
      }
      NoTerms(val, WindowUnit(q, e, run, limit), Interval(0, |run| - limit));
    }
    NoTerms(val, RunUnit(q, e, limit), Runs(SlotDates(q)));
  }

  lemma StreakFamilyPlain(q: Request, val: Valuation)
    ensures Objective(val, StreakFamily(q)) == 0
  {
    if q.maxConsecutiveShifts.Some? && q.maxConsecutiveShifts.value > 0 {
      var limit := q.maxConsecutiveShifts.value;
      forall e ensures Objective(val, StreakUnit(q, limit)(e)) == 0 {
        StreakUnitPlain(q, val, limit, e);
      }
      NoTerms(val, StreakUnit(q, limit), q.employees);
    }
  }

  lemma RestUnitPlain(q: Request, val: Valuation, hours: int, e: Employee)
    ensures Objective(val, RestUnit(q, hours)(e)) == 0
  {
    var slots := TimedSlots(q);
    forall i ensures Objective(val, RestFrom(q, e, slots, hours)(i)) == 0 {
      NoTerms(val, RestAgainst(q, e, slots, i, hours), Interval(i + 1, |slots|));
    }
    NoTerms(val, RestFrom(q, e, slots, hours), Interval(0, |slots|));
  }

  lemma RestFamilyPlain(q: Request, val: Valuation)
    ensures Objective(val, RestFamily(q)) == 0
  {
    if q.minRestHours.Some? && q.minRestHours.value > 0 {
      var hours := q.minRestHours.value;
      forall e ensures Objective(val, RestUnit(q, hours)(e)) == 0 {
        RestUnitPlain(q, val, hours, e);
      }
      NoTerms(val, RestUnit(q, hours), q.employees);
    }
  }

  // ----- unfilled requirements -----

  lemma UnfilledObjectiveAt(q: Request, val: Valuation, s: Schedule, r: Requirement)
    requires UnfilledRead(val, s, r)
    ensures ObjectiveOf(val, UnfilledUnit(q))(r) == UnfilledCost(q, s)(r)
  {
    OneTerm(val, r.unfilledWeight * UNFILLED_SCALE, Unfilled(r));
    assert val(Unfilled(r)) == r.requiredCount - |Filling(s, r)|;
  }

  lemma UnfilledObjective(q: Request, val: Valuation, s: Schedule)
    requires Basis(q, val, s) && Satisfies(val, UnfilledFamily(q))
    ensures Objective(val, UnfilledFamily(q)) == Sum(UnfilledCost(q, s), q.requirements)
  {
    SatisfiesFamily(val, UnfilledUnit(q), q.requirements);
    ReadUnfilled(q, val, s);
    forall r | r in q.requirements ensures ObjectiveOf(val, UnfilledUnit(q))(r) == UnfilledCost(q, s)(r) {
      UnfilledObjectiveAt(q, val, s, r);
    }
    SumAgrees(ObjectiveOf(val, UnfilledUnit(q)), UnfilledCost(q, s), q.requirements);
  }

  // ----- staffing targets -----

  /** The penalty variables of a target are as low as its constraints allow. */
  ghost predicate StaffingTight(q: Request, val: Valuation, s: Schedule, k: nat)
    requires k < |q.staffingTargets|
  {
    var t := q.staffingTargets[k];
    && val(UnderStaffing(k)) == Max(t.target - |Staffing(s, t.slotId)|, 0)
    && val(OverStaffing(k)) == Max(|Staffing(s, t.slotId)| - t.target, 0)
  }

  lemma ScaleMonotone(k: int, x: int, y: int)
    requires 0 <= k && x <= y
    ensures k * x <= k * y
  {
  }

  lemma StaffingTerms(val: Valuation, k: nat, t: StaffingTarget, maxStaff: int, vs: seq<Var>)
    ensures Objective(val, StaffingPiece(k, t, maxStaff, vs)) ==
      Max(t.underPenalty, 0) * val(UnderStaffing(k)) + Max(t.overPenalty, 0) * val(OverStaffing(k))
  {
    var under := Term(Max(t.underPenalty, 0), UnderStaffing(k));
    var over := Term(Max(t.overPenalty, 0), OverStaffing(k));
    OneTerm(val, under.coef, under.v);
    OneTerm(val, over.coef, over.v);
    TermsConcat(val, [under], [over]);
    assert [under] + [over] == [under, over];
  }

  lemma StaffingObjectiveAt(q: Request, val: Valuation, s: Schedule, k: nat)
    requires k < |q.staffingTargets| && StaffingRead(q, val, s, k)
    ensures StaffingCost(s)(q.staffingTargets[k]) <= ObjectiveOf(val, StaffingUnit(q))(k)
    ensures StaffingTight(q, val, s, k) ==>
      StaffingCost(s)(q.staffingTargets[k]) == ObjectiveOf(val, StaffingUnit(q))(k)
  {
    var t := q.staffingTargets[k];
    var staff := |Staffing(s, t.slotId)|;
    StaffingTerms(val, k, t, MaxStaff(q.requirements, t.slotId), VarsUnder(Choosable(q), BySlot(), t.slotId));
    ScaleMonotone(Max(t.underPenalty, 0), Max(t.target - staff, 0), val(UnderStaffing(k)));
    ScaleMonotone(Max(t.overPenalty, 0), Max(staff - t.target, 0), val(OverStaffing(k)));
  }

  lemma StaffingObjective(q: Request, val: Valuation, s: Schedule)
    requires Basis(q, val, s) && Satisfies(val, StaffingFamily(q))
    ensures Sum(StaffingCost(s), q.staffingTargets) <= Objective(val, StaffingFamily(q))
    ensures (forall k: nat :: k < |q.staffingTargets| ==> StaffingTight(q, val, s, k)) ==>
      Sum(StaffingCost(s), q.staffingTargets) == Objective(val, StaffingFamily(q))
  {
    SatisfiesRange(val, StaffingUnit(q), 0, |q.staffingTargets|);
    ReadStaffing(q, val, s);
    forall k: nat | k < |q.staffingTargets|
      ensures StaffingCost(s)(q.staffingTargets[k]) <= ObjectiveOf(val, StaffingUnit(q))(k)
      ensures StaffingTight(q, val, s, k) ==>
        StaffingCost(s)(q.staffingTargets[k]) == ObjectiveOf(val, StaffingUnit(q))(k)
    {
      StaffingObjectiveAt(q, val, s, k);
    }
    SumByPosition(ObjectiveOf(val, StaffingUnit(q)), StaffingCost(s), q.staffingTargets);
  }

  // ----- pairs to keep apart -----

  lemma AvoidObjectiveAt(q: Request, val: Valuation, s: Schedule, k: nat, t: Slot)
    requires Basis(q, val, s) && OneRolePerSlot(s) && k < |q.avoidPairs| && t in q.slots
    requires AvoidRead(q, val, s, k, t)
    ensures ObjectiveOf(val, AvoidAt(q, k, q.avoidPairs[k]))(t)
      == q.avoidPairs[k].weight * Indicator(SharedSlots(q, s, q.avoidPairs[k]))(t)
  {
    var p := q.avoidPairs[k];
    var (a, b) := Normalized(p.a, p.b);
    PresenceInSlot(q, val, s, a, t.id);
    PresenceInSlot(q, val, s, b, t.id);
    OneTerm(val, p.weight, AvoidViolation(k, t.id));
  }

  lemma AvoidObjectiveOf(q: Request, val: Valuation, s: Schedule, k: nat)
    requires Basis(q, val, s) && OneRolePerSlot(s) && k < |q.avoidPairs|
    requires AvoidReadEverywhere(q, val, s, k)
    ensures ObjectiveOf(val, AvoidUnit(q))(k) == AvoidCost(q, s)(q.avoidPairs[k])
  {
    var p := q.avoidPairs[k];
    var unit := AvoidAt(q, k, p);
    SatisfiesFamily(val, unit, q.slots);
    forall t | t in q.slots ensures ObjectiveOf(val, unit)(t) == p.weight * Indicator(SharedSlots(q, s, p))(t) {
      AvoidObjectiveAt(q, val, s, k, t);
    }
    SumOfScaled(ObjectiveOf(val, unit), p.weight, SharedSlots(q, s, p), q.slots);
    CountIsCardinality(SharedSlots(q, s, p), q.slots);
    assert SharedSlots(q, s, p) == set t | t in SharedSlots(q, s, p) && t in q.slots;
  }

  lemma AvoidObjective(q: Request, val: Valuation, s: Schedule)
    requires Basis(q, val, s) && OneRolePerSlot(s) && Satisfies(val, AvoidFamily(q))
    ensures Objective(val, AvoidFamily(q)) == Sum(AvoidCost(q, s), q.avoidPairs)
  {
    SatisfiesRange(val, AvoidUnit(q), 0, |q.avoidPairs|);
    ReadAvoid(q, val, s);
    forall k: nat | k < |q.avoidPairs|
      ensures ObjectiveOf(val, AvoidUnit(q))(k) == AvoidCost(q, s)(q.avoidPairs[k])
    {
      AvoidObjectiveOf(q, val, s, k);
    }
    SumByPosition(ObjectiveOf(val, AvoidUnit(q)), AvoidCost(q, s), q.avoidPairs);
  }

  // ----- rotation -----

  lemma RotationObjectiveAt(q: Request, val: Valuation, s: Schedule, c: Choice)
    requires val(Assign(c)) == if c in s then 1 else 0
    ensures ObjectiveOf(val, RotationUnit(q))(c) == RotationCost(q, s)(c)
  {
    OneTerm(val, TieBreaker(q, c), Assign(c));
    var unit := RotationUnit(q);
    assert unit(c).objective == [Term(TieBreaker(q, c), Assign(c))];
    assert ObjectiveOf(val, unit)(c) == TieBreaker(q, c) * val(Assign(c));
  }

  lemma RotationObjective(q: Request, val: Valuation, s: Schedule)
    requires Basis(q, val, s)
    ensures Objective(val, RotationFamily(q)) == Sum(RotationCost(q, s), Choosable(q))
  {
    SatisfiesFamily(val, RotationUnit(q), Choosable(q));
    forall c | c in Choosable(q) ensures ObjectiveOf(val, RotationUnit(q))(c) == RotationCost(q, s)(c) {
      RotationObjectiveAt(q, val, s, c);
    }
    SumAgrees(ObjectiveOf(val, RotationUnit(q)), RotationCost(q, s), Choosable(q));
  }

  // ----- fairness -----

  ghost predicate FairnessTight(q: Request, val: Valuation, s: Schedule, e: Employee)
  {
    val(OverTarget(e)) == CountedOver(q, s, e)
  }

  /** The only objective term of an employee is the weighted over-target variable. */
  lemma FairnessTerm(q: Request, val: Valuation, e: Employee)
    requires WellFormed(q)
    ensures ObjectiveOf(val, FairnessUnit(q))(e)
      == if |OptionsOf(q, e)| > 0 then q.fairnessWeight * val(OverTarget(e)) else 0
  {
    var vs := VarsUnder(Choosable(q), ByEmployee(), e);
    OptionsCount(q, e);
    OneTerm(val, q.fairnessWeight, OverTarget(e));
    assert FairnessUnit(q)(e) == FairnessPiece(e, vs, FairTarget(q), q.fairnessWeight);
  }

  lemma WorkedWithinOptions(q: Request, s: Schedule, e: Employee)
    requires OnlyEligible(q, s)
    ensures |ShiftsOf(s, e)| <= |OptionsOf(q, e)|
  {
    ChoosableMembers(q);
    SubsetCardinality(ShiftsOf(s, e), OptionsOf(q, e));
  }

  /** The over-target variable lies on the costly side of what is counted. */
  lemma OverBounds(q: Request, val: Valuation, s: Schedule, e: Employee)
    requires OnlyEligible(q, s) && FairnessRead(q, val, s, e)
    ensures |OptionsOf(q, e)| == 0 ==> CountedOver(q, s, e) == 0
    ensures |OptionsOf(q, e)| > 0 && q.fairnessWeight >= 0 ==> CountedOver(q, s, e) <= val(OverTarget(e))
    ensures |OptionsOf(q, e)| > 0 && q.fairnessWeight < 0 ==> val(OverTarget(e)) <= CountedOver(q, s, e)
  {
    WorkedWithinOptions(q, s, e);
  }

  lemma WeightedBounds(weight: int, counted: int, over: int, present: bool, cost: int, objective: int)
    requires cost == weight * counted && objective == if present then weight * over else 0
    requires present && weight >= 0 ==> counted <= over
    requires present && weight < 0 ==> over <= counted
    requires !present ==> counted == 0
    ensures cost <= objective
    ensures over == counted ==> cost == objective
  {
    if present {
      if weight >= 0 {
        ScaleMonotone(weight, counted, over);
      } else {
        ScaleMonotone(-weight, over, counted);
      }
    }
  }

  lemma FairnessCostIs(q: Request, s: Schedule, e: Employee)
    ensures FairnessCost(q, s)(e) == q.fairnessWeight * CountedOver(q, s, e)
  {
  }

  lemma FairnessObjectiveOf(q: Request, val: Valuation, s: Schedule, e: Employee)
    requires Basis(q, val, s) && OnlyEligible(q, s) && e in q.employees && FairnessRead(q, val, s, e)
    ensures FairnessCost(q, s)(e) <= ObjectiveOf(val, FairnessUnit(q))(e)
    ensures FairnessTight(q, val, s, e) ==> FairnessCost(q, s)(e) == ObjectiveOf(val, FairnessUnit(q))(e)
  {
    FairnessTerm(q, val, e);
    OverBounds(q, val, s, e);
    FairnessCostIs(q, s, e);
    WeightedBounds(q.fairnessWeight, CountedOver(q, s, e), val(OverTarget(e)), |OptionsOf(q, e)| > 0,
                   FairnessCost(q, s)(e), ObjectiveOf(val, FairnessUnit(q))(e));
  }

  lemma FairnessObjective(q: Request, val: Valuation, s: Schedule)
    requires Basis(q, val, s) && OnlyEligible(q, s) && Satisfies(val, FairnessFamily(q))
    ensures Sum(FairnessCost(q, s), q.employees) <= Objective(val, FairnessFamily(q))
    ensures (forall e :: e in q.employees ==> FairnessTight(q, val, s, e)) ==>
      Sum(FairnessCost(q, s), q.employees) == Objective(val, FairnessFamily(q))
  {
    SatisfiesFamily(val, FairnessUnit(q), q.employees);
    ReadFairness(q, val, s);
    forall e | e in q.employees
      ensures FairnessCost(q, s)(e) <= ObjectiveOf(val, FairnessUnit(q))(e)
      ensures FairnessTight(q, val, s, e) ==> FairnessCost(q, s)(e) == ObjectiveOf(val, FairnessUnit(q))(e)
    {
      FairnessObjectiveOf(q, val, s, e);
    }
    SumMonotone(FairnessCost(q, s), ObjectiveOf(val, FairnessUnit(q)), q.employees);
    if forall e :: e in q.employees ==> FairnessTight(q, val, s, e) {
      SumAgrees(FairnessCost(q, s), ObjectiveOf(val, FairnessUnit(q)), q.employees);
    }
  }

  // ----- adjacent repeats -----

  /** `first` and `second` are neighbours among the slot dates, so a repeat that starts
      on `first` continues on `second`. */
  lemma RepeatIsNeighbour(q: Request, s: Schedule, e: Employee, i: int)
    requires WellFormed(q) && OnlyEligible(q, s) && 0 <= i < |SlotDates(q)| - 1
    ensures SlotDates(q)[i] in AdjacentRepeats(q, s, e) <==>
      && SlotDates(q)[i + 1] - SlotDates(q)[i] == 1
      && SlotDates(q)[i] in WorkDates(q, s, e) && SlotDates(q)[i + 1] in WorkDates(q, s, e)
  {
    var dates := SlotDates(q);
    var first, second := dates[i], dates[i + 1];
    SlotDatesMembers(q);
    WorkDatesAreSlotDates(q, s, e);
    assert first < second;
    if first + 1 in dates {
      var j :| 0 <= j < |dates| && dates[j] == first + 1;
      assert i < j;
      assert second <= dates[j];
    }
  }

  lemma AdjacentObjectiveAt(q: Request, val: Valuation, s: Schedule, e: Employee, i: int)
    requires WellFormed(q) && OnlyEligible(q, s) && 0 <= i < |SlotDates(q)| - 1
    requires AdjacentRead(q, val, s, e, SlotDates(q)[i], SlotDates(q)[i + 1])
    ensures ObjectiveOf(val, AdjacentAt(q, e, SlotDates(q)))(i)
      == ADJACENT_DAY_REPEAT_WEIGHT * Indicator(AdjacentRepeats(q, s, e))(SlotDates(q)[i])
  {
    var dates := SlotDates(q);
    assert AdjacentAt(q, e, dates)(i) == AdjacentPiece(q, e, dates[i], dates[i + 1]);
    OneTerm(val, ADJACENT_DAY_REPEAT_WEIGHT, AdjacentRepeat(e, dates[i]));
    RepeatIsNeighbour(q, s, e, i);
    WorkDatesAreSlotDates(q, s, e);
  }

  lemma AdjacentObjectiveIsSum(q: Request, val: Valuation, e: Employee)
    ensures ObjectiveOf(val, AdjacentUnit(q))(e)
      == Sum(ObjectiveOf(val, AdjacentAt(q, e, SlotDates(q))), Interval(0, |SlotDates(q)| - 1))
  {
    SatisfiesRange(val, AdjacentAt(q, e, SlotDates(q)), 0, |SlotDates(q)| - 1);
  }

  lemma AdjacentObjectiveOf(q: Request, val: Valuation, s: Schedule, e: Employee)
    requires WellFormed(q) && OnlyEligible(q, s) && AdjacentReadAll(q, val, s, e)
    ensures ObjectiveOf(val, AdjacentUnit(q))(e) == AdjacentCost(q, s)(e)
  {
    var dates := SlotDates(q);
    var repeats := AdjacentRepeats(q, s, e);
    AdjacentObjectiveIsSum(q, val, e);
    RepeatsBeforeLast(q, s, e);
    if |dates| > 1 {
      forall i | 0 <= i < |dates| - 1
        ensures ObjectiveOf(val, AdjacentAt(q, e, dates))(i)
          == ADJACENT_DAY_REPEAT_WEIGHT * Indicator(repeats)(dates[i])
      {
        AdjacentObjectiveAt(q, val, s, e, i);
      }
      SlotDatesMembers(q);
      SumOfRepeats(ObjectiveOf(val, AdjacentAt(q, e, dates)), dates, repeats);
    }
  }

  lemma SumOfRepeats(f: int -> int, dates: seq<int>, repeats: set<int>)
    requires |dates| > 1 && Increasing(dates)
    requires forall i :: 0 <= i < |dates| - 1 ==> f(i) == ADJACENT_DAY_REPEAT_WEIGHT * Indicator(repeats)(dates[i])
    requires repeats == set d | d in repeats && d in dates[..|dates| - 1]
    ensures Sum(f, Interval(0, |dates| - 1)) == ADJACENT_DAY_REPEAT_WEIGHT * |repeats|
  {
    var front := dates[..|dates| - 1];
    var weighted := Weighted(ADJACENT_DAY_REPEAT_WEIGHT, repeats);
    assert NoDuplicates(front);
    SumByPosition(f, weighted, front);
    SumOfScaled(weighted, ADJACENT_DAY_REPEAT_WEIGHT, repeats, front);
    CountIsCardinality(repeats, front);
  }

  ghost function Weighted(w: int, s: set<int>): int -> int
  {
    (x: int) => w * Indicator(s)(x)
  }

  /** A repeat never starts on the last date. */
  lemma RepeatsBeforeLast(q: Request, s: Schedule, e: Employee)
    requires WellFormed(q) && OnlyEligible(q, s)
    ensures |SlotDates(q)| <= 1 ==> AdjacentRepeats(q, s, e) == {}
    ensures |SlotDates(q)| > 1 ==>
      AdjacentRepeats(q, s, e) ==
        set d | d in AdjacentRepeats(q, s, e) && d in SlotDates(q)[..|SlotDates(q)| - 1]
  {
    var dates := SlotDates(q);
    SlotDatesMembers(q);
    WorkDatesAreSlotDates(q, s, e);
    forall d | d in AdjacentRepeats(q, s, e) ensures |dates| > 1 && d in dates[..|dates| - 1] {
      assert WorksNextDay(q, s, e, d);
      var i :| 0 <= i < |dates| && dates[i] == d;
      var j :| 0 <= j < |dates| && dates[j] == d + 1;
      assert i < j;
      assert dates[..|dates| - 1][i] == d;
    }
  }

  lemma AdjacentObjective(q: Request, val: Valuation, s: Schedule)
    requires Basis(q, val, s) && OnlyEligible(q, s) && AllWorkedRead(q, val, s) && Satisfies(val, AdjacentFamily(q))
    ensures Objective(val, AdjacentFamily(q)) == Sum(AdjacentCost(q, s), q.employees)
  {
    SatisfiesFamily(val, AdjacentUnit(q), q.employees);
    ReadAdjacent(q, val, s);
    forall e | e in q.employees ensures ObjectiveOf(val, AdjacentUnit(q))(e) == AdjacentCost(q, s)(e) {
      AdjacentObjectiveOf(q, val, s, e);
    }
    SumAgrees(ObjectiveOf(val, AdjacentUnit(q)), AdjacentCost(q, s), q.employees);
  }

  // ----- the main result -----

  ghost predicate Tight(q: Request, val: Valuation, s: Schedule)
  {
    && (forall k: nat :: k < |q.staffingTargets| ==> StaffingTight(q, val, s, k))
    && (forall e :: e in q.employees ==> FairnessTight(q, val, s, e))
  }

  /** Every satisfying valuation costs at least what the schedule it chooses costs. */
  lemma ObjectiveAtLeastCost(q: Request, val: Valuation)
    requires WellFormed(q) && SlotsInOrder(q) && Satisfies(val, Encoded(q))
    ensures Cost(q, Chosen(q, val)) <= Objective(val, Encoded(q))
    ensures Tight(q, val, Chosen(q, val)) ==> Cost(q, Chosen(q, val)) == Objective(val, Encoded(q))
  {
    var s := Chosen(q, val);
    BasisOf(q, val);
    EncodedIsEach(q, val);
    ReadOneRole(q, val, s);
    ReadWorked(q, val, s);
    UnfilledObjective(q, val, s);
    StaffingObjective(q, val, s);
    AvoidObjective(q, val, s);
    RotationObjective(q, val, s);
    FairnessObjective(q, val, s);
    AdjacentObjective(q, val, s);
    PlainObjective(q, val);
  }

  /** Only six families have objective terms. */
  lemma PlainObjective(q: Request, val: Valuation)
    ensures Objective(val, Encoded(q)) ==
      Objective(val, UnfilledFamily(q)) + Objective(val, StaffingFamily(q)) + Objective(val, AvoidFamily(q))
      + Objective(val, RotationFamily(q)) + Objective(val, FairnessFamily(q)) + Objective(val, AdjacentFamily(q))
  {
    EncodedParts(q, val);
    StaffingPartIsEach(q, val);
    LimitPartIsEach(q, val);
    DayPartIsEach(q, val);
    PlainFamilies(q, val);
    MonthlyFamilies(q, val, WeekendChoices(q), q.weekendShiftLimitPerMonth);
    MonthlyFamilies(q, val, NightChoices(q), q.nightShiftLimitPerMonth);
    BlockedFamilyPlain(q, val);
    StreakFamilyPlain(q, val);
    RestFamilyPlain(q, val);
  }

  lemma WitnessIsTight(q: Request, s: Schedule)
    ensures Tight(q, Witness(q, s), s)
  {
  }

  /** The objective is exact: for a legal schedule, the least objective over the
      valuations that choose it is its cost. */
  lemma ObjectiveIsExact(q: Request, s: Schedule)
    requires WellFormed(q) && SlotsInOrder(q) && Legal(q, s)
    ensures forall val :: Chooses(q, val, s) ==> Cost(q, s) <= Objective(val, Encoded(q))
    ensures exists val :: Chooses(q, val, s) && Objective(val, Encoded(q)) == Cost(q, s)
  {
    forall val | Chooses(q, val, s) ensures Cost(q, s) <= Objective(val, Encoded(q)) {
      ObjectiveAtLeastCost(q, val);
    }
    LegalHasWitness(q, s);
    WitnessIsTight(q, s);
    ObjectiveAtLeastCost(q, Witness(q, s));
    assert Chooses(q, Witness(q, s), s);
  }

  ghost predicate Optimal(q: Request, val: Valuation)
  {
    && Satisfies(val, Encoded(q))
    && (forall other :: Satisfies(other, Encoded(q)) ==> Objective(val, Encoded(q)) <= Objective(other, Encoded(q)))
  }

  ghost predicate LeastCost(q: Request, s: Schedule)
  {
    Legal(q, s) && forall other :: Legal(q, other) ==> Cost(q, s) <= Cost(q, other)
  }

  /** An optimal valuation chooses a least-cost legal schedule, and every least-cost
      legal schedule is chosen by an optimal valuation. */
  lemma OptimalIsLeastCost(q: Request, s: Schedule)
    requires WellFormed(q) && SlotsInOrder(q)
    ensures (exists val :: Optimal(q, val) && Chosen(q, val) == s) <==> LeastCost(q, s)
  {
    if val :| Optimal(q, val) && Chosen(q, val) == s {
      OptimalChoosesLeastCost(q, val);
    }
    if LeastCost(q, s) {
      LegalHasWitness(q, s);
      WitnessIsTight(q, s);
      var val := Witness(q, s);
      ObjectiveAtLeastCost(q, val);
      forall other | Satisfies(other, Encoded(q))
        ensures Objective(val, Encoded(q)) <= Objective(other, Encoded(q))
      {
        ValuationIsLegal(q, other);
        ObjectiveAtLeastCost(q, other);
      }
      assert Optimal(q, val) && Chosen(q, val) == s;
    }
  }

  lemma OptimalChoosesLeastCost(q: Request, val: Valuation)
    requires WellFormed(q) && SlotsInOrder(q) && Optimal(q, val)
    ensures LeastCost(q, Chosen(q, val))
    ensures Objective(val, Encoded(q)) == Cost(q, Chosen(q, val))
  {
    var s := Chosen(q, val);
    ValuationIsLegal(q, val);
    ObjectiveAtLeastCost(q, val);
    forall other | Legal(q, other) ensures Objective(val, Encoded(q)) <= Cost(q, other) {
      LegalHasWitness(q, other);
      WitnessIsTight(q, other);
      ObjectiveAtLeastCost(q, Witness(q, other));
    }
  }
}
