/** The encoding is exact: its valuations are the legal schedules. */
module Exactness {
  import opened Options
  import opened Sequences
  import opened Sorting
  import opened LinearModel
  import opened DateRuns
  import opened Scheduling
  import opened Costs
  import opened Encoding
  import opened Reading
  import opened ReadingLimits
  import opened ReadingDates

  lemma FiveFamilies(val: Valuation, a: CpModel, b: CpModel, c: CpModel, d: CpModel, e: CpModel)
    ensures Satisfies(val, Family(Same(), [a, b, c, d, e])) <==>
      Satisfies(val, a) && Satisfies(val, b) && Satisfies(val, c) && Satisfies(val, d) && Satisfies(val, e)
    ensures Objective(val, Family(Same(), [a, b, c, d, e])) ==
      Objective(val, a) + Objective(val, b) + Objective(val, c) + Objective(val, d) + Objective(val, e)
  {
    assert [a, b, c, d, e] == [a, b, c, d] + [e];
    FamilyStep(Same(), [a, b, c, d], e);
    assert [a, b, c, d] == [a, b, c] + [d];
    FamilyStep(Same(), [a, b, c], d);
    assert [a, b, c] == [a, b] + [c];
    FamilyStep(Same(), [a, b], c);
    assert [a, b] == [a] + [b];
    FamilyStep(Same(), [a], b);
    FamilyStep(Same(), [], a);
    assert [] + [a] == [a];
    PlusEmpty(a);
    SatisfiesPlus(val, a, b);
    SatisfiesPlus(val, Plus(a, b), c);
    SatisfiesPlus(val, Plus(Plus(a, b), c), d);
    SatisfiesPlus(val, Plus(Plus(Plus(a, b), c), d), e);
  }

  ghost predicate SatisfiesStaffingPart(q: Request, val: Valuation)
  {
    && Satisfies(val, ChoiceFamily(q)) && Satisfies(val, UnfilledFamily(q)) && Satisfies(val, StaffingFamily(q))
    && Satisfies(val, OneRoleFamily(q)) && Satisfies(val, BlockedFamily(q))
  }

  ghost predicate SatisfiesLimitPart(q: Request, val: Valuation)
  {
    && Satisfies(val, AvoidFamily(q)) && Satisfies(val, WeeklyFamily(q)) && Satisfies(val, WeekendFamily(q))
    && Satisfies(val, NightFamily(q)) && Satisfies(val, RotationFamily(q))
  }

  ghost predicate SatisfiesDayPart(q: Request, val: Valuation)
  {
    && Satisfies(val, FairnessFamily(q)) && Satisfies(val, WorkedFamily(q)) && Satisfies(val, StreakFamily(q))
    && Satisfies(val, RestFamily(q)) && Satisfies(val, AdjacentFamily(q))
  }

  lemma StaffingPartIsEach(q: Request, val: Valuation)
    ensures Satisfies(val, StaffingPart(q)) <==> SatisfiesStaffingPart(q, val)
    ensures Objective(val, StaffingPart(q)) ==
      Objective(val, ChoiceFamily(q)) + Objective(val, UnfilledFamily(q)) + Objective(val, StaffingFamily(q))
      + Objective(val, OneRoleFamily(q)) + Objective(val, BlockedFamily(q))
  {
    FiveFamilies(val, ChoiceFamily(q), UnfilledFamily(q), StaffingFamily(q), OneRoleFamily(q), BlockedFamily(q));
  }

  lemma LimitPartIsEach(q: Request, val: Valuation)
    ensures Satisfies(val, LimitPart(q)) <==> SatisfiesLimitPart(q, val)
    ensures Objective(val, LimitPart(q)) ==
      Objective(val, AvoidFamily(q)) + Objective(val, WeeklyFamily(q)) + Objective(val, WeekendFamily(q))
      + Objective(val, NightFamily(q)) + Objective(val, RotationFamily(q))
  {
    FiveFamilies(val, AvoidFamily(q), WeeklyFamily(q), WeekendFamily(q), NightFamily(q), RotationFamily(q));
  }

  lemma DayPartIsEach(q: Request, val: Valuation)
    ensures Satisfies(val, DayPart(q)) <==> SatisfiesDayPart(q, val)
    ensures Objective(val, DayPart(q)) ==
      Objective(val, FairnessFamily(q)) + Objective(val, WorkedFamily(q)) + Objective(val, StreakFamily(q))
      + Objective(val, RestFamily(q)) + Objective(val, AdjacentFamily(q))
  {
    FiveFamilies(val, FairnessFamily(q), WorkedFamily(q), StreakFamily(q), RestFamily(q), AdjacentFamily(q));
  }

  lemma EncodedParts(q: Request, val: Valuation)
    ensures Satisfies(val, Encoded(q)) <==>
      Satisfies(val, StaffingPart(q)) && Satisfies(val, LimitPart(q)) && Satisfies(val, DayPart(q))
    ensures Objective(val, Encoded(q)) ==
      Objective(val, StaffingPart(q)) + Objective(val, LimitPart(q)) + Objective(val, DayPart(q))
  {
    SatisfiesPlus(val, Plus(StaffingPart(q), LimitPart(q)), DayPart(q));
    SatisfiesPlus(val, StaffingPart(q), LimitPart(q));
  }

  /** The model is satisfied exactly when every family is. */
  lemma EncodedIsEach(q: Request, val: Valuation)
    ensures Satisfies(val, Encoded(q)) <==>
      SatisfiesStaffingPart(q, val) && SatisfiesLimitPart(q, val) && SatisfiesDayPart(q, val)
  {
    EncodedParts(q, val);
    StaffingPartIsEach(q, val);
    LimitPartIsEach(q, val);
    DayPartIsEach(q, val);
  }

  // ----- a satisfying valuation chooses a legal schedule -----

  lemma BasisOf(q: Request, val: Valuation)
    requires WellFormed(q) && Satisfies(val, Encoded(q))
    ensures Basis(q, val, Chosen(q, val)) && OnlyEligible(q, Chosen(q, val))
  {
    EncodedIsEach(q, val);
    ReadChoices(q, val);
    ChoosableMembers(q);
  }

  lemma WithinRequirementsOf(q: Request, val: Valuation, s: Schedule)
    requires Basis(q, val, s) && Satisfies(val, UnfilledFamily(q))
    ensures WithinRequirements(q, s)
  {
    ReadUnfilled(q, val, s);
    forall r | r in q.requirements ensures |Filling(s, r)| <= r.requiredCount {
      assert UnfilledRead(val, s, r);
    }
  }

  lemma ValuationIsLegal(q: Request, val: Valuation)
    requires WellFormed(q) && SlotsInOrder(q)
    requires Satisfies(val, Encoded(q))
    ensures Legal(q, Chosen(q, val))
  {
    var s := Chosen(q, val);
    BasisOf(q, val);
    EncodedIsEach(q, val);
    WithinRequirementsOf(q, val, s);
    ReadOneRole(q, val, s);
    ReadBlocked(q, val, s);
    ReadWeekly(q, val, s);
    ReadWeekend(q, val, s);
    ReadNight(q, val, s);
    ReadWorked(q, val, s);
    ReadStreak(q, val, s);
    ReadRest(q, val, s);
  }

  // ----- a legal schedule has a satisfying valuation -----

  function Bit(b: bool): int { if b then 1 else 0 }

  /** Each variable at the value its meaning gives it; the penalty variables as low as
      they can be (or, under a negative fairness weight, as high). */
  ghost function Witness(q: Request, s: Schedule): Valuation
  {
    (v: Var) =>
      match v
      case Assign(c) => Bit(c in s)
      case Unfilled(r) => r.requiredCount - |Filling(s, r)|
      case StaffCount(k) =>
        if k < |q.staffingTargets| then |Staffing(s, q.staffingTargets[k].slotId)| else 0
      case UnderStaffing(k) =>
        if k < |q.staffingTargets|
        then Max(q.staffingTargets[k].target - |Staffing(s, q.staffingTargets[k].slotId)|, 0) else 0
      case OverStaffing(k) =>
        if k < |q.staffingTargets|
        then Max(|Staffing(s, q.staffingTargets[k].slotId)| - q.staffingTargets[k].target, 0) else 0
      case AvoidA(k, t) =>
        if k < |q.avoidPairs| then Bit(WorksIn(s, Normalized(q.avoidPairs[k].a, q.avoidPairs[k].b).0, t)) else 0
      case AvoidB(k, t) =>
        if k < |q.avoidPairs| then Bit(WorksIn(s, Normalized(q.avoidPairs[k].a, q.avoidPairs[k].b).1, t)) else 0
      case AvoidViolation(k, t) =>
        if k < |q.avoidPairs|
        then Bit(WorksIn(s, q.avoidPairs[k].a, t) && WorksIn(s, q.avoidPairs[k].b, t)) else 0
      case ShiftCount(e) => |ShiftsOf(s, e)|
      case OverTarget(e) =>
        if q.fairnessWeight >= 0 then Max(|ShiftsOf(s, e)| - FairTarget(q), 0) else |OptionsOf(q, e)|
      case Worked(e, d) => Bit(d in WorkDates(q, s, e))
      case AdjacentRepeat(e, d) => Bit(d in WorkDates(q, s, e) && d + 1 in WorkDates(q, s, e))
  }

  lemma WitnessBasis(q: Request, s: Schedule)
    requires WellFormed(q) && OnlyEligible(q, s)
    ensures Basis(q, Witness(q, s), s)
  {
    ChoosableMembers(q);
    assert s == Chosen(q, Witness(q, s));
  }

  /** Nobody beyond what the slot's requirements ask for. */
  lemma {:induction false} StaffingWithinRequired(s: Schedule, requirements: seq<Requirement>, slotId: Id)
    requires forall r :: r in requirements ==> |Filling(s, r)| <= r.requiredCount
    ensures |set c | c in s && c.req in requirements && c.req.slotId == slotId| <= MaxStaff(requirements, slotId)
  {
    var here := set c | c in s && c.req in requirements && c.req.slotId == slotId;
    if requirements == [] {
      assert here == {};
    } else {
      var n := |requirements| - 1;
      var r := requirements[n];
      StaffingWithinRequired(s, requirements[..n], slotId);
      var before := set c | c in s && c.req in requirements[..n] && c.req.slotId == slotId;
      assert requirements == requirements[..n] + [r];
      if r.slotId == slotId {
        SubsetCardinality(here, before + Filling(s, r));
      } else {
        assert here == before;
        assert r in requirements && 0 <= |Filling(s, r)|;
      }
    }
  }

  lemma WitnessStaffing(q: Request, s: Schedule, k: nat)
    requires OnlyEligible(q, s) && WithinRequirements(q, s) && k < |q.staffingTargets|
    ensures StaffingRead(q, Witness(q, s), s, k)
  {
    var slotId := q.staffingTargets[k].slotId;
    StaffingWithinRequired(s, q.requirements, slotId);
    assert Staffing(s, slotId) == set c | c in s && c.req in q.requirements && c.req.slotId == slotId;
  }

  lemma WitnessFairness(q: Request, s: Schedule, e: Employee)
    requires OnlyEligible(q, s) && e in q.employees
    ensures FairnessRead(q, Witness(q, s), s, e)
  {
    ChoosableMembers(q);
    SubsetCardinality(ShiftsOf(s, e), OptionsOf(q, e));
    assert FairTarget(q) >= 1;
  }

  lemma WitnessUnfilledHolds(q: Request, s: Schedule)
    requires WellFormed(q) && Legal(q, s)
    ensures Satisfies(Witness(q, s), UnfilledFamily(q))
  {
    var val := Witness(q, s);
    WitnessBasis(q, s);
    ReadUnfilled(q, val, s);
    forall r | r in q.requirements ensures UnfilledRead(val, s, r) {}
  }

  lemma WitnessStaffingHolds(q: Request, s: Schedule)
    requires WellFormed(q) && Legal(q, s)
    ensures Satisfies(Witness(q, s), StaffingFamily(q))
  {
    var val := Witness(q, s);
    WitnessBasis(q, s);
    ReadStaffing(q, val, s);
    forall k: nat | k < |q.staffingTargets| ensures StaffingRead(q, val, s, k) {
      WitnessStaffing(q, s, k);
    }
  }

  lemma WitnessAvoid(q: Request, s: Schedule, k: nat)
    requires k < |q.avoidPairs|
    ensures AvoidReadEverywhere(q, Witness(q, s), s, k)
  {
  }

  lemma WitnessAvoidHolds(q: Request, s: Schedule)
    requires WellFormed(q) && Legal(q, s)
    ensures Satisfies(Witness(q, s), AvoidFamily(q))
  {
    var val := Witness(q, s);
    WitnessBasis(q, s);
    ReadAvoid(q, val, s);
    forall k: nat | k < |q.avoidPairs| ensures AvoidReadEverywhere(q, val, s, k) {
      WitnessAvoid(q, s, k);
    }
  }

  lemma WitnessFairnessHolds(q: Request, s: Schedule)
    requires WellFormed(q) && Legal(q, s)
    ensures Satisfies(Witness(q, s), FairnessFamily(q))
  {
    var val := Witness(q, s);
    WitnessBasis(q, s);
    ReadFairness(q, val, s);
    forall e | e in q.employees ensures FairnessRead(q, val, s, e) {
      WitnessFairness(q, s, e);
    }
  }

  lemma WitnessWorked(q: Request, s: Schedule)
    ensures AllWorkedRead(q, Witness(q, s), s)
  {
  }

  lemma WitnessAdjacent(q: Request, s: Schedule, e: Employee)
    ensures AdjacentReadAll(q, Witness(q, s), s, e)
  {
  }

  lemma WitnessDays(q: Request, s: Schedule)
    requires WellFormed(q) && OnlyEligible(q, s)
    ensures Satisfies(Witness(q, s), WorkedFamily(q))
    ensures Satisfies(Witness(q, s), AdjacentFamily(q))
  {
    var val := Witness(q, s);
    WitnessBasis(q, s);
    WitnessWorked(q, s);
    ReadWorked(q, val, s);
    ReadAdjacent(q, val, s);
    forall e ensures AdjacentReadAll(q, val, s, e) {
      WitnessAdjacent(q, s, e);
    }
  }

  lemma RotationHolds(q: Request, val: Valuation)
    ensures Satisfies(val, RotationFamily(q))
  {
    SatisfiesFamily(val, RotationUnit(q), Choosable(q));
  }

  lemma LegalHasWitness(q: Request, s: Schedule)
    requires WellFormed(q) && SlotsInOrder(q) && Legal(q, s)
    ensures Satisfies(Witness(q, s), Encoded(q))
    ensures Chosen(q, Witness(q, s)) == s
  {
    var val := Witness(q, s);
    WitnessBasis(q, s);
    WitnessUnfilledHolds(q, s);
    WitnessStaffingHolds(q, s);
    WitnessAvoidHolds(q, s);
    WitnessFairnessHolds(q, s);
    WitnessWorked(q, s);
    WitnessDays(q, s);
    ReadChoices(q, val);
    ReadOneRole(q, val, s);
    ReadBlocked(q, val, s);
    ReadWeekly(q, val, s);
    ReadWeekend(q, val, s);
    ReadNight(q, val, s);
    RotationHolds(q, val);
    ReadStreak(q, val, s);
    ReadRest(q, val, s);
    EncodedIsEach(q, val);
  }

  // ----- the main result -----

  ghost predicate Chooses(q: Request, val: Valuation, s: Schedule)
  {
    Satisfies(val, Encoded(q)) && Chosen(q, val) == s
  }

  /** A set of choices extends to a valuation of the whole model exactly when it is a
      legal schedule. */
  lemma EncodingIsExact(q: Request, s: Schedule)
    requires WellFormed(q) && SlotsInOrder(q)
    ensures (exists val :: Chooses(q, val, s)) <==> Legal(q, s)
  {
    if val :| Chooses(q, val, s) {
      ValuationIsLegal(q, val);
    }
    if Legal(q, s) {
      LegalHasWitness(q, s);
      assert Chooses(q, Witness(q, s), s);
    }
  }

  /** The model has no valuation exactly when some limit that applies is negative. */
  lemma InfeasibleOnlyByNegativeLimit(q: Request)
    requires WellFormed(q) && SlotsInOrder(q)
    ensures (exists val :: Satisfies(val, Encoded(q))) <==> LimitsAreNonNegative(q)
  {
    LegalScheduleExists(q);
    if val :| Satisfies(val, Encoded(q)) {
      ValuationIsLegal(q, val);
    }
    if LimitsAreNonNegative(q) {
      LegalHasWitness(q, {});
    }
  }

  /** In every satisfying valuation, a requirement's chosen employees and its reported
      shortfall add up to the number it asks for. */
  lemma FilledPlusMissing(q: Request, val: Valuation, r: Requirement)
    requires WellFormed(q) && Satisfies(val, Encoded(q)) && r in q.requirements
    ensures |Filling(Chosen(q, val), r)| + val(Unfilled(r)) == r.requiredCount
    ensures 0 <= val(Unfilled(r))
  {
    BasisOf(q, val);
    EncodedIsEach(q, val);
    ReadUnfilled(q, val, Chosen(q, val));
    assert UnfilledRead(val, Chosen(q, val), r);
  }
}
