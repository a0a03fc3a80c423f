/** Leaving a requirement short is never worth it when its penalty outweighs every other
    term that one more assignment can touch. */
module Dominance {
  import opened Options
  import opened Sequences
  import opened Scheduling
  import opened Costs
  import opened Encoding
  import opened Reading
  import opened ReadingDates
  import opened ObjectiveReading

  // ----- the most that one more assignment can add, term by term -----

  predicate Touches(p: AvoidPair, e: Employee) { p.a == e.id || p.b == e.id }

  ghost function AvoidExposure(e: Employee): AvoidPair -> int
  {
    (p: AvoidPair) => if Touches(p, e) then Max(p.weight, 0) else 0
  }

  ghost function OverExposure(slotId: Id): StaffingTarget -> int
  {
    (t: StaffingTarget) => if t.slotId == slotId then Max(t.overPenalty, 0) else 0
  }

  ghost function Exposure(q: Request, c: Choice): int
  {
    1_001 * (|q.employees| - 1)
    + Max(q.fairnessWeight, 0)
    + 40_000
    + Sum(AvoidExposure(c.emp), q.avoidPairs)
    + Sum(OverExposure(c.req.slotId), q.staffingTargets)
  }

  // ----- the change in each term -----

  lemma UnfilledChange(q: Request, s: Schedule, c: Choice)
    requires WellFormed(q) && CanChoose(q, c) && c !in s
    ensures Sum(UnfilledCost(q, s + {c}), q.requirements)
      == Sum(UnfilledCost(q, s), q.requirements) - UNFILLED_SCALE * c.req.unfilledWeight
  {
    var f, g := UnfilledCost(q, s), UnfilledCost(q, s + {c});
    forall r | r in q.requirements && r != c.req ensures f(r) == g(r) {
      assert Filling(s + {c}, r) == Filling(s, r);
    }
    SumDiffersAt(f, g, q.requirements, c.req);
    var r := c.req;
    assert Filling(s + {c}, r) == Filling(s, r) + {c};
    assert g(r) - f(r) == -(r.unfilledWeight * UNFILLED_SCALE) by {
      var w, missing := r.unfilledWeight * UNFILLED_SCALE, r.requiredCount - |Filling(s, r)|;
      assert f(r) == w * missing && g(r) == w * (missing - 1);
    }
  }

  lemma StaffingChange(q: Request, s: Schedule, c: Choice)
    requires c !in s
    ensures Sum(StaffingCost(s + {c}), q.staffingTargets) - Sum(StaffingCost(s), q.staffingTargets)
      <= Sum(OverExposure(c.req.slotId), q.staffingTargets)
  {
    forall t ensures StaffingCost(s + {c})(t) - StaffingCost(s)(t) <= OverExposure(c.req.slotId)(t) {
      if t.slotId == c.req.slotId {
        assert Staffing(s + {c}, t.slotId) == Staffing(s, t.slotId) + {c};
        var staff := |Staffing(s, t.slotId)|;
        StaffingStep(Max(t.underPenalty, 0), Max(t.overPenalty, 0), t.target, staff);
      } else {
        assert Staffing(s + {c}, t.slotId) == Staffing(s, t.slotId);
      }
    }
    SumDifference(StaffingCost(s), StaffingCost(s + {c}), OverExposure(c.req.slotId), q.staffingTargets);
  }

  lemma StaffingStep(under: nat, over: nat, target: int, staff: int)
    ensures under * Max(target - (staff + 1), 0) + over * Max(staff + 1 - target, 0)
      <= under * Max(target - staff, 0) + over * Max(staff - target, 0) + over
  {
    ScaleMonotone(under, Max(target - (staff + 1), 0), Max(target - staff, 0));
    ScaleMonotone(over, Max(staff + 1 - target, 0), Max(staff - target, 0) + 1);
    assert over * (Max(staff - target, 0) + 1) == over * Max(staff - target, 0) + over;
  }

  lemma SharedGrows(q: Request, s: Schedule, c: Choice, p: AvoidPair)
    requires WellFormed(q)
    ensures |SharedSlots(q, s, p)| <= |SharedSlots(q, s + {c}, p)|
    ensures |SharedSlots(q, s + {c}, p)| <= |SharedSlots(q, s, p)| + (if Touches(p, c.emp) then 1 else 0)
  {
    var before, after := SharedSlots(q, s, p), SharedSlots(q, s + {c}, p);
    forall id: Id, slotId: Id ensures WorksIn(s, id, slotId) ==> WorksIn(s + {c}, id, slotId) {
      WorksInMonotone(s + {c}, s, id, slotId);
    }
    SubsetCardinality(before, after);
    if Touches(p, c.emp) {
      var here := FindSlot(q.slots, c.req.slotId);
      forall t | t in after && t !in before ensures t == here {
        assert t.id == c.req.slotId;
        FindSlotFinds(q.slots, t);
      }
      SubsetCardinality(after, before + {here});
    } else {
      assert after <= before;
      SubsetCardinality(after, before);
    }
  }

  lemma AvoidChange(q: Request, s: Schedule, c: Choice)
    requires WellFormed(q)
    ensures Sum(AvoidCost(q, s + {c}), q.avoidPairs) - Sum(AvoidCost(q, s), q.avoidPairs)
      <= Sum(AvoidExposure(c.emp), q.avoidPairs)
  {
    forall p ensures AvoidCost(q, s + {c})(p) - AvoidCost(q, s)(p) <= AvoidExposure(c.emp)(p) {
      SharedGrows(q, s, c, p);
      WeightedStep(p.weight, |SharedSlots(q, s, p)|, |SharedSlots(q, s + {c}, p)|);
    }
    SumDifference(AvoidCost(q, s), AvoidCost(q, s + {c}), AvoidExposure(c.emp), q.avoidPairs);
  }

  lemma WeightedStep(w: int, before: int, after: int)
    requires before <= after <= before + 1
    ensures w * after - w * before <= Max(w, 0)
    ensures before == after ==> w * after - w * before == 0
  {
    if after == before + 1 {
      assert w * (before + 1) == w * before + w;
    }
  }

  lemma TieBreakerBound(q: Request, c: Choice)
    requires c.emp in q.employees
    ensures TieBreaker(q, c) <= 1_001 * (|q.employees| - 1)
  {
    PositionFinds(q.employees, c.emp);
  }

  lemma RotationChange(q: Request, s: Schedule, c: Choice)
    requires WellFormed(q) && CanChoose(q, c) && c !in s
    ensures Sum(RotationCost(q, s + {c}), Choosable(q)) == Sum(RotationCost(q, s), Choosable(q)) + TieBreaker(q, c)
  {
    ChoosableDistinct(q);
    ChoosableMembers(q);
    var f, g := RotationCost(q, s), RotationCost(q, s + {c});
    forall d | d in Choosable(q) && d != c ensures f(d) == g(d) {}
    SumDiffersAt(f, g, Choosable(q), c);
    assert g(c) - f(c) == TieBreaker(q, c);
  }

  lemma FairnessChange(q: Request, s: Schedule, c: Choice)
    requires WellFormed(q) && CanChoose(q, c) && c !in s
    ensures Sum(FairnessCost(q, s + {c}), q.employees) - Sum(FairnessCost(q, s), q.employees)
      <= Max(q.fairnessWeight, 0)
  {
    var f, g := FairnessCost(q, s), FairnessCost(q, s + {c});
    var e := c.emp;
    forall other | other in q.employees && other != e ensures f(other) == g(other) {
      assert ShiftsOf(s + {c}, other) == ShiftsOf(s, other);
    }
    SumDiffersAt(f, g, q.employees, e);
    assert ShiftsOf(s + {c}, e) == ShiftsOf(s, e) + {c};
    if q.fairnessWeight >= 0 {
      var before := Max(|ShiftsOf(s, e)| - FairTarget(q), 0);
      var after := Max(|ShiftsOf(s + {c}, e)| - FairTarget(q), 0);
      WeightedStep(q.fairnessWeight, before, after);
    }
  }

  lemma TwoMore(a: set<int>, x: int, y: int)
    ensures |a + {x, y}| <= |a| + 2
  {
    assert a + {x, y} == a + ({x, y} - a);
    SubsetCardinality({x, y} - a, {x, y});
  }

  lemma WorkDatesGrow(q: Request, s: Schedule, c: Choice)
    ensures WorkDates(q, s + {c}, c.emp) == WorkDates(q, s, c.emp) + {DateOf(q, c)}
  {
  }

  lemma NewRepeats(q: Request, s: Schedule, c: Choice, x: int)
    requires x in AdjacentRepeats(q, s + {c}, c.emp)
    ensures x in AdjacentRepeats(q, s, c.emp) || x == DateOf(q, c) || x == DateOf(q, c) - 1
  {
    WorkDatesGrow(q, s, c);
    assert WorksNextDay(q, s + {c}, c.emp, x);
  }

  lemma RepeatsGrow(q: Request, s: Schedule, c: Choice)
    ensures |AdjacentRepeats(q, s + {c}, c.emp)| <= |AdjacentRepeats(q, s, c.emp)| + 2
  {
    var d := DateOf(q, c);
    var before, after := AdjacentRepeats(q, s, c.emp), AdjacentRepeats(q, s + {c}, c.emp);
    forall x | x in after ensures x in before + {d, d - 1} {
      NewRepeats(q, s, c, x);
    }
    SubsetCardinality(after, before + {d, d - 1});
    TwoMore(before, d, d - 1);
  }

  lemma AdjacentChange(q: Request, s: Schedule, c: Choice)
    requires WellFormed(q) && CanChoose(q, c)
    ensures Sum(AdjacentCost(q, s + {c}), q.employees) - Sum(AdjacentCost(q, s), q.employees)
      <= 2 * ADJACENT_DAY_REPEAT_WEIGHT
  {
    var f, g := AdjacentCost(q, s), AdjacentCost(q, s + {c});
    forall other | other in q.employees && other != c.emp ensures f(other) == g(other) {
      assert WorkDates(q, s + {c}, other) == WorkDates(q, s, other);
      assert AdjacentRepeats(q, s + {c}, other) == AdjacentRepeats(q, s, other);
    }
    SumDiffersAt(f, g, q.employees, c.emp);
    RepeatsGrow(q, s, c);
  }

  // ----- the exchange -----

  /** One more assignment saves the unfilled penalty and adds at most the exposure. */
  lemma OneMoreAssignment(q: Request, s: Schedule, c: Choice)
    requires WellFormed(q) && CanChoose(q, c) && c !in s
    ensures Cost(q, s + {c}) - Cost(q, s) <= Exposure(q, c) - 100_000 * c.req.unfilledWeight
  {
    UnfilledChange(q, s, c);
    StaffingChange(q, s, c);
    AvoidChange(q, s, c);
    RotationChange(q, s, c);
    TieBreakerBound(q, c);
    FairnessChange(q, s, c);
    AdjacentChange(q, s, c);
  }

  /** A least-cost schedule leaves out a legal assignment only when the unfilled penalty
      does not exceed the exposure. */
  lemma LeastCostIsFilled(q: Request, s: Schedule, c: Choice)
    requires WellFormed(q) && LeastCost(q, s) && CanChoose(q, c) && c !in s
    requires 100_000 * c.req.unfilledWeight > Exposure(q, c)
    ensures !Legal(q, s + {c})
  {
    OneMoreAssignment(q, s, c);
    assert Cost(q, s + {c}) < Cost(q, s);
  }

  /** When the unfilled penalty exceeds the exposure, an optimal answer never leaves out an
      assignment that could still be made legally. */
  lemma UnfilledPenaltyDominates(q: Request, val: Valuation, c: Choice)
    requires WellFormed(q) && SlotsInOrder(q) && Optimal(q, val)
    requires CanChoose(q, c) && c !in Chosen(q, val)
    requires 100_000 * c.req.unfilledWeight > Exposure(q, c)
    ensures !Legal(q, Chosen(q, val) + {c})
  {
    OptimalChoosesLeastCost(q, val);
    LeastCostIsFilled(q, Chosen(q, val), c);
  }
}
