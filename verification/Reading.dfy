/** What each family of the encoding says about a valuation, in terms of the schedule
    that the valuation chooses. */
module Reading {
  import opened Options
  import opened Sequences
  import opened Sorting
  import opened LinearModel
  import opened DateRuns
  import opened Scheduling
  import opened Costs
  import opened Encoding

  /** The schedule read back from a valuation. */
  ghost function Chosen(q: Request, val: Valuation): Schedule
  {
    set c | c in Choosable(q) && val(Assign(c)) == 1
  }

  ghost predicate Binary(val: Valuation, choices: seq<Choice>)
  {
    forall c :: c in choices ==> 0 <= val(Assign(c)) <= 1
  }

  // ----- sums of variables count choices -----

  lemma {:induction false} SumOfMapped(val: Valuation, choices: seq<Choice>, picked: Schedule)
    requires forall c :: c in choices ==> val(Assign(c)) == Indicator(picked)(c)
    ensures Sum(val, Map(ToVar(), choices)) == Sum(Indicator(picked), choices)
  {
    if choices != [] {
      var n := |choices| - 1;
      SumOfMapped(val, choices[..n], picked);
      assert Map(ToVar(), choices)[..n] == Map(ToVar(), choices[..n]);
    }
  }

  ghost function Under<K>(s: Schedule, key: Choice -> K, k: K): Schedule
  {
    set c | c in s && key(c) == k
  }

  /** The variables filed under a key add up to the number of chosen ones. */
  lemma SumUnder<K>(val: Valuation, choices: seq<Choice>, s: Schedule, key: Choice -> K, k: K)
    requires NoDuplicates(choices) && Binary(val, choices)
    requires s == set c | c in choices && val(Assign(c)) == 1
    ensures Value(val, SumOf(VarsUnder(choices, key, k))) == |Under(s, key, k)|
    ensures VarsUnder(choices, key, k) != [] <==> exists c :: c in choices && key(c) == k
    ensures |Under(s, key, k)| <= |VarsUnder(choices, key, k)|
  {
    var picked := Filter(KeyIs(key, k), choices);
    FilterMembers(KeyIs(key, k), choices);
    FilterNoDuplicates(KeyIs(key, k), choices);
    ValueOfSum(val, VarsUnder(choices, key, k));
    SumOfMapped(val, picked, s);
    CountIsCardinality(s, picked);
    assert Under(s, key, k) == set c | c in s && c in picked;
    if c :| c in choices && key(c) == k {
      assert c in picked;
    }
    if picked != [] {
      assert picked[0] in picked;
    }
    AtMostLength(s, picked);
  }

  lemma {:induction false} AtMostLength(s: Schedule, choices: seq<Choice>)
    ensures Sum(Indicator(s), choices) <= |choices|
  {
    if choices != [] {
      AtMostLength(s, choices[..|choices| - 1]);
    }
  }

  lemma KeysOfMembers<K>(choices: seq<Choice>, key: Choice -> K)
    ensures forall k :: k in KeysOf(choices, key) <==> exists c :: c in choices && key(c) == k
    ensures NoDuplicates(KeysOf(choices, key))
  {
    var mapped := Map(key, choices);
    DedupMembers(mapped);
    forall k ensures k in mapped <==> exists c :: c in choices && key(c) == k {
      if k in mapped {
        var i :| 0 <= i < |mapped| && mapped[i] == k;
        assert choices[i] in choices;
      }
      if c :| c in choices && key(c) == k {
        var i :| 0 <= i < |choices| && choices[i] == c;
        assert mapped[i] == k;
      }
    }
  }

  // ----- the basis: 0/1 choices -----

  /** What every later reading starts from. */
  ghost predicate Basis(q: Request, val: Valuation, s: Schedule)
  {
    && WellFormed(q)
    && Binary(val, Choosable(q))
    && s == Chosen(q, val)
  }

  lemma ReadChoices(q: Request, val: Valuation)
    ensures Satisfies(val, ChoiceFamily(q)) <==> Binary(val, Choosable(q))
  {
    SatisfiesFamily(val, ChoiceUnit(), Choosable(q));
    forall c ensures Satisfies(val, ChoiceUnit()(c)) <==> 0 <= val(Assign(c)) <= 1 {
      assert Decl(Assign(c), 0, 1) in ChoiceUnit()(c).decls;
    }
  }

  lemma LoadUnder<K>(q: Request, val: Valuation, s: Schedule, key: Choice -> K, k: K)
    requires Basis(q, val, s)
    ensures Value(val, SumOf(VarsUnder(Choosable(q), key, k))) == |Under(s, key, k)|
    ensures VarsUnder(Choosable(q), key, k) != [] <==> exists c :: CanChoose(q, c) && key(c) == k
    ensures |Under(s, key, k)| <= |VarsUnder(Choosable(q), key, k)|
    ensures forall c :: c in s ==> CanChoose(q, c)
  {
    ChoosableDistinct(q);
    ChoosableMembers(q);
    SumUnder(val, Choosable(q), s, key, k);
  }

  lemma KeysOfChoosable<K>(q: Request, key: Choice -> K)
    ensures forall k :: k in KeysOf(Choosable(q), key) <==> exists c :: CanChoose(q, c) && key(c) == k
    ensures NoDuplicates(KeysOf(Choosable(q), key))
  {
    ChoosableMembers(q);
    KeysOfMembers(Choosable(q), key);
  }

  lemma AtMostSumHolds(val: Valuation, vs: seq<Var>, limit: int)
    ensures Satisfies(val, AtMostSum(vs, limit)) <==> Value(val, SumOf(vs)) <= limit
  {
    var m := AtMostSum(vs, limit);
    ValueOfParts(val);
    assert m.constraints[0] in m.constraints;
  }

  // ----- requirements and their shortfall -----

  ghost predicate UnfilledRead(val: Valuation, s: Schedule, r: Requirement)
  {
    0 <= val(Unfilled(r)) <= r.requiredCount && |Filling(s, r)| + val(Unfilled(r)) == r.requiredCount
  }

  lemma UnfilledPieceHolds(val: Valuation, r: Requirement, vs: seq<Var>, count: nat)
    requires Value(val, SumOf(vs)) == count
    ensures Satisfies(val, UnfilledPiece(r, vs)) <==>
      0 <= val(Unfilled(r)) <= r.requiredCount && count + val(Unfilled(r)) == r.requiredCount
  {
    var m := UnfilledPiece(r, vs);
    ValueOfParts(val);
    assert m.decls[0] in m.decls && m.constraints[0] in m.constraints;
  }

  lemma ReadUnfilled(q: Request, val: Valuation, s: Schedule)
    requires Basis(q, val, s)
    ensures Satisfies(val, UnfilledFamily(q)) <==> forall r :: r in q.requirements ==> UnfilledRead(val, s, r)
  {
    SatisfiesFamily(val, UnfilledUnit(q), q.requirements);
    forall r ensures Satisfies(val, UnfilledUnit(q)(r)) <==> UnfilledRead(val, s, r) {
      LoadUnder(q, val, s, ByRequirement(), r);
      assert Under(s, ByRequirement(), r) == Filling(s, r);
      UnfilledPieceHolds(val, r, VarsUnder(Choosable(q), ByRequirement(), r), |Filling(s, r)|);
    }
  }

  // ----- staffing targets -----

  ghost predicate StaffingRead(q: Request, val: Valuation, s: Schedule, k: nat)
    requires k < |q.staffingTargets|
  {
    var t := q.staffingTargets[k];
    var staff := |Staffing(s, t.slotId)|;
    var maxStaff := MaxStaff(q.requirements, t.slotId);
    && val(StaffCount(k)) == staff <= maxStaff
    && Max(t.target - staff, 0) <= val(UnderStaffing(k)) <= Max(t.target, 0)
    && Max(staff - t.target, 0) <= val(OverStaffing(k)) <= Max(maxStaff - t.target, 0)
  }

  lemma ReadStaffing(q: Request, val: Valuation, s: Schedule)
    requires Basis(q, val, s)
    ensures Satisfies(val, StaffingFamily(q)) <==>
      forall k: nat :: k < |q.staffingTargets| ==> StaffingRead(q, val, s, k)
  {
    SatisfiesRange(val, StaffingUnit(q), 0, |q.staffingTargets|);
    forall k: nat | k < |q.staffingTargets|
      ensures Satisfies(val, StaffingUnit(q)(k)) <==> StaffingRead(q, val, s, k)
    {
      ReadStaffingPiece(q, val, s, k);
    }
  }

  lemma ReadStaffingPiece(q: Request, val: Valuation, s: Schedule, k: nat)
    requires Basis(q, val, s) && k < |q.staffingTargets|
    ensures Satisfies(val, StaffingUnit(q)(k)) <==> StaffingRead(q, val, s, k)
  {
    var t := q.staffingTargets[k];
    var vs := VarsUnder(Choosable(q), BySlot(), t.slotId);
    LoadUnder(q, val, s, BySlot(), t.slotId);
    assert Under(s, BySlot(), t.slotId) == Staffing(s, t.slotId);
    StaffingPieceHolds(val, k, t, MaxStaff(q.requirements, t.slotId), vs, |Staffing(s, t.slotId)|);
  }

  lemma StaffingPieceHolds(val: Valuation, k: nat, t: StaffingTarget, maxStaff: int, vs: seq<Var>, staff: nat)
    requires Value(val, SumOf(vs)) == staff
    ensures Satisfies(val, StaffingPiece(k, t, maxStaff, vs)) <==>
      && val(StaffCount(k)) == staff <= maxStaff
      && Max(t.target - staff, 0) <= val(UnderStaffing(k)) <= Max(t.target, 0)
      && Max(staff - t.target, 0) <= val(OverStaffing(k)) <= Max(maxStaff - t.target, 0)
  {
    ValueOfParts(val);
    OneTerm(val, -1, StaffCount(k));
    OneTerm(val, 1, StaffCount(k));
    var m := StaffingPiece(k, t, maxStaff, vs);
    assert m.decls[0] in m.decls && m.decls[1] in m.decls && m.decls[2] in m.decls;
    assert m.constraints[0] in m.constraints && m.constraints[1] in m.constraints && m.constraints[2] in m.constraints;
  }

  // ----- one role per employee and slot -----

  lemma SmallSetIsUnique(s: Schedule)
    ensures |s| <= 1 <==> forall c, d :: c in s && d in s ==> c == d
  {
    if s != {} {
      var c :| c in s;
      assert |s - {c}| == |s| - 1;
      if |s| <= 1 {
        assert s - {c} == {};
      } else {
        var d :| d in s - {c};
      }
    }
  }

  lemma ReadOneRole(q: Request, val: Valuation, s: Schedule)
    requires Basis(q, val, s)
    ensures Satisfies(val, OneRoleFamily(q)) <==> OneRolePerSlot(s)
  {
    SatisfiesFamily(val, OneRoleUnit(q), KeysOf(Choosable(q), ByEmployeeSlot()));
    KeysOfChoosable(q, ByEmployeeSlot());
    forall key: (Employee, Id)
      ensures Satisfies(val, OneRoleUnit(q)(key)) <==>
        forall c, d :: c in Under(s, ByEmployeeSlot(), key) && d in Under(s, ByEmployeeSlot(), key) ==> c == d
    {
      LoadUnder(q, val, s, ByEmployeeSlot(), key);
      AtMostSumHolds(val, VarsUnder(Choosable(q), ByEmployeeSlot(), key), 1);
      SmallSetIsUnique(Under(s, ByEmployeeSlot(), key));
    }
    if Satisfies(val, OneRoleFamily(q)) {
      forall c, d | c in s && d in s && c.emp == d.emp && c.req.slotId == d.req.slotId ensures c == d {
        SlotKeyInUse(q, s, c, d);
      }
    }
  }

  lemma SlotKeyInUse(q: Request, s: Schedule, c: Choice, d: Choice)
    requires (forall x :: x in s ==> x in Choosable(q))
    requires c in s && d in s && c.emp == d.emp && c.req.slotId == d.req.slotId
    ensures
      var key := (c.emp, c.req.slotId);
      && key in KeysOf(Choosable(q), ByEmployeeSlot())
      && c in Under(s, ByEmployeeSlot(), key) && d in Under(s, ByEmployeeSlot(), key)
  {
    KeysOfMembers(Choosable(q), ByEmployeeSlot());
    assert ByEmployeeSlot()(c) == (c.emp, c.req.slotId) == ByEmployeeSlot()(d);
  }

  // ----- blocked pairs -----

  /** An employee id and a slot hold at most one choice, and one exactly when the
      employee works there. */
  lemma PresenceInSlot(q: Request, val: Valuation, s: Schedule, id: Id, slotId: Id)
    requires Basis(q, val, s) && OneRolePerSlot(s)
    ensures |Under(s, ByEmployeeIdSlot(), (id, slotId))| == if WorksIn(s, id, slotId) then 1 else 0
    ensures Value(val, SumOf(VarsUnder(Choosable(q), ByEmployeeIdSlot(), (id, slotId))))
      == if WorksIn(s, id, slotId) then 1 else 0
    ensures WorksIn(s, id, slotId) ==> VarsUnder(Choosable(q), ByEmployeeIdSlot(), (id, slotId)) != []
  {
    var here := Under(s, ByEmployeeIdSlot(), (id, slotId));
    LoadUnder(q, val, s, ByEmployeeIdSlot(), (id, slotId));
    forall c, d | c in here && d in here ensures c == d {
      assert c.emp in q.employees && d.emp in q.employees;
      assert c.emp == d.emp;
    }
    SmallSetIsUnique(here);
    if WorksIn(s, id, slotId) {
      var c :| c in s && c.emp.id == id && c.req.slotId == slotId;
      assert c in here;
    } else {
      assert here == {};
    }
  }

  lemma SumOfConcat(val: Valuation, a: seq<Var>, b: seq<Var>)
    ensures Value(val, SumOf(a + b)) == Value(val, SumOf(a)) + Value(val, SumOf(b))
  {
    TermsConcat(val, SumOf(a).terms, SumOf(b).terms);
    assert SumOf(a + b).terms == SumOf(a).terms + SumOf(b).terms;
  }

  lemma ReadBlockedAt(q: Request, val: Valuation, s: Schedule, p: BlockedPair, t: Slot)
    requires Basis(q, val, s) && OneRolePerSlot(s)
    ensures Satisfies(val, BlockedAt(q, p)(t)) <==> !(WorksIn(s, p.a, t.id) && WorksIn(s, p.b, t.id))
  {
    var (a, b) := Normalized(p.a, p.b);
    PresenceInSlot(q, val, s, a, t.id);
    PresenceInSlot(q, val, s, b, t.id);
    var varsA := VarsUnder(Choosable(q), ByEmployeeIdSlot(), (a, t.id));
    var varsB := VarsUnder(Choosable(q), ByEmployeeIdSlot(), (b, t.id));
    SumOfConcat(val, varsA, varsB);
    AtMostSumHolds(val, varsA + varsB, 1);
  }

  lemma ReadBlocked(q: Request, val: Valuation, s: Schedule)
    requires Basis(q, val, s) && OneRolePerSlot(s)
    ensures Satisfies(val, BlockedFamily(q)) <==> NoBlockedPair(q, s)
  {
    SatisfiesFamily(val, BlockedUnit(q), q.blockedPairs);
    forall p
      ensures Satisfies(val, BlockedUnit(q)(p)) <==>
        forall t :: t in q.slots ==> !(WorksIn(s, p.a, t.id) && WorksIn(s, p.b, t.id))
    {
      SatisfiesFamily(val, BlockedAt(q, p), q.slots);
      forall t ensures Satisfies(val, BlockedAt(q, p)(t)) <==> !(WorksIn(s, p.a, t.id) && WorksIn(s, p.b, t.id)) {
        ReadBlockedAt(q, val, s, p, t);
      }
    }
  }

  // ----- flags -----

  lemma FlagHolds(val: Valuation, vs: seq<Var>, flag: Var, count: nat)
    requires Value(val, SumOf(vs)) == count <= |vs|
    ensures 0 <= val(flag) <= 1 && (forall c :: c in FlagConstraints(vs, flag) ==> Holds(val, c)) <==>
      val(flag) == if count > 0 then 1 else 0
  {
    ValueOfParts(val);
    var cs := FlagConstraints(vs, flag);
    assert cs[0] in cs && cs[1] in cs;
    if val(flag) == 1 {
      assert |vs| * val(flag) == |vs|;
    } else if val(flag) == 0 {
      assert |vs| * val(flag) == 0;
    }
  }

  lemma BothHolds(val: Valuation, a: Var, b: Var, both: Var)
    requires 0 <= val(a) <= 1 && 0 <= val(b) <= 1
    ensures 0 <= val(both) <= 1 && (forall c :: c in BothConstraints(a, b, both) ==> Holds(val, c)) <==>
      val(both) == if val(a) == 1 && val(b) == 1 then 1 else 0
  {
    ValueOfParts(val);
    OneTerm(val, 1, a);
    OneTerm(val, 1, b);
    TermsConcat(val, [Term(1, a)], [Term(1, b)]);
    assert [Term(1, a)] + [Term(1, b)] == [Term(1, a), Term(1, b)];
    var cs := BothConstraints(a, b, both);
    assert cs[0] in cs && cs[1] in cs && cs[2] in cs;
  }

  // ----- pairs to keep apart -----

  ghost predicate AvoidRead(q: Request, val: Valuation, s: Schedule, k: nat, t: Slot)
    requires k < |q.avoidPairs|
  {
    var (a, b) := Normalized(q.avoidPairs[k].a, q.avoidPairs[k].b);
    VarsUnder(Choosable(q), ByEmployeeIdSlot(), (a, t.id)) != []
    && VarsUnder(Choosable(q), ByEmployeeIdSlot(), (b, t.id)) != [] ==>
      && val(AvoidA(k, t.id)) == (if WorksIn(s, a, t.id) then 1 else 0)
      && val(AvoidB(k, t.id)) == (if WorksIn(s, b, t.id) then 1 else 0)
      && val(AvoidViolation(k, t.id)) == (if WorksIn(s, a, t.id) && WorksIn(s, b, t.id) then 1 else 0)
  }

  lemma ReadAvoidAt(q: Request, val: Valuation, s: Schedule, k: nat, t: Slot)
    requires Basis(q, val, s) && OneRolePerSlot(s) && k < |q.avoidPairs|
    ensures Satisfies(val, AvoidAt(q, k, q.avoidPairs[k])(t)) <==> AvoidRead(q, val, s, k, t)
  {
    var p := q.avoidPairs[k];
    var (a, b) := Normalized(p.a, p.b);
    PresenceInSlot(q, val, s, a, t.id);
    PresenceInSlot(q, val, s, b, t.id);
    LoadUnder(q, val, s, ByEmployeeIdSlot(), (a, t.id));
    LoadUnder(q, val, s, ByEmployeeIdSlot(), (b, t.id));
    var varsA := VarsUnder(Choosable(q), ByEmployeeIdSlot(), (a, t.id));
    var varsB := VarsUnder(Choosable(q), ByEmployeeIdSlot(), (b, t.id));
    AvoidPieceHolds(val, k, p.weight, t.id, varsA, varsB,
      if WorksIn(s, a, t.id) then 1 else 0, if WorksIn(s, b, t.id) then 1 else 0);
  }

  lemma AvoidPieceHolds(val: Valuation, k: nat, weight: int, slotId: Id, varsA: seq<Var>, varsB: seq<Var>,
                        countA: nat, countB: nat)
    requires Value(val, SumOf(varsA)) == countA <= |varsA|
    requires Value(val, SumOf(varsB)) == countB <= |varsB|
    ensures Satisfies(val, AvoidPiece(k, weight, slotId, varsA, varsB)) <==>
      varsA != [] && varsB != [] ==>
        && val(AvoidA(k, slotId)) == (if countA > 0 then 1 else 0)
        && val(AvoidB(k, slotId)) == (if countB > 0 then 1 else 0)
        && val(AvoidViolation(k, slotId)) == (if countA > 0 && countB > 0 then 1 else 0)
  {
    if varsA != [] && varsB != [] {
      var a, b, both := AvoidA(k, slotId), AvoidB(k, slotId), AvoidViolation(k, slotId);
      var m := AvoidPiece(k, weight, slotId, varsA, varsB);
      FlagHolds(val, varsA, a, countA);
      FlagHolds(val, varsB, b, countB);
      assert m.decls[0] in m.decls && m.decls[1] in m.decls && m.decls[2] in m.decls;
      assert forall d :: d in m.decls <==> d == Decl(a, 0, 1) || d == Decl(b, 0, 1) || d == Decl(both, 0, 1);
      assert forall c :: c in m.constraints <==>
        c in FlagConstraints(varsA, a) || c in FlagConstraints(varsB, b) || c in BothConstraints(a, b, both);
      if 0 <= val(a) <= 1 && 0 <= val(b) <= 1 {
        BothHolds(val, a, b, both);
      }
    }
  }

  ghost predicate AvoidReadEverywhere(q: Request, val: Valuation, s: Schedule, k: nat)
    requires k < |q.avoidPairs|
  {
    forall t :: t in q.slots ==> AvoidRead(q, val, s, k, t)
  }

  lemma ReadAvoidPair(q: Request, val: Valuation, s: Schedule, k: nat)
    requires Basis(q, val, s) && OneRolePerSlot(s) && k < |q.avoidPairs|
    ensures Satisfies(val, AvoidUnit(q)(k)) <==> AvoidReadEverywhere(q, val, s, k)
  {
    var unit := AvoidAt(q, k, q.avoidPairs[k]);
    SatisfiesFamily(val, unit, q.slots);
    forall t ensures Satisfies(val, unit(t)) <==> AvoidRead(q, val, s, k, t) {
      ReadAvoidAt(q, val, s, k, t);
    }
  }

  lemma ReadAvoid(q: Request, val: Valuation, s: Schedule)
    requires Basis(q, val, s) && OneRolePerSlot(s)
    ensures Satisfies(val, AvoidFamily(q)) <==>
      forall k: nat :: k < |q.avoidPairs| ==> AvoidReadEverywhere(q, val, s, k)
  {
    SatisfiesRange(val, AvoidUnit(q), 0, |q.avoidPairs|);
    forall k: nat | k < |q.avoidPairs|
      ensures Satisfies(val, AvoidUnit(q)(k)) <==> AvoidReadEverywhere(q, val, s, k)
    {
      ReadAvoidPair(q, val, s, k);
    }
  }
}
