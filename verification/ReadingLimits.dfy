/** Caps, monthly limits and fairness: what those families say about a valuation. */
module ReadingLimits {
  import opened Options
  import opened Sequences
  import opened LinearModel
  import opened Scheduling
  import opened Costs
  import opened Encoding
  import opened Reading

  // ----- weekly caps -----

  ghost predicate WeekRead(q: Request, s: Schedule, key: (Employee, int))
  {
    WeeklyCap(q, key.0).Some? ==> |ShiftsInWeek(q, s, key.0, key.1)| <= WeeklyCap(q, key.0).value
  }

  lemma ReadWeek(q: Request, val: Valuation, s: Schedule, key: (Employee, int))
    requires Basis(q, val, s)
    ensures Satisfies(val, WeeklyUnit(q)(key)) <==> WeekRead(q, s, key)
  {
    if WeeklyCap(q, key.0).Some? {
      LoadUnder(q, val, s, ByEmployeeWeek(q), key);
      assert Under(s, ByEmployeeWeek(q), key) == ShiftsInWeek(q, s, key.0, key.1);
      AtMostSumHolds(val, VarsUnder(Choosable(q), ByEmployeeWeek(q), key), WeeklyCap(q, key.0).value);
    }
  }

  /** Reading the cap of every key in use is reading it for everybody who can work that week. */
  lemma WeeksInUse(q: Request, s: Schedule)
    ensures (forall key :: key in KeysOf(Choosable(q), ByEmployeeWeek(q)) ==> WeekRead(q, s, key))
      <==> WithinWeeklyCaps(q, s)
  {
    KeysOfChoosable(q, ByEmployeeWeek(q));
    if forall key :: key in KeysOf(Choosable(q), ByEmployeeWeek(q)) ==> WeekRead(q, s, key) {
      forall c | CanChoose(q, c) && WeeklyCap(q, c.emp).Some?
        ensures |ShiftsInWeek(q, s, c.emp, WeekKey(DateOf(q, c)))| <= WeeklyCap(q, c.emp).value
      {
        assert WeekRead(q, s, ByEmployeeWeek(q)(c));
      }
    }
  }

  lemma ReadWeekly(q: Request, val: Valuation, s: Schedule)
    requires Basis(q, val, s)
    ensures Satisfies(val, WeeklyFamily(q)) <==> WithinWeeklyCaps(q, s)
  {
    SatisfiesFamily(val, WeeklyUnit(q), KeysOf(Choosable(q), ByEmployeeWeek(q)));
    forall key ensures Satisfies(val, WeeklyUnit(q)(key)) <==> WeekRead(q, s, key) {
      ReadWeek(q, val, s, key);
    }
    WeeksInUse(q, s);
  }

  // ----- monthly limits -----

  ghost function Part(s: Schedule, part: Choice -> bool): Schedule
  {
    set c | c in s && part(c)
  }

  lemma SumUnderPart<K>(q: Request, val: Valuation, s: Schedule, part: Choice -> bool, key: Choice -> K, k: K)
    requires Basis(q, val, s)
    ensures Value(val, SumOf(VarsUnder(Filter(part, Choosable(q)), key, k)))
      == |Under(Part(s, part), key, k)|
    ensures k in KeysOf(Filter(part, Choosable(q)), key) <==> exists c :: CanChoose(q, c) && part(c) && key(c) == k
  {
    var choices := Filter(part, Choosable(q));
    ChoosableDistinct(q);
    ChoosableMembers(q);
    FilterMembers(part, Choosable(q));
    FilterNoDuplicates(part, Choosable(q));
    var mine := set c | c in choices && val(Assign(c)) == 1;
    SumUnder(val, choices, mine, key, k);
    assert mine == Part(s, part);
    KeysOfMembers(choices, key);
  }

  /** The shifts of one kind that an employee has in a month. */
  ghost function MonthShifts(q: Request, s: Schedule, part: Choice -> bool, key: (Employee, int)): Schedule
  {
    set c | c in s && part(c) && ByEmployeeMonth(q)(c) == key
  }

  ghost predicate MonthlyRead(q: Request, s: Schedule, part: Choice -> bool, limit: int)
  {
    forall c :: CanChoose(q, c) && part(c) ==> |MonthShifts(q, s, part, ByEmployeeMonth(q)(c))| <= limit
  }

  lemma ReadMonth(q: Request, val: Valuation, s: Schedule, part: Choice -> bool, limit: int, key: (Employee, int))
    requires Basis(q, val, s)
    ensures Satisfies(val, MonthlyUnit(q, Filter(part, Choosable(q)), limit)(key)) <==>
      |MonthShifts(q, s, part, key)| <= limit
  {
    var choices := Filter(part, Choosable(q));
    SumUnderPart(q, val, s, part, ByEmployeeMonth(q), key);
    assert MonthShifts(q, s, part, key) == Under(Part(s, part), ByEmployeeMonth(q), key);
    AtMostSumHolds(val, VarsUnder(choices, ByEmployeeMonth(q), key), limit);
  }

  lemma ReadMonthly(q: Request, val: Valuation, s: Schedule, part: Choice -> bool, limit: int)
    requires Basis(q, val, s)
    ensures Satisfies(val, MonthlyFamily(q, Filter(part, Choosable(q)), Some(limit))) <==>
      MonthlyRead(q, s, part, limit)
  {
    var unit := MonthlyUnit(q, Filter(part, Choosable(q)), limit);
    var keys := KeysOf(Filter(part, Choosable(q)), ByEmployeeMonth(q));
    SatisfiesFamily(val, unit, keys);
    if MonthlyRead(q, s, part, limit) {
      forall key | key in keys ensures Satisfies(val, unit(key)) {
        SumUnderPart(q, val, s, part, ByEmployeeMonth(q), key);
        ReadMonth(q, val, s, part, limit, key);
      }
    }
    if Satisfies(val, Family(unit, keys)) {
      forall c | CanChoose(q, c) && part(c) ensures |MonthShifts(q, s, part, ByEmployeeMonth(q)(c))| <= limit {
        var key := ByEmployeeMonth(q)(c);
        SumUnderPart(q, val, s, part, ByEmployeeMonth(q), key);
        assert key in keys;
        ReadMonth(q, val, s, part, limit, key);
      }
    }
  }

  lemma ReadWeekend(q: Request, val: Valuation, s: Schedule)
    requires Basis(q, val, s)
    ensures Satisfies(val, WeekendFamily(q)) <==> WithinWeekendLimit(q, s)
  {
    if q.weekendShiftLimitPerMonth.Some? {
      var limit := q.weekendShiftLimitPerMonth.value;
      ReadMonthly(q, val, s, OnWeekend(q), limit);
      forall c
        ensures MonthShifts(q, s, OnWeekend(q), ByEmployeeMonth(q)(c))
          == WeekendShifts(q, s, c.emp, SlotOf(q, c).month)
      {
      }
    }
  }

  lemma ReadNight(q: Request, val: Valuation, s: Schedule)
    requires Basis(q, val, s)
    ensures Satisfies(val, NightFamily(q)) <==> WithinNightLimit(q, s)
  {
    if q.nightShiftLimitPerMonth.Some? {
      var limit := q.nightShiftLimitPerMonth.value;
      ReadMonthly(q, val, s, AtNight(q), limit);
      forall c
        ensures MonthShifts(q, s, AtNight(q), ByEmployeeMonth(q)(c))
          == NightShifts(q, s, c.emp, SlotOf(q, c).month)
      {
      }
    }
  }

  // ----- fairness -----

  ghost predicate FairnessRead(q: Request, val: Valuation, s: Schedule, e: Employee)
  {
    var options := |OptionsOf(q, e)|;
    options > 0 ==>
      && val(ShiftCount(e)) == |ShiftsOf(s, e)| <= options
      && Max(|ShiftsOf(s, e)| - FairTarget(q), 0) <= val(OverTarget(e)) <= options
  }

  lemma FairnessPieceHolds(val: Valuation, e: Employee, vs: seq<Var>, fairTarget: int, weight: int, count: nat)
    requires Value(val, SumOf(vs)) == count
    ensures Satisfies(val, FairnessPiece(e, vs, fairTarget, weight)) <==>
      |vs| > 0 ==> val(ShiftCount(e)) == count <= |vs| && Max(count - fairTarget, 0) <= val(OverTarget(e)) <= |vs|
  {
    ValueOfParts(val);
    OneTerm(val, 1, ShiftCount(e));
    var m := FairnessPiece(e, vs, fairTarget, weight);
    if vs != [] {
      assert m.decls[0] in m.decls && m.decls[1] in m.decls;
      assert m.constraints[0] in m.constraints && m.constraints[1] in m.constraints;
    }
  }

  /** An employee has as many variables as choices open to them. */
  lemma OptionsCount(q: Request, e: Employee)
    requires WellFormed(q)
    ensures |VarsUnder(Choosable(q), ByEmployee(), e)| == |OptionsOf(q, e)|
  {
    ChoosableDistinct(q);
    var picked := Filter(KeyIs(ByEmployee(), e), Choosable(q));
    FilterMembers(KeyIs(ByEmployee(), e), Choosable(q));
    FilterNoDuplicates(KeyIs(ByEmployee(), e), Choosable(q));
    var all := set c | c in picked;
    assert all == OptionsOf(q, e);
    CountIsCardinality(all, picked);
    assert all == set c | c in all && c in picked;
    AllOnes(all, picked);
  }

  lemma {:induction false} AllOnes(s: Schedule, choices: seq<Choice>)
    requires forall c :: c in choices ==> c in s
    ensures Sum(Indicator(s), choices) == |choices|
  {
    if choices != [] {
      AllOnes(s, choices[..|choices| - 1]);
    }
  }

  lemma ReadFairnessOf(q: Request, val: Valuation, s: Schedule, e: Employee)
    requires Basis(q, val, s)
    ensures Satisfies(val, FairnessUnit(q)(e)) <==> FairnessRead(q, val, s, e)
  {
    OptionsCount(q, e);
    LoadUnder(q, val, s, ByEmployee(), e);
    assert Under(s, ByEmployee(), e) == ShiftsOf(s, e);
    FairnessPieceHolds(val, e, VarsUnder(Choosable(q), ByEmployee(), e), FairTarget(q), q.fairnessWeight,
                       |ShiftsOf(s, e)|);
  }

  lemma ReadFairness(q: Request, val: Valuation, s: Schedule)
    requires Basis(q, val, s)
    ensures Satisfies(val, FairnessFamily(q)) <==> forall e :: e in q.employees ==> FairnessRead(q, val, s, e)
  {
    SatisfiesFamily(val, FairnessUnit(q), q.employees);
    forall e ensures Satisfies(val, FairnessUnit(q)(e)) <==> FairnessRead(q, val, s, e) {
      ReadFairnessOf(q, val, s, e);
    }
  }
}
