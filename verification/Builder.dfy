/** The program's loops: they declare variables, file them under keys, and post
    constraints and objective terms. Each is proved to post exactly its family of the
    encoding. */
module Builder {
  import opened Options
  import opened Sequences
  import opened Sorting
  import opened LinearModel
  import opened DateRuns
  import opened Scheduling
  import opened Costs
  import opened Encoding

  /** The mutable model under construction. */
  class ModelBuilder {
    var decls: seq<Decl<Var>>
    var constraints: seq<Constraint<Var>>
    var objective: seq<Term<Var>>

    function Content(): CpModel
      reads this
    {
      Model(decls, constraints, objective)
    }

    constructor ()
      ensures Content() == EmptyModel()
    {
      decls, constraints, objective := [], [], [];
    }

    method Post(newDecls: seq<Decl<Var>>, newConstraints: seq<Constraint<Var>>, newTerms: seq<Term<Var>>)
      modifies this
      ensures Content() == Plus(old(Content()), Model(newDecls, newConstraints, newTerms))
    {
      decls := decls + newDecls;
      constraints := constraints + newConstraints;
      objective := objective + newTerms;
    }

    method PostAtMost(vs: seq<Var>, limit: int)
      modifies this
      ensures Content() == Plus(old(Content()), AtMostSum(vs, limit))
    {
      Post([], [AtMost(SumOf(vs), Const(limit))], []);
    }

    method PostAtMostIfAny(vs: seq<Var>, limit: int)
      modifies this
      ensures Content() == Plus(old(Content()), AtMostIfAny(vs, limit))
    {
      PlusEmpty(Content());
      if vs != [] {
        PostAtMost(vs, limit);
      }
    }
  }

  // ----- dictionaries of lists that remember the order of their keys -----

  datatype Groups<K(==,!new)> = Groups(keys: seq<K>, lists: map<K, seq<Var>>) {

    function Get(k: K): seq<Var> { if k in lists then lists[k] else [] }

    function Append(k: K, v: Var): Groups<K>
    {
      Groups(if k in lists then keys else keys + [k], lists[k := Get(k) + [v]])
    }

    /** The dictionary files exactly these choices under this key function. */
    ghost predicate Files(choices: seq<Choice>, key: Choice -> K)
    {
      && keys == KeysOf(choices, key)
      && (forall k :: k in keys <==> k in lists)
      && (forall k :: Get(k) == VarsUnder(choices, key, k))
    }
  }

  function NoGroups<K(==,!new)>(): Groups<K> { Groups([], map[]) }

  lemma VarsUnderStep<K(!new)>(choices: seq<Choice>, key: Choice -> K, k: K, c: Choice)
    ensures VarsUnder(choices + [c], key, k)
      == VarsUnder(choices, key, k) + if key(c) == k then [Assign(c)] else []
  {
    FilterStep(KeyIs(key, k), choices, c);
    if key(c) == k {
      assert Filter(KeyIs(key, k), choices + [c]) == Filter(KeyIs(key, k), choices) + [c];
      MapStep(ToVar(), Filter(KeyIs(key, k), choices), c);
    } else {
      assert Filter(KeyIs(key, k), choices + [c]) == Filter(KeyIs(key, k), choices);
    }
  }

  lemma AppendFiles<K(!new)>(g: Groups<K>, choices: seq<Choice>, key: Choice -> K, c: Choice)
    requires g.Files(choices, key)
    ensures g.Append(key(c), Assign(c)).Files(choices + [c], key)
  {
    var h := g.Append(key(c), Assign(c));
    MapStep(key, choices, c);
    DedupStep(Map(key, choices), key(c));
    forall k ensures h.Get(k) == VarsUnder(choices + [c], key, k) {
      VarsUnderStep(choices, key, k, c);
    }
  }

  /** All the dictionaries that the first loop fills. */
  datatype Index = Index(
    byRequirement: Groups<Requirement>,
    bySlot: Groups<Id>,
    byEmployeeSlot: Groups<(Employee, Id)>,
    byIdSlot: Groups<(Id, Id)>,
    byWeek: Groups<(Employee, int)>,
    byDate: Groups<(Employee, int)>,
    byWeekend: Groups<(Employee, int)>,
    byNight: Groups<(Employee, int)>)

  function NoIndex(): Index
  {
    Index(NoGroups(), NoGroups(), NoGroups(), NoGroups(), NoGroups(), NoGroups(), NoGroups(), NoGroups())
  }

  ghost predicate FiledByPlace(choices: seq<Choice>, index: Index)
  {
    && index.byRequirement.Files(choices, ByRequirement())
    && index.bySlot.Files(choices, BySlot())
    && index.byEmployeeSlot.Files(choices, ByEmployeeSlot())
    && index.byIdSlot.Files(choices, ByEmployeeIdSlot())
  }

  ghost predicate FiledByDate(q: Request, choices: seq<Choice>, index: Index)
  {
    && index.byWeek.Files(choices, ByEmployeeWeek(q))
    && index.byDate.Files(choices, ByEmployeeDate(q))
    && index.byWeekend.Files(Filter(OnWeekend(q), choices), ByEmployeeMonth(q))
    && index.byNight.Files(Filter(AtNight(q), choices), ByEmployeeMonth(q))
  }

  ghost predicate Filed(q: Request, choices: seq<Choice>, index: Index)
  {
    FiledByPlace(choices, index) && FiledByDate(q, choices, index)
  }

  /** Files one more choice in every dictionary it belongs to. */
  function File(q: Request, index: Index, c: Choice): Index
  {
    var v := Assign(c);
    var t := SlotOf(q, c);
    Index(
      index.byRequirement.Append(c.req, v),
      index.bySlot.Append(c.req.slotId, v),
      index.byEmployeeSlot.Append((c.emp, c.req.slotId), v),
      index.byIdSlot.Append((c.emp.id, c.req.slotId), v),
      index.byWeek.Append((c.emp, WeekKey(t.localDate)), v),
      index.byDate.Append((c.emp, t.localDate), v),
      if t.isWeekend then index.byWeekend.Append((c.emp, t.month), v) else index.byWeekend,
      if t.isNight then index.byNight.Append((c.emp, t.month), v) else index.byNight)
  }

  function Filer(q: Request): (Index, Choice) -> Index { (index: Index, c: Choice) => File(q, index, c) }

  function FileEach(file: (Index, Choice) -> Index, choices: seq<Choice>): Index
  {
    if choices == [] then NoIndex()
    else file(FileEach(file, choices[..|choices| - 1]), choices[|choices| - 1])
  }

  /** The dictionaries after filing each of these choices in turn. */
  function FileAll(q: Request, choices: seq<Choice>): Index { FileEach(Filer(q), choices) }

  ghost predicate Indexes(q: Request, choices: seq<Choice>, index: Index)
  {
    index == FileAll(q, choices)
  }

  /** Filing a choice appends to the dictionary `sel` when the choice belongs to `part`. */
  ghost predicate Appends<K(!new)>(file: (Index, Choice) -> Index, sel: Index -> Groups<K>, key: Choice -> K,
                                   part: Choice -> bool)
  {
    && sel(NoIndex()) == NoGroups()
    && forall index, c ::
         sel(file(index, c)) == if part(c) then sel(index).Append(key(c), Assign(c)) else sel(index)
  }

  lemma FiledOneMore<K(!new)>(g: Groups<K>, front: seq<Choice>, c: Choice, key: Choice -> K, part: Choice -> bool)
    requires g.Files(Filter(part, front), key)
    ensures (if part(c) then g.Append(key(c), Assign(c)) else g).Files(Filter(part, front + [c]), key)
  {
    FilterStep(part, front, c);
    if part(c) {
      AppendFiles(g, Filter(part, front), key, c);
    } else {
      assert Filter(part, front) + [] == Filter(part, front);
    }
  }

  lemma {:induction false} AllFiledIn<K(!new)>(file: (Index, Choice) -> Index, choices: seq<Choice>,
                                              sel: Index -> Groups<K>, key: Choice -> K, part: Choice -> bool)
    requires Appends(file, sel, key, part)
    ensures sel(FileEach(file, choices)).Files(Filter(part, choices), key)
  {
    if choices == [] {
      NothingFiles(key);
    } else {
      var front, c := choices[..|choices| - 1], choices[|choices| - 1];
      AllFiledIn(file, front, sel, key, part);
      FiledOneMore(sel(FileEach(file, front)), front, c, key, part);
      assert choices == front + [c];
    }
  }

  lemma NothingFiles<K(!new)>(key: Choice -> K)
    ensures NoGroups<K>().Files([], key)
  {
  }

  function Always(): Choice -> bool { (c: Choice) => true }

  function Requirements(): Index -> Groups<Requirement> { (i: Index) => i.byRequirement }

  function SlotIds(): Index -> Groups<Id> { (i: Index) => i.bySlot }

  function EmployeeSlots(): Index -> Groups<(Employee, Id)> { (i: Index) => i.byEmployeeSlot }

  function IdSlots(): Index -> Groups<(Id, Id)> { (i: Index) => i.byIdSlot }

  function Weeks(): Index -> Groups<(Employee, int)> { (i: Index) => i.byWeek }

  function Dates(): Index -> Groups<(Employee, int)> { (i: Index) => i.byDate }

  function WeekendMonths(): Index -> Groups<(Employee, int)> { (i: Index) => i.byWeekend }

  function NightMonths(): Index -> Groups<(Employee, int)> { (i: Index) => i.byNight }

  lemma AllFiledByPlace(q: Request, choices: seq<Choice>)
    ensures FiledByPlace(choices, FileAll(q, choices))
  {
    FilterAll(Always(), choices);
    AllFiledIn(Filer(q), choices, Requirements(), ByRequirement(), Always());
    AllFiledIn(Filer(q), choices, SlotIds(), BySlot(), Always());
    AllFiledIn(Filer(q), choices, EmployeeSlots(), ByEmployeeSlot(), Always());
    AllFiledIn(Filer(q), choices, IdSlots(), ByEmployeeIdSlot(), Always());
  }

  lemma AllFiledByDate(q: Request, choices: seq<Choice>)
    ensures FiledByDate(q, choices, FileAll(q, choices))
  {
    FilterAll(Always(), choices);
    AllFiledIn(Filer(q), choices, Weeks(), ByEmployeeWeek(q), Always());
    AllFiledIn(Filer(q), choices, Dates(), ByEmployeeDate(q), Always());
    AllFiledIn(Filer(q), choices, WeekendMonths(), ByEmployeeMonth(q), OnWeekend(q));
    AllFiledIn(Filer(q), choices, NightMonths(), ByEmployeeMonth(q), AtNight(q));
  }

  lemma FileAllFiles(q: Request, choices: seq<Choice>)
    ensures Filed(q, choices, FileAll(q, choices))
  {
    AllFiledByPlace(q, choices);
    AllFiledByDate(q, choices);
  }

  // ----- growing a family by one -----

  lemma Grow<K>(base: CpModel, unit: K -> CpModel, keys: seq<K>, k: K)
    ensures Plus(Plus(base, Family(unit, keys)), unit(k)) == Plus(base, Family(unit, keys + [k]))
  {
    FamilyStep(unit, keys, k);
    PlusAssociative(base, Family(unit, keys), unit(k));
  }

  lemma GrowRange(base: CpModel, unit: int -> CpModel, lo: int, i: int)
    requires lo <= i
    ensures Plus(Plus(base, Family(unit, Interval(lo, i))), unit(i)) == Plus(base, Family(unit, Interval(lo, i + 1)))
  {
    IntervalStep(lo, i);
    Grow(base, unit, Interval(lo, i), i);
  }

  lemma ChoicesStep(requirements: seq<Requirement>, employees: seq<Employee>, i: nat)
    requires i < |requirements|
    ensures ChoicesAmong(requirements[..i + 1], employees)
      == ChoicesAmong(requirements[..i], employees) + ChoicesFor(requirements[i], employees)
  {
    assert requirements[..i + 1][..i] == requirements[..i];
  }

  lemma ChoicesForStep(r: Requirement, employees: seq<Employee>, j: nat)
    requires j < |employees|
    ensures ChoicesFor(r, employees[..j + 1])
      == ChoicesFor(r, employees[..j]) + if Eligible(r, employees[j]) then [Choice(r, employees[j])] else []
  {
    assert employees[..j + 1][..j] == employees[..j];
  }

  // ----- variables for the choices -----

  method AddChoice(q: Request, m: ModelBuilder, c: Choice, choices: seq<Choice>, index: Index,
                   ghost base: CpModel)
    returns (more: seq<Choice>, next: Index)
    requires Indexes(q, choices, index) && m.Content() == Plus(base, Family(ChoiceUnit(), choices))
    modifies m
    ensures more == choices + if Eligible(c.req, c.emp) then [c] else []
    ensures Indexes(q, more, next)
    ensures m.Content() == Plus(base, Family(ChoiceUnit(), more))
  {
    more, next := choices, index;
    if Eligible(c.req, c.emp) {
      m.Post([Decl(Assign(c), 0, 1)], [], []);
      Grow(base, ChoiceUnit(), choices, c);
      next := File(q, index, c);
      assert (choices + [c])[..|choices|] == choices;
      more := choices + [c];
    }
  }

  method AddChoicesFor(q: Request, m: ModelBuilder, r: Requirement, choices0: seq<Choice>, index0: Index,
                       ghost base: CpModel)
    returns (choices: seq<Choice>, index: Index)
    requires Indexes(q, choices0, index0) && m.Content() == Plus(base, Family(ChoiceUnit(), choices0))
    modifies m
    ensures choices == choices0 + ChoicesFor(r, q.employees) && Indexes(q, choices, index)
    ensures m.Content() == Plus(base, Family(ChoiceUnit(), choices))
  {
    choices, index := choices0, index0;
    ghost var found: seq<Choice> := [];
    assert choices0 + [] == choices0;
    for j := 0 to |q.employees|
      invariant found == ChoicesFor(r, q.employees[..j])
      invariant choices == choices0 + found
      invariant Indexes(q, choices, index)
      invariant m.Content() == Plus(base, Family(ChoiceUnit(), choices))
    {
      ghost var next := if Eligible(r, q.employees[j]) then [Choice(r, q.employees[j])] else [];
      ChoicesForStep(r, q.employees, j);
      ConcatAssociative(choices0, found, next);
      choices, index := AddChoice(q, m, Choice(r, q.employees[j]), choices, index, base);
      found := found + next;
    }
    assert q.employees[..|q.employees|] == q.employees;
  }

  method AddChoices(q: Request, m: ModelBuilder) returns (choices: seq<Choice>, index: Index)
    modifies m
    ensures m.Content() == Plus(old(m.Content()), ChoiceFamily(q))
    ensures choices == Choosable(q) && Filed(q, choices, index)
  {
    choices, index := [], NoIndex();
    ghost var base := m.Content();
    PlusEmpty(base);
    for i := 0 to |q.requirements|
      invariant choices == ChoicesAmong(q.requirements[..i], q.employees)
      invariant Indexes(q, choices, index)
      invariant m.Content() == Plus(base, Family(ChoiceUnit(), choices))
    {
      choices, index := AddChoicesFor(q, m, q.requirements[i], choices, index, base);
      ChoicesStep(q.requirements, q.employees, i);
    }
    assert q.requirements[..|q.requirements|] == q.requirements;
    FileAllFiles(q, choices);
  }

  // ----- unfilled requirements -----

  method AddUnfilled(q: Request, m: ModelBuilder, vars: Groups<Requirement>)
    requires vars.Files(Choosable(q), ByRequirement())
    modifies m
    ensures m.Content() == Plus(old(m.Content()), UnfilledFamily(q))
  {
    ghost var base := m.Content();
    PlusEmpty(base);
    for i := 0 to |q.requirements|
      invariant m.Content() == Plus(base, Family(UnfilledUnit(q), q.requirements[..i]))
    {
      var r := q.requirements[i];
      m.Post(
        [Decl(Unfilled(r), 0, r.requiredCount)],
        [Equal(Add(SumOf(vars.Get(r)), Of(Unfilled(r))), Const(r.requiredCount))],
        [Term(r.unfilledWeight * UNFILLED_SCALE, Unfilled(r))]);
      TakeNext(q.requirements, i);
      Grow(base, UnfilledUnit(q), q.requirements[..i], r);
    }
    assert q.requirements[..|q.requirements|] == q.requirements;
  }

  // ----- staffing targets -----

  method StaffAsked(q: Request, slotId: Id) returns (total: int)
    ensures total == MaxStaff(q.requirements, slotId)
  {
    total := 0;
    for i := 0 to |q.requirements|
      invariant total == MaxStaff(q.requirements[..i], slotId)
    {
      assert q.requirements[..i + 1][..i] == q.requirements[..i];
      if q.requirements[i].slotId == slotId {
        total := total + q.requirements[i].requiredCount;
      }
    }
    assert q.requirements[..|q.requirements|] == q.requirements;
  }

  method PostStaffing(m: ModelBuilder, k: nat, t: StaffingTarget, maxStaff: int, vs: seq<Var>)
    modifies m
    ensures m.Content() == Plus(old(m.Content()), StaffingPiece(k, t, maxStaff, vs))
  {
    m.Post(
      [Decl(StaffCount(k), 0, maxStaff),
       Decl(UnderStaffing(k), 0, Max(t.target, 0)),
       Decl(OverStaffing(k), 0, Max(maxStaff - t.target, 0))],
      [Equal(Of(StaffCount(k)), SumOf(vs)),
       AtMost(Expr([Term(-1, StaffCount(k))], t.target), Of(UnderStaffing(k))),
       AtMost(Expr([Term(1, StaffCount(k))], -t.target), Of(OverStaffing(k)))],
      [Term(Max(t.underPenalty, 0), UnderStaffing(k)), Term(Max(t.overPenalty, 0), OverStaffing(k))]);
  }

  method AddStaffing(q: Request, m: ModelBuilder, vars: Groups<Id>)
    requires vars.Files(Choosable(q), BySlot())
    modifies m
    ensures m.Content() == Plus(old(m.Content()), StaffingFamily(q))
  {
    ghost var base := m.Content();
    PlusEmpty(base);
    for k := 0 to |q.staffingTargets|
      invariant m.Content() == Plus(base, Family(StaffingUnit(q), Interval(0, k)))
    {
      var t := q.staffingTargets[k];
      var maxStaff := StaffAsked(q, t.slotId);
      PostStaffing(m, k, t, maxStaff, vars.Get(t.slotId));
      GrowRange(base, StaffingUnit(q), 0, k);
    }
  }

  // ----- one role per employee and slot -----

  method AddOneRole(q: Request, m: ModelBuilder, vars: Groups<(Employee, Id)>)
    requires vars.Files(Choosable(q), ByEmployeeSlot())
    modifies m
    ensures m.Content() == Plus(old(m.Content()), OneRoleFamily(q))
  {
    ghost var base := m.Content();
    PlusEmpty(base);
    for i := 0 to |vars.keys|
      invariant m.Content() == Plus(base, Family(OneRoleUnit(q), vars.keys[..i]))
    {
      m.PostAtMost(vars.Get(vars.keys[i]), 1);
      TakeNext(vars.keys, i);
      Grow(base, OneRoleUnit(q), vars.keys[..i], vars.keys[i]);
    }
    assert vars.keys[..|vars.keys|] == vars.keys;
  }

  // ----- blocked pairs -----

  method AddBlocked(q: Request, m: ModelBuilder, vars: Groups<(Id, Id)>)
    requires vars.Files(Choosable(q), ByEmployeeIdSlot())
    modifies m
    ensures m.Content() == Plus(old(m.Content()), BlockedFamily(q))
  {
    ghost var base := m.Content();
    PlusEmpty(base);
    for i := 0 to |q.blockedPairs|
      invariant m.Content() == Plus(base, Family(BlockedUnit(q), q.blockedPairs[..i]))
    {
      var p := q.blockedPairs[i];
      AddBlockedPair(q, m, vars, p);
      TakeNext(q.blockedPairs, i);
      Grow(base, BlockedUnit(q), q.blockedPairs[..i], p);
    }
    assert q.blockedPairs[..|q.blockedPairs|] == q.blockedPairs;
  }

  method AddBlockedPair(q: Request, m: ModelBuilder, vars: Groups<(Id, Id)>, p: BlockedPair)
    requires vars.Files(Choosable(q), ByEmployeeIdSlot())
    modifies m
    ensures m.Content() == Plus(old(m.Content()), BlockedUnit(q)(p))
  {
    var (a, b) := Normalized(p.a, p.b);
    ghost var base := m.Content();
    PlusEmpty(base);
    for j := 0 to |q.slots|
      invariant m.Content() == Plus(base, Family(BlockedAt(q, p), q.slots[..j]))
    {
      var t := q.slots[j];
      m.PostAtMostIfAny(vars.Get((a, t.id)) + vars.Get((b, t.id)), 1);
      TakeNext(q.slots, j);
      Grow(base, BlockedAt(q, p), q.slots[..j], t);
    }
    assert q.slots[..|q.slots|] == q.slots;
  }

  // ----- pairs to keep apart -----

  method AddAvoid(q: Request, m: ModelBuilder, vars: Groups<(Id, Id)>)
    requires vars.Files(Choosable(q), ByEmployeeIdSlot())
    modifies m
    ensures m.Content() == Plus(old(m.Content()), AvoidFamily(q))
  {
    ghost var base := m.Content();
    PlusEmpty(base);
    for k := 0 to |q.avoidPairs|
      invariant m.Content() == Plus(base, Family(AvoidUnit(q), Interval(0, k)))
    {
      AddAvoidPair(q, m, vars, k);
      GrowRange(base, AvoidUnit(q), 0, k);
    }
  }

  method AddAvoidPair(q: Request, m: ModelBuilder, vars: Groups<(Id, Id)>, k: nat)
    requires vars.Files(Choosable(q), ByEmployeeIdSlot()) && k < |q.avoidPairs|
    modifies m
    ensures m.Content() == Plus(old(m.Content()), AvoidUnit(q)(k))
  {
    var p := q.avoidPairs[k];
    var (a, b) := Normalized(p.a, p.b);
    ghost var base := m.Content();
    PlusEmpty(base);
    for j := 0 to |q.slots|
      invariant m.Content() == Plus(base, Family(AvoidAt(q, k, p), q.slots[..j]))
    {
      var t := q.slots[j];
      var varsA, varsB := vars.Get((a, t.id)), vars.Get((b, t.id));
      PlusEmpty(m.Content());
      if varsA != [] && varsB != [] {
        var assignedA, assignedB, violation := AvoidA(k, t.id), AvoidB(k, t.id), AvoidViolation(k, t.id);
        m.Post(
          [Decl(assignedA, 0, 1), Decl(assignedB, 0, 1), Decl(violation, 0, 1)],
          FlagConstraints(varsA, assignedA) + FlagConstraints(varsB, assignedB)
            + BothConstraints(assignedA, assignedB, violation),
          [Term(p.weight, violation)]);
      }
      TakeNext(q.slots, j);
      Grow(base, AvoidAt(q, k, p), q.slots[..j], t);
    }
    assert q.slots[..|q.slots|] == q.slots;
  }

  // ----- caps and monthly limits -----

  method AddWeekly(q: Request, m: ModelBuilder, vars: Groups<(Employee, int)>)
    requires vars.Files(Choosable(q), ByEmployeeWeek(q))
    modifies m
    ensures m.Content() == Plus(old(m.Content()), WeeklyFamily(q))
  {
    ghost var base := m.Content();
    PlusEmpty(base);
    for i := 0 to |vars.keys|
      invariant m.Content() == Plus(base, Family(WeeklyUnit(q), vars.keys[..i]))
    {
      var key := vars.keys[i];
      var cap := if key.0.maxShiftsPerWeek.Some? then key.0.maxShiftsPerWeek else q.globalMaxShiftsPerWeek;
      PlusEmpty(m.Content());
      if cap.Some? {
        m.PostAtMost(vars.Get(key), cap.value);
      }
      TakeNext(vars.keys, i);
      Grow(base, WeeklyUnit(q), vars.keys[..i], key);
    }
    assert vars.keys[..|vars.keys|] == vars.keys;
  }

  method AddMonthly(q: Request, m: ModelBuilder, vars: Groups<(Employee, int)>, ghost choices: seq<Choice>,
                    limit: Option<int>)
    requires vars.Files(choices, ByEmployeeMonth(q))
    modifies m
    ensures m.Content() == Plus(old(m.Content()), MonthlyFamily(q, choices, limit))
  {
    ghost var base := m.Content();
    PlusEmpty(base);
    if limit.Some? {
      for i := 0 to |vars.keys|
        invariant m.Content() == Plus(base, Family(MonthlyUnit(q, choices, limit.value), vars.keys[..i]))
      {
        m.PostAtMost(vars.Get(vars.keys[i]), limit.value);
        TakeNext(vars.keys, i);
        Grow(base, MonthlyUnit(q, choices, limit.value), vars.keys[..i], vars.keys[i]);
      }
      assert vars.keys[..|vars.keys|] == vars.keys;
    }
  }

  // ----- rotation -----

  method AddRotation(q: Request, m: ModelBuilder)
    modifies m
    ensures m.Content() == Plus(old(m.Content()), RotationFamily(q))
  {
    ghost var base := m.Content();
    PlusEmpty(base);
    ghost var done: seq<Choice> := [];
    for i := 0 to |q.requirements|
      invariant done == ChoicesAmong(q.requirements[..i], q.employees)
      invariant m.Content() == Plus(base, Family(RotationUnit(q), done))
    {
      var r := q.requirements[i];
      ghost var before := done;
      ghost var found: seq<Choice> := [];
      assert before + [] == before;
      for j := 0 to |q.employees|
        invariant found == ChoicesFor(r, q.employees[..j])
        invariant done == before + found
        invariant m.Content() == Plus(base, Family(RotationUnit(q), done))
      {
        ChoicesForStep(r, q.employees, j);
        if Eligible(r, q.employees[j]) {
          var c := Choice(r, q.employees[j]);
          m.Post([], [], [Term(TieBreaker(q, c), Assign(c))]);
          Grow(base, RotationUnit(q), done, c);
          ConcatAssociative(before, found, [c]);
          done, found := done + [c], found + [c];
        }
      }
      assert q.employees[..|q.employees|] == q.employees;
      ChoicesStep(q.requirements, q.employees, i);
    }
    assert q.requirements[..|q.requirements|] == q.requirements;
  }

  // ----- fairness -----

  method VariablesOf(choices: seq<Choice>, e: Employee) returns (vs: seq<Var>)
    ensures vs == VarsUnder(choices, ByEmployee(), e)
  {
    vs := [];
    for i := 0 to |choices|
      invariant vs == VarsUnder(choices[..i], ByEmployee(), e)
    {
      TakeNext(choices, i);
      FilterStep(KeyIs(ByEmployee(), e), choices[..i], choices[i]);
      if choices[i].emp == e {
        MapStep(ToVar(), Filter(KeyIs(ByEmployee(), e), choices[..i]), choices[i]);
        vs := vs + [Assign(choices[i])];
      } else {
        assert Filter(KeyIs(ByEmployee(), e), choices[..i + 1]) == Filter(KeyIs(ByEmployee(), e), choices[..i]);
      }
    }
    assert choices[..|choices|] == choices;
  }

  method PostFairness(m: ModelBuilder, e: Employee, vs: seq<Var>, fairTarget: int, weight: int)
    modifies m
    ensures m.Content() == Plus(old(m.Content()), FairnessPiece(e, vs, fairTarget, weight))
  {
    PlusEmpty(m.Content());
    if vs != [] {
      m.Post(
        [Decl(ShiftCount(e), 0, |vs|), Decl(OverTarget(e), 0, |vs|)],
        [Equal(Of(ShiftCount(e)), SumOf(vs)),
         AtMost(Expr([Term(1, ShiftCount(e))], -fairTarget), Of(OverTarget(e)))],
        [Term(weight, OverTarget(e))]);
    }
  }

  method AddFairness(q: Request, m: ModelBuilder, choices: seq<Choice>)
    requires choices == Choosable(q)
    modifies m
    ensures m.Content() == Plus(old(m.Content()), FairnessFamily(q))
  {
    ghost var base := m.Content();
    PlusEmpty(base);
    var fairTarget := FairTarget(q);
    for i := 0 to |q.employees|
      invariant m.Content() == Plus(base, Family(FairnessUnit(q), q.employees[..i]))
    {
      var e := q.employees[i];
      var vs := VariablesOf(choices, e);
      PostFairness(m, e, vs, fairTarget, q.fairnessWeight);
      TakeNext(q.employees, i);
      Grow(base, FairnessUnit(q), q.employees[..i], e);
    }
    assert q.employees[..|q.employees|] == q.employees;
  }

  // ----- worked days -----

  ghost predicate WorkedSoFar(keys: seq<(Employee, int)>, worked: map<(Employee, int), Var>)
  {
    && (forall key :: key in worked <==> key in keys)
    && (forall key :: key in worked ==> worked[key] == Worked(key.0, key.1))
  }

  /** The variables that say whether an employee works on a date. */
  ghost predicate WorkedIndex(q: Request, worked: map<(Employee, int), Var>)
  {
    WorkedSoFar(WorkKeys(q), worked)
  }

  function WorkedMap(keys: seq<(Employee, int)>): map<(Employee, int), Var>
  {
    if keys == [] then map[]
    else
      var key := keys[|keys| - 1];
      WorkedMap(keys[..|keys| - 1])[key := Worked(key.0, key.1)]
  }

  lemma {:induction false} WorkedMapCovers(keys: seq<(Employee, int)>)
    ensures WorkedSoFar(keys, WorkedMap(keys))
  {
    if keys != [] {
      var n := |keys| - 1;
      WorkedMapCovers(keys[..n]);
      assert keys == keys[..n] + [keys[n]];
    }
  }

  method AddWorkedDay(q: Request, m: ModelBuilder, vars: Groups<(Employee, int)>, key: (Employee, int))
    requires vars.Files(Choosable(q), ByEmployeeDate(q))
    modifies m
    ensures m.Content() == Plus(old(m.Content()), WorkedUnit(q)(key))
  {
    var flag := Worked(key.0, key.1);
    m.Post([Decl(flag, 0, 1)], FlagConstraints(vars.Get(key), flag), []);
  }

  method AddWorked(q: Request, m: ModelBuilder, vars: Groups<(Employee, int)>)
    returns (worked: map<(Employee, int), Var>)
    requires vars.Files(Choosable(q), ByEmployeeDate(q))
    modifies m
    ensures m.Content() == Plus(old(m.Content()), WorkedFamily(q))
    ensures WorkedIndex(q, worked)
  {
    ghost var base := m.Content();
    PlusEmpty(base);
    worked := map[];
    for i := 0 to |vars.keys|
      invariant m.Content() == Plus(base, Family(WorkedUnit(q), vars.keys[..i]))
      invariant worked == WorkedMap(vars.keys[..i])
    {
      var key := vars.keys[i];
      AddWorkedDay(q, m, vars, key);
      assert vars.keys[..i + 1][..i] == vars.keys[..i];
      worked := worked[key := Worked(key.0, key.1)];
      TakeNext(vars.keys, i);
      Grow(base, WorkedUnit(q), vars.keys[..i], key);
    }
    assert vars.keys[..|vars.keys|] == vars.keys;
    WorkedMapCovers(vars.keys);
  }

  // ----- streaks -----

  method WorkedOn(q: Request, worked: map<(Employee, int), Var>, e: Employee, dates: seq<int>) returns (vs: seq<Var>)
    requires WorkedIndex(q, worked)
    ensures vs == WorkedVars(q, e, dates)
  {
    vs := [];
    for i := 0 to |dates|
      invariant vs == WorkedVars(q, e, dates[..i])
    {
      TakeNext(dates, i);
      FilterStep(HasWork(q, e), dates[..i], dates[i]);
      if (e, dates[i]) in worked {
        MapStep(WorkedVar(e), Filter(HasWork(q, e), dates[..i]), dates[i]);
        vs := vs + [worked[(e, dates[i])]];
      } else {
        assert Filter(HasWork(q, e), dates[..i + 1]) == Filter(HasWork(q, e), dates[..i]);
      }
    }
    assert dates[..|dates|] == dates;
  }

  method AddWindow(q: Request, m: ModelBuilder, worked: map<(Employee, int), Var>, e: Employee, run: Run,
                   limit: nat, i: nat)
    requires WorkedIndex(q, worked) && i + limit < |run|
    modifies m
    ensures m.Content() == Plus(old(m.Content()), WindowUnit(q, e, run, limit)(i))
  {
    var windowSize := limit + 1;
    var vs := WorkedOn(q, worked, e, run[i..i + windowSize]);
    assert WindowUnit(q, e, run, limit)(i) == AtMostIfAny(vs, limit);
    m.PostAtMostIfAny(vs, limit);
  }

  method AddWindows(q: Request, m: ModelBuilder, worked: map<(Employee, int), Var>, e: Employee, run: Run, limit: nat)
    requires WorkedIndex(q, worked)
    modifies m
    ensures m.Content() == Plus(old(m.Content()), RunUnit(q, e, limit)(run))
  {
    ghost var base := m.Content();
    PlusEmpty(base);
    var windows := if |run| > limit then |run| - limit else 0;
    for i := 0 to windows
      invariant m.Content() == Plus(base, Family(WindowUnit(q, e, run, limit), Interval(0, i)))
    {
      AddWindow(q, m, worked, e, run, limit, i);
      GrowRange(base, WindowUnit(q, e, run, limit), 0, i);
    }
    assert Interval(0, windows) == Interval(0, |run| - limit);
  }

  method AddStreaksOf(q: Request, m: ModelBuilder, worked: map<(Employee, int), Var>, e: Employee, limit: nat)
    requires WorkedIndex(q, worked)
    modifies m
    ensures m.Content() == Plus(old(m.Content()), StreakUnit(q, limit)(e))
  {
    ghost var base := m.Content();
    PlusEmpty(base);
    var sequences := ConsecutiveDateSequences(SlotDates(q));
    for k := 0 to |sequences|
      invariant m.Content() == Plus(base, Family(RunUnit(q, e, limit), sequences[..k]))
    {
      AddWindows(q, m, worked, e, sequences[k], limit);
      TakeNext(sequences, k);
      Grow(base, RunUnit(q, e, limit), sequences[..k], sequences[k]);
    }
    assert sequences[..|sequences|] == sequences;
  }

  method AddStreaks(q: Request, m: ModelBuilder, worked: map<(Employee, int), Var>)
    requires WorkedIndex(q, worked)
    modifies m
    ensures m.Content() == Plus(old(m.Content()), StreakFamily(q))
  {
    ghost var base := m.Content();
    PlusEmpty(base);
    if q.maxConsecutiveShifts.Some? && q.maxConsecutiveShifts.value > 0 {
      var limit := q.maxConsecutiveShifts.value;
      for i := 0 to |q.employees|
        invariant m.Content() == Plus(base, Family(StreakUnit(q, limit), q.employees[..i]))
      {
        AddStreaksOf(q, m, worked, q.employees[i], limit);
        TakeNext(q.employees, i);
        Grow(base, StreakUnit(q, limit), q.employees[..i], q.employees[i]);
      }
      assert q.employees[..|q.employees|] == q.employees;
    }
  }

  // ----- rest -----

  method DatedSlots(q: Request) returns (slots: seq<Slot>)
    ensures slots == TimedSlots(q)
  {
    slots := [];
    for i := 0 to |q.slots|
      invariant slots == Filter(IsTimed(), q.slots[..i])
    {
      TakeNext(q.slots, i);
      FilterStep(IsTimed(), q.slots[..i], q.slots[i]);
      if Timed(q.slots[i]) {
        slots := slots + [q.slots[i]];
      }
    }
    assert q.slots[..|q.slots|] == q.slots;
  }

  method AddRestPair(q: Request, m: ModelBuilder, vars: Groups<(Employee, Id)>, e: Employee,
                     first: Slot, second: Slot, hours: int)
    requires vars.Files(Choosable(q), ByEmployeeSlot()) && Timed(first) && Timed(second)
    modifies m
    ensures m.Content() == Plus(old(m.Content()), RestPiece(q, e, first, second, hours))
  {
    PlusEmpty(m.Content());
    var earlier, later := first, second;
    if first.startsAt.value > second.startsAt.value {
      earlier, later := second, first;
    }
    if later.startsAt.value - earlier.endsAt.value < 3600 * hours {
      m.PostAtMostIfAny(vars.Get((e, earlier.id)) + vars.Get((e, later.id)), 1);
    }
  }

  method AddRestAgainst(q: Request, m: ModelBuilder, vars: Groups<(Employee, Id)>, e: Employee,
                        slots: seq<Slot>, i: nat, j: nat, hours: int)
    requires vars.Files(Choosable(q), ByEmployeeSlot())
    requires i < |slots| && j < |slots| && Timed(slots[i]) && Timed(slots[j])
    modifies m
    ensures m.Content() == Plus(old(m.Content()), RestAgainst(q, e, slots, i, hours)(j))
  {
    assert RestAgainst(q, e, slots, i, hours)(j) == RestPiece(q, e, slots[i], slots[j], hours);
    AddRestPair(q, m, vars, e, slots[i], slots[j], hours);
  }

  method AddRestAfter(q: Request, m: ModelBuilder, vars: Groups<(Employee, Id)>, e: Employee,
                      slots: seq<Slot>, i: nat, hours: int)
    requires vars.Files(Choosable(q), ByEmployeeSlot())
    requires i < |slots| && forall t :: t in slots ==> Timed(t)
    modifies m
    ensures m.Content() == Plus(old(m.Content()), RestFrom(q, e, slots, hours)(i))
  {
    ghost var base, unit := m.Content(), RestAgainst(q, e, slots, i, hours);
    PlusEmpty(base);
    RestFromIsRange(q, e, slots, hours, i);
    for j := i + 1 to |slots|
      invariant m.Content() == Plus(base, Family(unit, Interval(i + 1, j)))
    {
      TimedAt(slots, i);
      TimedAt(slots, j);
      AddRestAgainst(q, m, vars, e, slots, i, j, hours);
      GrowRange(base, unit, i + 1, j);
    }
  }

  lemma RestFromIsRange(q: Request, e: Employee, slots: seq<Slot>, hours: int, i: nat)
    requires i < |slots|
    ensures RestFrom(q, e, slots, hours)(i) == Family(RestAgainst(q, e, slots, i, hours), Interval(i + 1, |slots|))
  {
  }

  lemma TimedAt(slots: seq<Slot>, i: nat)
    requires i < |slots| && forall t :: t in slots ==> Timed(t)
    ensures Timed(slots[i])
  {
    assert slots[i] in slots;
  }

  method AddRestOf(q: Request, m: ModelBuilder, vars: Groups<(Employee, Id)>, e: Employee, slots: seq<Slot>, hours: int)
    requires vars.Files(Choosable(q), ByEmployeeSlot())
    requires slots == TimedSlots(q) && forall t :: t in slots ==> Timed(t)
    modifies m
    ensures m.Content() == Plus(old(m.Content()), RestUnit(q, hours)(e))
  {
    ghost var base := m.Content();
    PlusEmpty(base);
    for i := 0 to |slots|
      invariant m.Content() == Plus(base, Family(RestFrom(q, e, slots, hours), Interval(0, i)))
    {
      AddRestAfter(q, m, vars, e, slots, i, hours);
      GrowRange(base, RestFrom(q, e, slots, hours), 0, i);
    }
  }

  method AddRest(q: Request, m: ModelBuilder, vars: Groups<(Employee, Id)>)
    requires vars.Files(Choosable(q), ByEmployeeSlot())
    modifies m
    ensures m.Content() == Plus(old(m.Content()), RestFamily(q))
  {
    ghost var base := m.Content();
    PlusEmpty(base);
    if q.minRestHours.Some? && q.minRestHours.value > 0 {
      var hours := q.minRestHours.value;
      var slots := DatedSlots(q);
      FilterMembers(IsTimed(), q.slots);
      for i := 0 to |q.employees|
        invariant m.Content() == Plus(base, Family(RestUnit(q, hours), q.employees[..i]))
      {
        AddRestOf(q, m, vars, q.employees[i], slots, hours);
        TakeNext(q.employees, i);
        Grow(base, RestUnit(q, hours), q.employees[..i], q.employees[i]);
      }
      assert q.employees[..|q.employees|] == q.employees;
    }
  }

  // ----- adjacent repeats -----

  method AddAdjacentPair(q: Request, m: ModelBuilder, worked: map<(Employee, int), Var>, e: Employee,
                         first: int, second: int)
    requires WorkedIndex(q, worked)
    modifies m
    ensures m.Content() == Plus(old(m.Content()), AdjacentPiece(q, e, first, second))
  {
    PlusEmpty(m.Content());
    if second - first == 1 && (e, first) in worked && (e, second) in worked {
      m.Post(
        [Decl(AdjacentRepeat(e, first), 0, 1)],
        BothConstraints(worked[(e, first)], worked[(e, second)], AdjacentRepeat(e, first)),
        [Term(ADJACENT_DAY_REPEAT_WEIGHT, AdjacentRepeat(e, first))]);
    }
  }

  method AddAdjacentOf(q: Request, m: ModelBuilder, worked: map<(Employee, int), Var>, e: Employee)
    requires WorkedIndex(q, worked)
    modifies m
    ensures m.Content() == Plus(old(m.Content()), AdjacentUnit(q)(e))
  {
    ghost var base := m.Content();
    PlusEmpty(base);
    var dates := SlotDates(q);
    var i := 0;
    while i < |dates| - 1
      invariant 0 <= i && (i <= |dates| - 1 || i == 0)
      invariant m.Content() == Plus(base, Family(AdjacentAt(q, e, dates), Interval(0, i)))
    {
      AddAdjacentPair(q, m, worked, e, dates[i], dates[i + 1]);
      GrowRange(base, AdjacentAt(q, e, dates), 0, i);
      i := i + 1;
    }
    assert Interval(0, i) == Interval(0, |dates| - 1);
  }

  method AddAdjacent(q: Request, m: ModelBuilder, worked: map<(Employee, int), Var>)
    requires WorkedIndex(q, worked)
    modifies m
    ensures m.Content() == Plus(old(m.Content()), AdjacentFamily(q))
  {
    ghost var base := m.Content();
    PlusEmpty(base);
    for i := 0 to |q.employees|
      invariant m.Content() == Plus(base, Family(AdjacentUnit(q), q.employees[..i]))
    {
      AddAdjacentOf(q, m, worked, q.employees[i]);
      TakeNext(q.employees, i);
      Grow(base, AdjacentUnit(q), q.employees[..i], q.employees[i]);
    }
    assert q.employees[..|q.employees|] == q.employees;
  }

  // ----- the whole model -----

  lemma FivePosted(base: CpModel, a: CpModel, b: CpModel, c: CpModel, d: CpModel, e: CpModel)
    ensures Plus(Plus(Plus(Plus(Plus(base, a), b), c), d), e) == Plus(base, Family(Same(), [a, b, c, d, e]))
  {
    PlusEmpty(base);
    Grow(base, Same(), [], a);
    assert [] + [a] == [a];
    Grow(base, Same(), [a], b);
    assert [a] + [b] == [a, b];
    Grow(base, Same(), [a, b], c);
    assert [a, b] + [c] == [a, b, c];
    Grow(base, Same(), [a, b, c], d);
    assert [a, b, c] + [d] == [a, b, c, d];
    Grow(base, Same(), [a, b, c, d], e);
    assert [a, b, c, d] + [e] == [a, b, c, d, e];
  }

  method PostStaffingPart(q: Request, m: ModelBuilder) returns (choices: seq<Choice>, index: Index)
    modifies m
    ensures m.Content() == Plus(old(m.Content()), StaffingPart(q))
    ensures choices == Choosable(q) && Filed(q, choices, index)
  {
    ghost var base := m.Content();
    choices, index := AddChoices(q, m);
    AddUnfilled(q, m, index.byRequirement);
    AddStaffing(q, m, index.bySlot);
    AddOneRole(q, m, index.byEmployeeSlot);
    AddBlocked(q, m, index.byIdSlot);
    FivePosted(base, ChoiceFamily(q), UnfilledFamily(q), StaffingFamily(q), OneRoleFamily(q), BlockedFamily(q));
  }

  method PostLimitPart(q: Request, m: ModelBuilder, index: Index)
    requires Filed(q, Choosable(q), index)
    modifies m
    ensures m.Content() == Plus(old(m.Content()), LimitPart(q))
  {
    ghost var base := m.Content();
    AddAvoid(q, m, index.byIdSlot);
    AddWeekly(q, m, index.byWeek);
    AddMonthly(q, m, index.byWeekend, WeekendChoices(q), q.weekendShiftLimitPerMonth);
    AddMonthly(q, m, index.byNight, NightChoices(q), q.nightShiftLimitPerMonth);
    AddRotation(q, m);
    FivePosted(base, AvoidFamily(q), WeeklyFamily(q), WeekendFamily(q), NightFamily(q), RotationFamily(q));
  }

  method PostDayPart(q: Request, m: ModelBuilder, choices: seq<Choice>, index: Index)
    requires choices == Choosable(q) && Filed(q, choices, index)
    modifies m
    ensures m.Content() == Plus(old(m.Content()), DayPart(q))
  {
    ghost var base := m.Content();
    AddFairness(q, m, choices);
    var worked := AddWorked(q, m, index.byDate);
    AddStreaks(q, m, worked);
    AddRest(q, m, index.byEmployeeSlot);
    AddAdjacent(q, m, worked);
    FivePosted(base, FairnessFamily(q), WorkedFamily(q), StreakFamily(q), RestFamily(q), AdjacentFamily(q));
  }

  /** The builder posts exactly the encoding of the request. */
  method BuildModel(q: Request) returns (model: CpModel, choices: seq<Choice>)
    ensures model == Encoded(q)
    ensures choices == Choosable(q)
  {
    var m := new ModelBuilder();
    var index;
    PlusEmpty(StaffingPart(q));
    choices, index := PostStaffingPart(q, m);
    PostLimitPart(q, m, index);
    PostDayPart(q, m, choices, index);
    model := m.Content();
  }
}
