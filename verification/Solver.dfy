/** The scheduler from request to result: sort the input, build the model, ask the
    engine, and read a schedule and its shortfalls back. */
module Solver {
  import opened Options
  import opened Sequences
  import opened Sorting
  import opened LinearModel
  import opened Scheduling
  import opened Costs
  import opened Encoding
  import opened Reading
  import opened ReadingDates
  import opened Exactness
  import opened ObjectiveReading
  import opened Builder

  // ----- canonical order -----

  function EmployeeLeq(): (Employee, Employee) -> bool { (d: Employee, e: Employee) => d.id <= e.id }

  function RequirementLeq(slots: seq<Slot>): (Requirement, Requirement) -> bool
  {
    (r: Requirement, t: Requirement) =>
      var i, j := SlotPosition(slots, r.slotId), SlotPosition(slots, t.slotId);
      i < j || (i == j && (r.roleId < t.roleId || (r.roleId == t.roleId && r.id <= t.id)))
  }

  function Canonical(q: Request): Request
  {
    var slots := SortBy(SlotLeq(), q.slots);
    q.(employees := SortBy(EmployeeLeq(), q.employees),
       slots := slots,
       requirements := SortBy(RequirementLeq(slots), q.requirements))
  }

  ghost predicate UniqueBy<T>(id: T -> Id, xs: seq<T>)
  {
    forall i, j :: 0 <= i < j < |xs| ==> id(xs[i]) != id(xs[j])
  }

  lemma RearrangedIsUnique<T>(id: T -> Id, a: seq<T>, b: seq<T>)
    requires UniqueBy(id, a) && multiset(a) == multiset(b)
    ensures UniqueBy(id, b)
  {
    SameMembers(a, b);
    assert NoDuplicates(a);
    RearrangedDistinct(a, b);
    forall i, j | 0 <= i < j < |b| ensures id(b[i]) != id(b[j]) {
      assert b[i] in a && b[j] in a && b[i] != b[j];
    }
  }

  /** The same request up to the order of its employees, slots and requirements. */
  ghost predicate SameContents(q: Request, p: Request)
  {
    && multiset(q.employees) == multiset(p.employees)
    && multiset(q.slots) == multiset(p.slots)
    && multiset(q.requirements) == multiset(p.requirements)
    && p == q.(employees := p.employees, slots := p.slots, requirements := p.requirements)
  }

  function SlotId(): Slot -> Id { (t: Slot) => t.id }
  function EmployeeId(): Employee -> Id { (e: Employee) => e.id }
  function RequirementId(): Requirement -> Id { (r: Requirement) => r.id }

  lemma WellFormedAnyOrder(q: Request, p: Request)
    requires WellFormed(q) && SameContents(q, p)
    ensures WellFormed(p)
  {
    RearrangedIsUnique(EmployeeId(), q.employees, p.employees);
    RearrangedIsUnique(SlotId(), q.slots, p.slots);
    RearrangedIsUnique(RequirementId(), q.requirements, p.requirements);
    forall i, j | 0 <= i < j < |p.slots| ensures p.slots[i].id != p.slots[j].id {
      assert SlotId()(p.slots[i]) != SlotId()(p.slots[j]);
    }
    forall i, j | 0 <= i < j < |p.employees| ensures p.employees[i].id != p.employees[j].id {
      assert EmployeeId()(p.employees[i]) != EmployeeId()(p.employees[j]);
    }
    forall i, j | 0 <= i < j < |p.requirements| ensures p.requirements[i].id != p.requirements[j].id {
      assert RequirementId()(p.requirements[i]) != RequirementId()(p.requirements[j]);
    }
    SameMembers(q.slots, p.slots);
    SameMembers(q.requirements, p.requirements);
  }

  lemma CanonicalIsOrdered(q: Request)
    requires WellFormed(q)
    ensures SameContents(q, Canonical(q))
    ensures WellFormed(Canonical(q)) && SlotsInOrder(Canonical(q))
  {
    var p := Canonical(q);
    SortPermutes(SlotLeq(), q.slots);
    SortPermutes(EmployeeLeq(), q.employees);
    SortPermutes(RequirementLeq(p.slots), q.requirements);
    WellFormedAnyOrder(q, p);
    SortOrdered(SlotLeq(), q.slots);
    forall i, j | 0 <= i < j < |p.slots| ensures SlotBefore(p.slots[i], p.slots[j]) {
      assert SlotLeq()(p.slots[i], p.slots[j]);
    }
  }

  // ----- the rules do not depend on the order -----

  lemma {:induction false} FindSlotMissing(slots: seq<Slot>, id: Id)
    requires forall t :: t in slots ==> t.id != id
    ensures FindSlot(slots, id) == Slot(id, 0, 0, None, None, false, false)
  {
    if slots != [] {
      assert slots[0] in slots;
      FindSlotMissing(slots[1..], id);
    }
  }

  lemma SameSlotOf(q: Request, p: Request, id: Id)
    requires WellFormed(q) && WellFormed(p) && SameContents(q, p)
    ensures FindSlot(q.slots, id) == FindSlot(p.slots, id)
  {
    SameMembers(q.slots, p.slots);
    if t :| t in q.slots && t.id == id {
      FindSlotFinds(q.slots, t);
      FindSlotFinds(p.slots, t);
    } else {
      FindSlotMissing(q.slots, id);
      FindSlotMissing(p.slots, id);
    }
  }

  lemma SameViews(q: Request, p: Request, s: Schedule)
    requires WellFormed(q) && WellFormed(p) && SameContents(q, p)
    ensures forall c :: SlotOf(q, c) == SlotOf(p, c)
    ensures forall c :: CanChoose(q, c) <==> CanChoose(p, c)
    ensures forall e, w :: ShiftsInWeek(q, s, e, w) == ShiftsInWeek(p, s, e, w)
    ensures forall e, m :: WeekendShifts(q, s, e, m) == WeekendShifts(p, s, e, m)
    ensures forall e, m :: NightShifts(q, s, e, m) == NightShifts(p, s, e, m)
    ensures forall e :: WorkDates(q, s, e) == WorkDates(p, s, e)
  {
    SameMembers(q.employees, p.employees);
    SameMembers(q.requirements, p.requirements);
    forall c ensures SlotOf(q, c) == SlotOf(p, c) {
      SameSlotOf(q, p, c.req.slotId);
    }
  }

  lemma LegalIn(q: Request, p: Request, s: Schedule)
    requires WellFormed(q) && WellFormed(p) && SameContents(q, p)
    ensures Legal(q, s) ==> Legal(p, s)
  {
    SameViews(q, p, s);
    SameMembers(q.employees, p.employees);
    SameMembers(q.slots, p.slots);
    SameMembers(q.requirements, p.requirements);
    if Legal(q, s) {
      forall e, first, limit ensures ExceedsStreak(p, s, e, first, limit) ==> ExceedsStreak(q, s, e, first, limit) {}
      assert WithinStreakLimit(p, s);
      assert WithinWeeklyCaps(p, s);
    }
  }

  /** Whether a schedule is legal does not depend on the order of the request's lists. */
  lemma LegalAnyOrder(q: Request, p: Request, s: Schedule)
    requires WellFormed(q) && WellFormed(p) && SameContents(q, p)
    ensures Legal(q, s) <==> Legal(p, s)
  {
    LegalIn(q, p, s);
    LegalIn(p, q, s);
  }

  // ----- the engine -----

  datatype Answer =
    | Infeasible
    | Unknown
    | FeasibleWith(val: Valuation)
    | OptimalWith(val: Valuation)

  /** What the engine promises about its answers. */
  ghost predicate Sound(model: CpModel, answer: Answer)
  {
    match answer
    case Infeasible => forall val :: !Satisfies(val, model)
    case Unknown => true
    case FeasibleWith(val) => Satisfies(val, model)
    case OptimalWith(val) =>
      && Satisfies(val, model)
      && forall other :: Satisfies(other, model) ==> Objective(val, model) <= Objective(other, model)
  }

  // ----- reading the result back -----

  datatype Assignment = Assignment(slotId: Id, roleId: Id, employeeId: Id, requirementId: Id)

  datatype Issue = Issue(requirementId: Id, slotId: Id, roleId: Id, missingCount: int)

  datatype Status = Succeeded | StatusInfeasible | Failed

  datatype SolverStatus = CpSatOptimal | CpSatFeasible | CpSatInfeasible | CpSatUnknown

  datatype Quality = QualityOptimal | FeasibleNotProvenOptimal | QualityInfeasible | QualityUnknown

  datatype SolveResult = SolveResult(
    status: Status, solverStatus: SolverStatus, quality: Quality,
    assignments: seq<Assignment>, issues: seq<Issue>)

  function ToAssignment(c: Choice): Assignment
  {
    Assignment(c.req.slotId, c.req.roleId, c.emp.id, c.req.id)
  }

  function ChoiceLeq(): (Choice, Choice) -> bool
  {
    (c: Choice, d: Choice) => c.req.id < d.req.id || (c.req.id == d.req.id && c.emp.id <= d.emp.id)
  }

  function AssignmentLeq(): (Assignment, Assignment) -> bool
  {
    (a: Assignment, b: Assignment) =>
      a.slotId < b.slotId
      || (a.slotId == b.slotId && (a.roleId < b.roleId || (a.roleId == b.roleId && a.employeeId <= b.employeeId)))
  }

  /** The listed assignments are those of the schedule, each once, ordered by slot, role
      and employee. */
  ghost predicate ListsAssignments(s: Schedule, assignments: seq<Assignment>)
  {
    && (forall a :: a in assignments <==> exists c :: c in s && ToAssignment(c) == a)
    && NoDuplicates(assignments)
    && Ordered(AssignmentLeq(), assignments)
  }

  /** The listed issues are the requirements left short, each once, with what is missing. */
  ghost predicate ListsIssues(q: Request, s: Schedule, issues: seq<Issue>)
  {
    && (forall i :: i in issues <==> exists r :: r in q.requirements && ShortBy(s, r, i))
    && NoDuplicates(issues)
  }

  ghost function IssueOf(s: Schedule, r: Requirement): seq<Issue>
  {
    var missing := r.requiredCount - |Filling(s, r)|;
    if missing > 0 then [Issue(r.id, r.slotId, r.roleId, missing)] else []
  }

  /** The issues of a list of requirements, in its order. */
  ghost function IssuesOf(requirements: seq<Requirement>, s: Schedule): seq<Issue>
  {
    if requirements == [] then []
    else
      var n := |requirements| - 1;
      IssuesOf(requirements[..n], s) + IssueOf(s, requirements[n])
  }

  ghost predicate ShortBy(s: Schedule, r: Requirement, i: Issue)
  {
    var missing := r.requiredCount - |Filling(s, r)|;
    missing > 0 && i == Issue(r.id, r.slotId, r.roleId, missing)
  }

  ghost predicate AssignedFrom(choices: seq<Choice>, val: Valuation, assignments: seq<Assignment>)
  {
    forall a :: a in assignments <==> exists c :: c in choices && val(Assign(c)) == 1 && ToAssignment(c) == a
  }

  lemma ChoiceIsItsIds(q: Request, c: Choice, d: Choice)
    requires WellFormed(q) && CanChoose(q, c) && CanChoose(q, d) && ToAssignment(c) == ToAssignment(d)
    ensures c == d
  {
    var i :| 0 <= i < |q.employees| && q.employees[i] == c.emp;
    var j :| 0 <= j < |q.employees| && q.employees[j] == d.emp;
    var k :| 0 <= k < |q.requirements| && q.requirements[k] == c.req;
    var l :| 0 <= l < |q.requirements| && q.requirements[l] == d.req;
  }

  method ExtractAssignments(q: Request, choices: seq<Choice>, val: Valuation) returns (assignments: seq<Assignment>)
    requires WellFormed(q) && choices == Choosable(q)
    ensures ListsAssignments(Chosen(q, val), assignments)
  {
    var sorted := SortBy(ChoiceLeq(), choices);
    SortPermutes(ChoiceLeq(), choices);
    SameMembers(choices, sorted);
    ChoosableMembers(q);
    ChoosableDistinct(q);
    SortedChoicesDistinct(choices);
    assignments := [];
    for i := 0 to |sorted|
      invariant AssignedFrom(sorted[..i], val, assignments)
      invariant NoDuplicates(assignments)
    {
      TakeNext(sorted, i);
      if val(Assign(sorted[i])) == 1 {
        NewAssignment(q, sorted, val, assignments, i);
        assignments := assignments + [ToAssignment(sorted[i])];
      }
    }
    assert sorted[..|sorted|] == sorted;
    SortedAssignments(assignments);
    assignments := SortBy(AssignmentLeq(), assignments);
  }

  lemma SortedAssignments(assignments: seq<Assignment>)
    requires NoDuplicates(assignments)
    ensures
      var sorted := SortBy(AssignmentLeq(), assignments);
      && NoDuplicates(sorted) && Ordered(AssignmentLeq(), sorted)
      && forall a :: a in sorted <==> a in assignments
  {
    assert TotalPreorder(AssignmentLeq());
    SortPermutes(AssignmentLeq(), assignments);
    SortOrdered(AssignmentLeq(), assignments);
    SameMembers(assignments, SortBy(AssignmentLeq(), assignments));
    RearrangedDistinct(assignments, SortBy(AssignmentLeq(), assignments));
  }

  lemma NewAssignment(q: Request, sorted: seq<Choice>, val: Valuation, assignments: seq<Assignment>, i: nat)
    requires WellFormed(q) && (forall c :: c in sorted ==> CanChoose(q, c)) && NoDuplicates(sorted)
    requires i < |sorted| && AssignedFrom(sorted[..i], val, assignments)
    ensures ToAssignment(sorted[i]) !in assignments
  {
    if ToAssignment(sorted[i]) in assignments {
      var c :| c in sorted[..i] && val(Assign(c)) == 1 && ToAssignment(c) == ToAssignment(sorted[i]);
      ChoiceIsItsIds(q, c, sorted[i]);
      assert false;
    }
  }

  lemma SortedChoicesDistinct(choices: seq<Choice>)
    requires NoDuplicates(choices)
    ensures NoDuplicates(SortBy(ChoiceLeq(), choices))
  {
    SortPermutes(ChoiceLeq(), choices);
    RearrangedDistinct(choices, SortBy(ChoiceLeq(), choices));
  }

  ghost predicate IssuesFrom(requirements: seq<Requirement>, s: Schedule, issues: seq<Issue>)
  {
    && (forall i :: i in issues <==> exists r :: r in requirements && ShortBy(s, r, i))
    && NoDuplicates(issues)
  }

  lemma IssuesStep(requirements: seq<Requirement>, s: Schedule, issues: seq<Issue>, r: Requirement, next: Issue)
    requires IssuesFrom(requirements, s, issues)
    requires forall t :: t in requirements ==> t.id != r.id
    requires ShortBy(s, r, next)
    ensures IssuesFrom(requirements + [r], s, issues + [next])
  {
    forall i ensures i in issues + [next] <==> exists t :: t in requirements + [r] && ShortBy(s, t, i) {
      if i in issues {
        var t :| t in requirements && ShortBy(s, t, i);
        assert t in requirements + [r];
      } else if i == next {
        assert r in requirements + [r];
      }
    }
    assert forall t :: t in requirements ==> !ShortBy(s, t, next);
    assert next !in issues;
    assert forall k :: 0 <= k < |issues| ==> issues[k] in issues && issues[k] != next;
  }

  lemma NoIssueStep(requirements: seq<Requirement>, s: Schedule, issues: seq<Issue>, r: Requirement)
    requires IssuesFrom(requirements, s, issues)
    requires r.requiredCount - |Filling(s, r)| <= 0
    ensures IssuesFrom(requirements + [r], s, issues)
  {
    forall i ensures i in issues <==> exists t :: t in requirements + [r] && ShortBy(s, t, i) {
      if i in issues {
        var t :| t in requirements && ShortBy(s, t, i);
        assert t in requirements + [r];
      }
    }
  }

  /** A list of requirements with different ids has an issue for each that is short, once. */
  lemma {:induction false} IssuesOfAreThose(requirements: seq<Requirement>, s: Schedule)
    requires forall i, j :: 0 <= i < j < |requirements| ==> requirements[i].id != requirements[j].id
    ensures IssuesFrom(requirements, s, IssuesOf(requirements, s))
  {
    if requirements != [] {
      var n := |requirements| - 1;
      var front, r := requirements[..n], requirements[n];
      IssuesOfAreThose(front, s);
      assert requirements == front + [r];
      if r.requiredCount - |Filling(s, r)| > 0 {
        IssuesStep(front, s, IssuesOf(front, s), r, IssueOf(s, r)[0]);
      } else {
        NoIssueStep(front, s, IssuesOf(front, s), r);
        assert IssuesOf(front, s) + [] == IssuesOf(front, s);
      }
    }
  }

  lemma IssuesOfStep(requirements: seq<Requirement>, s: Schedule, k: nat)
    requires k < |requirements|
    ensures IssuesOf(requirements[..k + 1], s) == IssuesOf(requirements[..k], s) + IssueOf(s, requirements[k])
  {
    assert requirements[..k + 1][..k] == requirements[..k];
  }

  /** The unfilled variables say what is missing. */
  ghost predicate CountsMissing(q: Request, val: Valuation)
  {
    forall r :: r in q.requirements ==> r.requiredCount - |Filling(Chosen(q, val), r)| == val(Unfilled(r))
  }

  lemma SatisfyingCountsMissing(q: Request, val: Valuation)
    requires WellFormed(q) && Satisfies(val, Encoded(q))
    ensures CountsMissing(q, val)
  {
    forall r | r in q.requirements ensures r.requiredCount - |Filling(Chosen(q, val), r)| == val(Unfilled(r)) {
      FilledPlusMissing(q, val, r);
    }
  }

  method ExtractIssues(q: Request, val: Valuation) returns (issues: seq<Issue>)
    requires WellFormed(q) && CountsMissing(q, val)
    ensures ListsIssues(q, Chosen(q, val), issues)
    ensures issues == IssuesOf(q.requirements, Chosen(q, val))
  {
    ghost var s := Chosen(q, val);
    issues := [];
    for k := 0 to |q.requirements|
      invariant issues == IssuesOf(q.requirements[..k], s)
    {
      var r := q.requirements[k];
      var missingCount := val(Unfilled(r));
      IssuesOfStep(q.requirements, s, k);
      if missingCount > 0 {
        issues := issues + [Issue(r.id, r.slotId, r.roleId, missingCount)];
      }
    }
    assert q.requirements[..|q.requirements|] == q.requirements;
    IssuesOfAreThose(q.requirements, s);
  }

  // ----- the whole run -----

  /** A result that lists a schedule and its shortfalls. */
  ghost predicate Reports(q: Request, s: Schedule, result: SolveResult)
  {
    && Legal(q, s) && ListsAssignments(s, result.assignments) && ListsIssues(q, s, result.issues)
    && result.issues == IssuesOf(Canonical(q).requirements, s)
  }

  /** The answer of the engine for the model of a request. */
  ghost function AnswerFor(request: Request, solve: CpModel -> Answer): Answer
  {
    solve(Encoded(Canonical(request)))
  }

  method SolveSchedule(request: Request, solve: CpModel -> Answer) returns (result: SolveResult)
    requires WellFormed(request)
    requires forall model :: Sound(model, solve(model))
    ensures result.solverStatus == CpSatOptimal <==> AnswerFor(request, solve).OptimalWith?
    ensures result.solverStatus == CpSatFeasible <==> AnswerFor(request, solve).FeasibleWith?
    ensures result.solverStatus == CpSatInfeasible <==> AnswerFor(request, solve).Infeasible?
    ensures result.solverStatus in {CpSatOptimal, CpSatFeasible} <==> result.status == Succeeded
    ensures result.solverStatus == CpSatInfeasible <==> result.status == StatusInfeasible
    ensures result.quality ==
      match result.solverStatus
      case CpSatOptimal => QualityOptimal
      case CpSatFeasible => FeasibleNotProvenOptimal
      case CpSatInfeasible => QualityInfeasible
      case CpSatUnknown => QualityUnknown
    ensures LimitsAreNonNegative(request) && !AnswerFor(request, solve).Unknown? ==> result.status == Succeeded
    ensures result.status == StatusInfeasible ==> !LimitsAreNonNegative(request)
    ensures result.status != Succeeded ==> result.assignments == [] && result.issues == []
    ensures result.status == Succeeded ==>
      var s := Chosen(Canonical(request), AnswerFor(request, solve).val);
      Reports(request, s, result) && (result.solverStatus == CpSatOptimal ==> LeastCost(Canonical(request), s))
  {
    var q := Canonical(request);
    CanonicalIsOrdered(request);
    var model, choices := BuildModel(q);
    var answer := solve(model);
    if answer.Infeasible? {
      InfeasibleMeansNegativeLimit(request);
      return SolveResult(StatusInfeasible, CpSatInfeasible, QualityInfeasible, [], []);
    }
    if answer.Unknown? {
      return SolveResult(Failed, CpSatUnknown, QualityUnknown, [], []);
    }
    SatisfyingCountsMissing(q, answer.val);
    var assignments := ExtractAssignments(q, choices, answer.val);
    var issues := ExtractIssues(q, answer.val);
    result := SolveResult(
      Succeeded,
      if answer.OptimalWith? then CpSatOptimal else CpSatFeasible,
      if answer.OptimalWith? then QualityOptimal else FeasibleNotProvenOptimal,
      assignments, issues);
    ReportsChosen(request, answer.val, result);
    if answer.OptimalWith? {
      OptimalChoosesLeastCost(q, answer.val);
    }
  }

  /** The model that is built for a request, in whatever order its parts are listed, admits
      exactly the legal schedules of that request. */
  lemma CompiledIsExact(request: Request, s: Schedule)
    requires WellFormed(request)
    ensures (exists val :: Chooses(Canonical(request), val, s)) <==> Legal(request, s)
  {
    CanonicalIsOrdered(request);
    EncodingIsExact(Canonical(request), s);
    LegalAnyOrder(request, Canonical(request), s);
  }

  lemma InfeasibleMeansNegativeLimit(request: Request)
    requires WellFormed(request)
    requires forall val :: !Satisfies(val, Encoded(Canonical(request)))
    ensures !LimitsAreNonNegative(request)
  {
    var q := Canonical(request);
    CanonicalIsOrdered(request);
    InfeasibleOnlyByNegativeLimit(q);
    LegalScheduleExists(request);
    LegalScheduleExists(q);
    if LimitsAreNonNegative(request) {
      LegalAnyOrder(request, q, {});
      assert false;
    }
  }

  lemma ReportsChosen(request: Request, val: Valuation, result: SolveResult)
    requires WellFormed(request) && Satisfies(val, Encoded(Canonical(request)))
    requires ListsAssignments(Chosen(Canonical(request), val), result.assignments)
    requires ListsIssues(Canonical(request), Chosen(Canonical(request), val), result.issues)
    requires result.issues == IssuesOf(Canonical(request).requirements, Chosen(Canonical(request), val))
    ensures Reports(request, Chosen(Canonical(request), val), result)
  {
    var q := Canonical(request);
    CanonicalIsOrdered(request);
    ValuationIsLegal(q, val);
    LegalAnyOrder(request, q, Chosen(q, val));
    SameMembers(request.requirements, q.requirements);
  }

  // ----- conservation, read off the result -----

  ghost function AssignmentsTo(assignments: seq<Assignment>, requirementId: Id): set<Assignment>
  {
    set a | a in assignments && a.requirementId == requirementId
  }

  ghost function MissingFor(issues: seq<Issue>, requirementId: Id): set<Issue>
  {
    set i | i in issues && i.requirementId == requirementId
  }

  function AsAssignment(): Choice -> Assignment { (c: Choice) => ToAssignment(c) }

  ghost function Image<A, B>(f: A -> B, s: set<A>): set<B>
  {
    set x | x in s :: f(x)
  }

  lemma {:induction false} ImageCardinality<A, B>(f: A -> B, s: set<A>)
    requires forall x, y :: x in s && y in s && f(x) == f(y) ==> x == y
    ensures |Image(f, s)| == |s|
  {
    var image := Image(f, s);
    if s == {} {
      assert image == {};
    } else {
      var x :| x in s;
      ImageCardinality(f, s - {x});
      var rest := Image(f, s - {x});
      assert f(x) !in rest;
      assert image == rest + {f(x)};
    }
  }

  lemma InjectiveImage(q: Request, s: Schedule)
    requires WellFormed(q) && OnlyEligible(q, s)
    ensures |Image(AsAssignment(), s)| == |s|
  {
    forall c, d | c in s && d in s && AsAssignment()(c) == AsAssignment()(d) ensures c == d {
      ChoiceIsItsIds(q, c, d);
    }
    ImageCardinality(AsAssignment(), s);
  }

  /** In every reported result, a requirement's assignments and its reported missing count
      add up to the number it asks for; a filled requirement has no issue. */
  lemma ResultConserves(q: Request, s: Schedule, result: SolveResult, r: Requirement)
    requires WellFormed(q) && Reports(q, s, result) && r in q.requirements
    ensures |AssignmentsTo(result.assignments, r.id)| <= r.requiredCount
    ensures MissingFor(result.issues, r.id) ==
      if |AssignmentsTo(result.assignments, r.id)| == r.requiredCount then {}
      else {Issue(r.id, r.slotId, r.roleId, r.requiredCount - |AssignmentsTo(result.assignments, r.id)|)}
  {
    AssignmentsCount(q, s, result, r);
    IssuesAbout(q, s, result, r);
  }

  lemma AssignmentsCount(q: Request, s: Schedule, result: SolveResult, r: Requirement)
    requires WellFormed(q) && Reports(q, s, result) && r in q.requirements
    ensures |AssignmentsTo(result.assignments, r.id)| == |Filling(s, r)|
  {
    var mine := Filling(s, r);
    InjectiveImage(q, mine);
    forall c | c in s && c.req.id == r.id ensures c in mine {
      SameRequirement(q, c.req, r);
    }
    assert AssignmentsTo(result.assignments, r.id) == Image(AsAssignment(), mine);
  }

  lemma IssuesAbout(q: Request, s: Schedule, result: SolveResult, r: Requirement)
    requires WellFormed(q) && Reports(q, s, result) && r in q.requirements
    ensures MissingFor(result.issues, r.id) == set i | i in IssueOf(s, r)
  {
    forall i | i in result.issues && i.requirementId == r.id ensures ShortBy(s, r, i) {
      var t :| t in q.requirements && ShortBy(s, t, i);
      SameRequirement(q, t, r);
    }
    forall i | ShortBy(s, r, i) ensures i in result.issues {}
    forall i ensures i in IssueOf(s, r) <==> ShortBy(s, r, i) {}
  }

  lemma SameRequirement(q: Request, r: Requirement, t: Requirement)
    requires WellFormed(q) && r in q.requirements && t in q.requirements && r.id == t.id
    ensures r == t
  {
    var i :| 0 <= i < |q.requirements| && q.requirements[i] == r;
    var j :| 0 <= j < |q.requirements| && q.requirements[j] == t;
  }
}
