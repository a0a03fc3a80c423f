/** The compliance scans: weekly hours, minimum rest, night and weekend work, consecutive
    nights. Times are integer seconds in one timezone; second 0 starts day 0. */
module Compliance {
  import opened Options
  import opened Sequences
  import opened Sorting
  import opened Scheduling

  const SECONDS_PER_DAY := 86400

  const SECONDS_PER_HOUR := 3600

  datatype Assignment = Assignment(
    employeeId: Id,
    employeeName: Id,
    slotId: Id,
    localDate: int,
    shiftLabel: string,
    startsAt: int,
    endsAt: int)

  datatype Code =
    | WeeklyHoursOver52 | MinRestUnderPolicy | NightWorkReview | WeekendOrHolidayReview
    | ConsecutiveNightShiftsReview

  datatype Severity = Blocking | Caution | Info

  /** `seconds` stands for the hours a warning reports. */
  datatype Warning = Warning(
    code: Code,
    severity: Severity,
    publishBlocking: bool,
    employeeId: Id,
    employeeName: Id,
    slotId: Option<Id>,
    weekKey: Option<int>,
    seconds: Option<int>)

  function DayOf(t: int): int { t / SECONDS_PER_DAY }

  function HourOf(t: int): int { t % SECONDS_PER_DAY / SECONDS_PER_HOUR }

  /** The label of a night shift contains this word. */
  const NIGHT_WORD := "\U{c57c}\U{ac04}"

  predicate Mentions(text: string, word: string)
  {
    |word| <= |text| && (text[..|word|] == word || (text != "" && Mentions(text[1..], word)))
  }

  predicate IsNight(a: Assignment)
  {
    Mentions(a.shiftLabel, NIGHT_WORD) || HourOf(a.startsAt) >= 22 || HourOf(a.startsAt) < 6
  }

  predicate OnWeekend(a: Assignment) { (DayOf(a.startsAt) - 1) % 7 >= 5 }

  // ----- the warnings -----

  function WeeklyWarning(employeeId: Id, name: Id, week: int, seconds: int): Warning
  {
    Warning(WeeklyHoursOver52, Blocking, true, employeeId, name, None, Some(week), Some(seconds))
  }

  function RestWarning(previous: Assignment, current: Assignment): Warning
  {
    Warning(MinRestUnderPolicy, Caution, false, current.employeeId, current.employeeName, Some(current.slotId), None,
            Some(current.startsAt - previous.endsAt))
  }

  function NightWarning(a: Assignment): Warning
  {
    Warning(NightWorkReview, Info, false, a.employeeId, a.employeeName, Some(a.slotId), None, None)
  }

  function WeekendWarning(a: Assignment): Warning
  {
    Warning(WeekendOrHolidayReview, Info, false, a.employeeId, a.employeeName, Some(a.slotId), None, None)
  }

  function ConsecutiveWarning(current: Assignment): Warning
  {
    Warning(ConsecutiveNightShiftsReview, Caution, false, current.employeeId, current.employeeName,
            Some(current.slotId), None, None)
  }

  // ----- what each scan lists, in order -----

  ghost function EmployeeIdOf(): Assignment -> Id { (a: Assignment) => a.employeeId }

  ghost function OfEmployee(e: Id): Assignment -> bool { (a: Assignment) => a.employeeId == e }

  ghost function AtNight(): Assignment -> bool { (a: Assignment) => IsNight(a) }

  function StartLeq(): (Assignment, Assignment) -> bool
  {
    (a: Assignment, b: Assignment) => a.startsAt <= b.startsAt
  }

  ghost function Employees(xs: seq<Assignment>): seq<Id> { Dedup(Map(EmployeeIdOf(), xs)) }

  ghost function Mine(xs: seq<Assignment>, e: Id): seq<Assignment> { Filter(OfEmployee(e), xs) }

  ghost function InStartOrder(xs: seq<Assignment>, e: Id): seq<Assignment> { SortBy(StartLeq(), Mine(xs, e)) }

  /** What to say, if anything, about two neighbouring shifts. */
  type Judge = (Assignment, Assignment) -> Option<Warning>

  function RestJudge(minRestHours: int): Judge
  {
    (a: Assignment, b: Assignment) =>
      if b.startsAt - a.endsAt < SECONDS_PER_HOUR * minRestHours then Some(RestWarning(a, b)) else None
  }

  function NightJudge(): Judge
  {
    (a: Assignment, b: Assignment) =>
      if DayOf(b.startsAt) - DayOf(a.startsAt) == 1 then Some(ConsecutiveWarning(b)) else None
  }

  function Listed(w: Option<Warning>): seq<Warning> { if w.Some? then [w.value] else [] }

  ghost function Neighbours(judge: Judge, sorted: seq<Assignment>): seq<Warning>
  {
    if |sorted| < 2 then []
    else
      var n := |sorted| - 1;
      Neighbours(judge, sorted[..n]) + Listed(judge(sorted[n - 1], sorted[n]))
  }

  ghost function ByEmployee(judge: Judge, xs: seq<Assignment>, employees: seq<Id>): seq<Warning>
  {
    if employees == [] then []
    else
      var n := |employees| - 1;
      ByEmployee(judge, xs, employees[..n]) + Neighbours(judge, InStartOrder(xs, employees[n]))
  }

  ghost function RestScan(xs: seq<Assignment>, minRestHours: int): seq<Warning>
  {
    ByEmployee(RestJudge(minRestHours), xs, Employees(xs))
  }

  ghost function ConsecutiveScan(xs: seq<Assignment>): seq<Warning>
  {
    ByEmployee(NightJudge(), Filter(AtNight(), xs), Employees(Filter(AtNight(), xs)))
  }

  function ReviewsOf(a: Assignment): seq<Warning>
  {
    (if IsNight(a) then [NightWarning(a)] else []) + (if OnWeekend(a) then [WeekendWarning(a)] else [])
  }

  ghost function ReviewScan(xs: seq<Assignment>): seq<Warning>
  {
    if xs == [] then [] else ReviewScan(xs[..|xs| - 1]) + ReviewsOf(xs[|xs| - 1])
  }

  // weekly hours

  function WeekOf(a: Assignment): int { WeekKey(DayOf(a.startsAt)) }

  ghost function EmployeeWeekOf(): Assignment -> (Id, int) { (a: Assignment) => (a.employeeId, WeekOf(a)) }

  ghost function SecondsIn(k: (Id, int)): Assignment -> int
  {
    (a: Assignment) => if (a.employeeId, WeekOf(a)) == k then a.endsAt - a.startsAt else 0
  }

  ghost function Total(xs: seq<Assignment>, k: (Id, int)): int { Sum(SecondsIn(k), xs) }

  ghost function Weeks(xs: seq<Assignment>): seq<(Id, int)> { Dedup(Map(EmployeeWeekOf(), xs)) }

  /** The name in the last row of an employee. */
  ghost function LastName(xs: seq<Assignment>, e: Id): Id
  {
    if xs == [] then 0
    else if xs[|xs| - 1].employeeId == e then xs[|xs| - 1].employeeName
    else LastName(xs[..|xs| - 1], e)
  }

  const WEEKLY_LIMIT := 52 * SECONDS_PER_HOUR

  ghost function WeeklyOver(xs: seq<Assignment>, k: (Id, int)): seq<Warning>
  {
    if Total(xs, k) > WEEKLY_LIMIT then [WeeklyWarning(k.0, LastName(xs, k.0), k.1, Total(xs, k))] else []
  }

  ghost function WeeklyFor(xs: seq<Assignment>, weeks: seq<(Id, int)>): seq<Warning>
  {
    if weeks == [] then [] else WeeklyFor(xs, weeks[..|weeks| - 1]) + WeeklyOver(xs, weeks[|weeks| - 1])
  }

  ghost function WeeklyScan(xs: seq<Assignment>): seq<Warning> { WeeklyFor(xs, Weeks(xs)) }

  ghost function Evaluation(xs: seq<Assignment>, minRestHours: int): seq<Warning>
  {
    WeeklyScan(xs) + RestScan(xs, minRestHours) + ReviewScan(xs) + ConsecutiveScan(xs)
  }

  // ----- the loops -----

  ghost predicate Grouped(xs: seq<Assignment>, keys: seq<Id>, groups: map<Id, seq<Assignment>>)
  {
    && keys == Employees(xs)
    && (forall e :: e in keys <==> e in groups)
    && (forall e :: Mine(xs, e) == if e in groups then groups[e] else [])
  }

  lemma GroupedStep(xs: seq<Assignment>, keys: seq<Id>, groups: map<Id, seq<Assignment>>, a: Assignment)
    requires Grouped(xs, keys, groups)
    ensures
      var e := a.employeeId;
      Grouped(xs + [a], if e in groups then keys else keys + [e],
              groups[e := (if e in groups then groups[e] else []) + [a]])
  {
    MapStep(EmployeeIdOf(), xs, a);
    DedupStep(Map(EmployeeIdOf(), xs), a.employeeId);
    forall e ensures Mine(xs + [a], e) == Mine(xs, e) + if e == a.employeeId then [a] else [] {
      FilterStep(OfEmployee(e), xs, a);
      assert e != a.employeeId ==> Mine(xs, e) + [] == Mine(xs, e);
    }
    forall e | e != a.employeeId ensures Mine(xs + [a], e) == Mine(xs, e) {
      assert Mine(xs, e) + [] == Mine(xs, e);
    }
  }

  lemma GroupedAt(xs: seq<Assignment>, keys: seq<Id>, groups: map<Id, seq<Assignment>>, k: nat)
    requires Grouped(xs, keys, groups) && k < |keys|
    ensures keys[k] in groups && groups[keys[k]] == Mine(xs, keys[k])
  {
    var e := keys[k];
    assert e in keys;
  }

  method GroupByEmployee(assignments: seq<Assignment>) returns (keys: seq<Id>, groups: map<Id, seq<Assignment>>)
    ensures Grouped(assignments, keys, groups)
  {
    keys, groups := [], map[];
    for i := 0 to |assignments|
      invariant Grouped(assignments[..i], keys, groups)
    {
      var a := assignments[i];
      TakeNext(assignments, i);
      GroupedStep(assignments[..i], keys, groups, a);
      if a.employeeId in groups {
        groups := groups[a.employeeId := groups[a.employeeId] + [a]];
      } else {
        keys, groups := keys + [a.employeeId], groups[a.employeeId := [] + [a]];
      }
    }
    assert assignments[..|assignments|] == assignments;
  }

  lemma NeighboursStep(judge: Judge, sorted: seq<Assignment>, i: nat)
    requires 0 < i < |sorted|
    ensures Neighbours(judge, sorted[..i + 1])
      == Neighbours(judge, sorted[..i]) + Listed(judge(sorted[i - 1], sorted[i]))
  {
    assert sorted[..i + 1][..i] == sorted[..i];
  }

  lemma ByEmployeeStep(judge: Judge, xs: seq<Assignment>, employees: seq<Id>, i: nat)
    requires i < |employees|
    ensures ByEmployee(judge, xs, employees[..i + 1])
      == ByEmployee(judge, xs, employees[..i]) + Neighbours(judge, InStartOrder(xs, employees[i]))
  {
    assert employees[..i + 1][..i] == employees[..i];
  }

  /** The neighbours of one employee's shifts in start order. */
  method ShortRests(sorted: seq<Assignment>, minRestHours: int) returns (warnings: seq<Warning>)
    ensures warnings == Neighbours(RestJudge(minRestHours), sorted)
  {
    warnings := [];
    var i := 1;
    while i < |sorted|
      invariant 1 <= i && (sorted != [] ==> i <= |sorted|)
      invariant warnings == Neighbours(RestJudge(minRestHours), if i <= |sorted| then sorted[..i] else sorted)
    {
      var previous, current := sorted[i - 1], sorted[i];
      NeighboursStep(RestJudge(minRestHours), sorted, i);
      var rest := current.startsAt - previous.endsAt;
      if rest < SECONDS_PER_HOUR * minRestHours {
        warnings := warnings + [RestWarning(previous, current)];
      }
      i := i + 1;
    }
    assert i <= |sorted| ==> sorted[..i] == sorted;
  }

  method MinimumRestWarnings(assignments: seq<Assignment>, minRestHours: int) returns (warnings: seq<Warning>)
    ensures warnings == RestScan(assignments, minRestHours)
  {
    warnings := [];
    var employees, groups := GroupByEmployee(assignments);
    for k := 0 to |employees|
      invariant warnings == ByEmployee(RestJudge(minRestHours), assignments, employees[..k])
    {
      GroupedAt(assignments, employees, groups, k);
      ByEmployeeStep(RestJudge(minRestHours), assignments, employees, k);
      var found := ShortRests(SortBy(StartLeq(), groups[employees[k]]), minRestHours);
      warnings := warnings + found;
    }
    assert employees[..|employees|] == employees;
  }

  method NightAssignments(assignments: seq<Assignment>) returns (nights: seq<Assignment>)
    ensures nights == Filter(AtNight(), assignments)
  {
    nights := [];
    for i := 0 to |assignments|
      invariant nights == Filter(AtNight(), assignments[..i])
    {
      TakeNext(assignments, i);
      FilterStep(AtNight(), assignments[..i], assignments[i]);
      if IsNight(assignments[i]) {
        nights := nights + [assignments[i]];
      } else {
        assert nights + [] == nights;
      }
    }
    assert assignments[..|assignments|] == assignments;
  }

  method NightsInARow(sorted: seq<Assignment>) returns (warnings: seq<Warning>)
    ensures warnings == Neighbours(NightJudge(), sorted)
  {
    warnings := [];
    var i := 1;
    while i < |sorted|
      invariant 1 <= i && (sorted != [] ==> i <= |sorted|)
      invariant warnings == Neighbours(NightJudge(), if i <= |sorted| then sorted[..i] else sorted)
    {
      var previous, current := sorted[i - 1], sorted[i];
      NeighboursStep(NightJudge(), sorted, i);
      if DayOf(current.startsAt) - DayOf(previous.startsAt) == 1 {
        warnings := warnings + [ConsecutiveWarning(current)];
      }
      i := i + 1;
    }
    assert i <= |sorted| ==> sorted[..i] == sorted;
  }

  method ConsecutiveNightWarnings(assignments: seq<Assignment>) returns (warnings: seq<Warning>)
    ensures warnings == ConsecutiveScan(assignments)
  {
    warnings := [];
    var nights := NightAssignments(assignments);
    var employees, groups := GroupByEmployee(nights);
    for k := 0 to |employees|
      invariant warnings == ByEmployee(NightJudge(), nights, employees[..k])
    {
      GroupedAt(nights, employees, groups, k);
      ByEmployeeStep(NightJudge(), nights, employees, k);
      var found := NightsInARow(SortBy(StartLeq(), groups[employees[k]]));
      warnings := warnings + found;
    }
    assert employees[..|employees|] == employees;
  }

  method NightAndWeekendWarnings(assignments: seq<Assignment>) returns (warnings: seq<Warning>)
    ensures warnings == ReviewScan(assignments)
  {
    warnings := [];
    for i := 0 to |assignments|
      invariant warnings == ReviewScan(assignments[..i])
    {
      var a := assignments[i];
      assert assignments[..i + 1][..i] == assignments[..i];
      ghost var before := warnings;
      if IsNight(a) {
        warnings := warnings + [NightWarning(a)];
      }
      if OnWeekend(a) {
        warnings := warnings + [WeekendWarning(a)];
      }
      assert warnings == before + ReviewsOf(a);
    }
    assert assignments[..|assignments|] == assignments;
  }

  ghost predicate Totalled(xs: seq<Assignment>, keys: seq<(Id, int)>, totals: map<(Id, int), int>, names: map<Id, Id>)
  {
    && keys == Weeks(xs)
    && (forall k :: k in keys <==> k in totals)
    && (forall k :: Total(xs, k) == if k in totals then totals[k] else 0)
    && (forall e :: LastName(xs, e) == if e in names then names[e] else 0)
    && (forall k :: k in totals ==> k.0 in names)
  }

  lemma TotalledStep(xs: seq<Assignment>, keys: seq<(Id, int)>, totals: map<(Id, int), int>, names: map<Id, Id>,
                     a: Assignment)
    requires Totalled(xs, keys, totals, names)
    ensures
      var k := (a.employeeId, WeekOf(a));
      Totalled(xs + [a], if k in totals then keys else keys + [k],
               totals[k := (if k in totals then totals[k] else 0) + (a.endsAt - a.startsAt)],
               names[a.employeeId := a.employeeName])
  {
    MapStep(EmployeeWeekOf(), xs, a);
    DedupStep(Map(EmployeeWeekOf(), xs), (a.employeeId, WeekOf(a)));
    forall k: (Id, int)
      ensures Total(xs + [a], k) == Total(xs, k) + if (a.employeeId, WeekOf(a)) == k then a.endsAt - a.startsAt else 0
    {
      SumStep(SecondsIn(k), xs, a);
    }
    assert (xs + [a])[..|xs|] == xs;
  }

  method WeeklyHoursWarnings(assignments: seq<Assignment>) returns (warnings: seq<Warning>)
    ensures warnings == WeeklyScan(assignments)
  {
    var keys: seq<(Id, int)>, totals: map<(Id, int), int>, names: map<Id, Id> := [], map[], map[];
    for i := 0 to |assignments|
      invariant Totalled(assignments[..i], keys, totals, names)
    {
      var a := assignments[i];
      var k := (a.employeeId, WeekOf(a));
      TakeNext(assignments, i);
      TotalledStep(assignments[..i], keys, totals, names, a);
      if k !in totals {
        keys, totals := keys + [k], totals[k := 0];
      }
      totals := totals[k := totals[k] + (a.endsAt - a.startsAt)];
      names := names[a.employeeId := a.employeeName];
    }
    assert assignments[..|assignments|] == assignments;
    warnings := [];
    for j := 0 to |keys|
      invariant warnings == WeeklyFor(assignments, keys[..j])
    {
      assert keys[..j + 1][..j] == keys[..j];
      var k := keys[j];
      assert k in totals;
      if totals[k] > WEEKLY_LIMIT {
        warnings := warnings + [WeeklyWarning(k.0, names[k.0], k.1, totals[k])];
      }
    }
    assert keys[..|keys|] == keys;
  }

  method EvaluateComplianceWarnings(assignments: seq<Assignment>, minRestHours: int) returns (warnings: seq<Warning>)
    ensures warnings == Evaluation(assignments, minRestHours)
  {
    var weekly := WeeklyHoursWarnings(assignments);
    var rest := MinimumRestWarnings(assignments, minRestHours);
    var reviews := NightAndWeekendWarnings(assignments);
    var consecutive := ConsecutiveNightWarnings(assignments);
    warnings := weekly + rest + reviews + consecutive;
  }
}
