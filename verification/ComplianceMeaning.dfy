/** What the compliance scans find, said without sorting or neighbours, and how the
    minimum-rest scan agrees with the rest rule that solved schedules obey. */
module ComplianceMeaning {
  import opened Options
  import opened Sequences
  import opened Sorting
  import opened Scheduling
  import opened Compliance

  // ----- start order -----

  lemma StartLeqIsTotal()
    ensures TotalPreorder(StartLeq())
  {
  }

  lemma InStartOrderFacts(xs: seq<Assignment>, e: Id)
    ensures Ordered(StartLeq(), InStartOrder(xs, e))
    ensures forall a :: a in InStartOrder(xs, e) <==> a in xs && a.employeeId == e
    ensures NoDuplicates(xs) ==> NoDuplicates(InStartOrder(xs, e))
  {
    StartLeqIsTotal();
    SortOrdered(StartLeq(), Mine(xs, e));
    SortPermutes(StartLeq(), Mine(xs, e));
    SameMembers(Mine(xs, e), InStartOrder(xs, e));
    FilterMembers(OfEmployee(e), xs);
    if NoDuplicates(xs) {
      FilterNoDuplicates(OfEmployee(e), xs);
      RearrangedDistinct(Mine(xs, e), InStartOrder(xs, e));
    }
  }

  // ----- members of a scan -----

  ghost predicate FoundAt(judge: Judge, sorted: seq<Assignment>, i: int, w: Warning)
  {
    0 < i < |sorted| && judge(sorted[i - 1], sorted[i]) == Some(w)
  }

  lemma {:induction false} NeighboursFind(judge: Judge, sorted: seq<Assignment>, w: Warning)
    ensures w in Neighbours(judge, sorted) <==> exists i :: FoundAt(judge, sorted, i, w)
  {
    if |sorted| >= 2 {
      var n := |sorted| - 1;
      NeighboursFind(judge, sorted[..n], w);
      forall i ensures FoundAt(judge, sorted[..n], i, w) <==> i < n && FoundAt(judge, sorted, i, w) {}
      assert w in Listed(judge(sorted[n - 1], sorted[n])) <==> FoundAt(judge, sorted, n, w);
      if i :| FoundAt(judge, sorted, i, w) {
        assert i == n || FoundAt(judge, sorted[..n], i, w);
      }
    }
  }

  lemma {:induction false} ByEmployeeFinds(judge: Judge, xs: seq<Assignment>, employees: seq<Id>, w: Warning)
    ensures w in ByEmployee(judge, xs, employees) <==>
      exists e :: e in employees && w in Neighbours(judge, InStartOrder(xs, e))
  {
    if employees != [] {
      var n := |employees| - 1;
      ByEmployeeFinds(judge, xs, employees[..n], w);
      assert employees == employees[..n] + [employees[n]];
    }
  }

  lemma EmployeesMembers(xs: seq<Assignment>)
    ensures forall e :: e in Employees(xs) <==> exists a :: a in xs && a.employeeId == e
    ensures NoDuplicates(Employees(xs))
  {
    DedupMembers(Map(EmployeeIdOf(), xs));
    forall e ensures e in Map(EmployeeIdOf(), xs) <==> exists a :: a in xs && a.employeeId == e {
      if a :| a in xs && a.employeeId == e {
        var i :| 0 <= i < |xs| && xs[i] == a;
        assert Map(EmployeeIdOf(), xs)[i] == e;
      }
    }
  }

  // ----- minimum rest -----

  /** The two shifts, in one order or the other, leave the minimum rest between them. */
  predicate Apart(a: Assignment, b: Assignment, hours: int)
  {
    || b.startsAt - a.endsAt >= SECONDS_PER_HOUR * hours
    || a.startsAt - b.endsAt >= SECONDS_PER_HOUR * hours
  }

  predicate RestsAfter(a: Assignment, b: Assignment, hours: int)
  {
    b.startsAt - a.endsAt >= SECONDS_PER_HOUR * hours
  }

  ghost predicate EndsAfterStart(xs: seq<Assignment>)
  {
    forall a :: a in xs ==> a.startsAt <= a.endsAt
  }

  ghost predicate DistinctStarts(xs: seq<Assignment>)
  {
    forall a, b :: a in xs && b in xs && a.employeeId == b.employeeId && a.startsAt == b.startsAt ==> a == b
  }

  lemma QuietIff(sorted: seq<Assignment>, hours: int)
    ensures Neighbours(RestJudge(hours), sorted) == [] <==>
      forall i :: 0 < i < |sorted| ==> RestsAfter(sorted[i - 1], sorted[i], hours)
  {
    var judge := RestJudge(hours);
    if Neighbours(judge, sorted) != [] {
      var w := Neighbours(judge, sorted)[0];
      NeighboursFind(judge, sorted, w);
      var i :| FoundAt(judge, sorted, i, w);
      assert !RestsAfter(sorted[i - 1], sorted[i], hours);
    }
    forall i | 0 < i < |sorted| && !RestsAfter(sorted[i - 1], sorted[i], hours)
      ensures Neighbours(judge, sorted) != []
    {
      var w := RestWarning(sorted[i - 1], sorted[i]);
      NeighboursFind(judge, sorted, w);
      assert FoundAt(judge, sorted, i, w);
    }
  }

  /** Rest between neighbours is rest between any two, for shifts that do not end before
      they start. */
  lemma {:induction false} NeighboursRestAll(sorted: seq<Assignment>, hours: int, i: nat, j: nat)
    requires 0 <= hours && Ordered(StartLeq(), sorted) && EndsAfterStart(sorted)
    requires forall k :: 0 < k < |sorted| ==> RestsAfter(sorted[k - 1], sorted[k], hours)
    requires i < j < |sorted|
    ensures RestsAfter(sorted[i], sorted[j], hours)
    decreases j
  {
    assert RestsAfter(sorted[j - 1], sorted[j], hours);
    if i < j - 1 {
      NeighboursRestAll(sorted, hours, i, j - 1);
      assert sorted[j - 1] in sorted;
    }
  }

  /** The later of two shifts rests after the earlier; on a tie, the one listed second after the
      first. */
  predicate RestsInOrder(a: Assignment, b: Assignment, hours: int)
  {
    if a.startsAt <= b.startsAt then RestsAfter(a, b, hours) else RestsAfter(b, a, hours)
  }

  ghost function RestingInOrder(hours: int): (Assignment, Assignment) -> bool
  {
    (a: Assignment, b: Assignment) => RestsInOrder(a, b, hours)
  }

  lemma QuietInOrder(sorted: seq<Assignment>, hours: int)
    requires 0 <= hours && Ordered(StartLeq(), sorted) && EndsAfterStart(sorted)
    ensures Neighbours(RestJudge(hours), sorted) == [] <==> PairsRelated(Any(), RestingInOrder(hours), sorted)
  {
    QuietIff(sorted, hours);
    if Neighbours(RestJudge(hours), sorted) == [] {
      forall i, j | 0 <= i < j < |sorted| ensures RestingInOrder(hours)(sorted[i], sorted[j]) {
        NeighboursRestAll(sorted, hours, i, j);
        assert StartLeq()(sorted[i], sorted[j]);
      }
    } else {
      var i :| 0 < i < |sorted| && !RestsAfter(sorted[i - 1], sorted[i], hours);
      assert StartLeq()(sorted[i - 1], sorted[i]);
      assert !RestingInOrder(hours)(sorted[i - 1], sorted[i]);
    }
  }

  lemma QuietEmployeeIff(xs: seq<Assignment>, e: Id, hours: int)
    requires 0 <= hours && EndsAfterStart(xs)
    ensures Neighbours(RestJudge(hours), InStartOrder(xs, e)) == [] <==>
      PairsRelated(OfEmployee(e), RestingInOrder(hours), xs)
  {
    InStartOrderFacts(xs, e);
    StartLeqIsTotal();
    QuietInOrder(InStartOrder(xs, e), hours);
    SortPairs(StartLeq(), RestingInOrder(hours), Mine(xs, e));
    FilterPairs(OfEmployee(e), RestingInOrder(hours), xs);
  }

  /** A scan by employee lists nothing exactly when it lists nothing for anyone. */
  lemma QuietForAll(judge: Judge, xs: seq<Assignment>)
    ensures ByEmployee(judge, xs, Employees(xs)) == [] <==>
      forall e :: e in Employees(xs) ==> Neighbours(judge, InStartOrder(xs, e)) == []
  {
    var found := ByEmployee(judge, xs, Employees(xs));
    if found != [] {
      ByEmployeeFinds(judge, xs, Employees(xs), found[0]);
    }
    forall e | e in Employees(xs) && Neighbours(judge, InStartOrder(xs, e)) != [] ensures found != [] {
      ByEmployeeFinds(judge, xs, Employees(xs), Neighbours(judge, InStartOrder(xs, e))[0]);
    }
  }

  /** The sort-and-compare-neighbours scan is silent exactly when, of every two rows of an
      employee, the one that starts later rests after the other. */
  lemma RestScanIsAllPairs(xs: seq<Assignment>, hours: int)
    requires 0 <= hours && EndsAfterStart(xs)
    ensures RestScan(xs, hours) == [] <==>
      forall i, j :: 0 <= i < j < |xs| && xs[i].employeeId == xs[j].employeeId ==> RestsInOrder(xs[i], xs[j], hours)
  {
    QuietForAll(RestJudge(hours), xs);
    EmployeesMembers(xs);
    forall e ensures Neighbours(RestJudge(hours), InStartOrder(xs, e)) == [] <==>
      PairsRelated(OfEmployee(e), RestingInOrder(hours), xs)
    {
      QuietEmployeeIff(xs, e, hours);
    }
    AllEmployeesRest(xs, hours);
  }

  /** Looking at every two rows of each employee is looking at every two rows of one employee. */
  lemma AllEmployeesRest(xs: seq<Assignment>, hours: int)
    ensures (forall e :: e in Employees(xs) ==> PairsRelated(OfEmployee(e), RestingInOrder(hours), xs)) <==>
      forall i, j :: 0 <= i < j < |xs| && xs[i].employeeId == xs[j].employeeId ==> RestsInOrder(xs[i], xs[j], hours)
  {
    EmployeesMembers(xs);
    if forall e :: e in Employees(xs) ==> PairsRelated(OfEmployee(e), RestingInOrder(hours), xs) {
      forall i, j | 0 <= i < j < |xs| && xs[i].employeeId == xs[j].employeeId
        ensures RestsInOrder(xs[i], xs[j], hours)
      {
        var e := xs[i].employeeId;
        assert xs[i] in xs && PairsRelated(OfEmployee(e), RestingInOrder(hours), xs);
        assert OfEmployee(e)(xs[i]) && OfEmployee(e)(xs[j]);
        assert RestingInOrder(hours)(xs[i], xs[j]);
      }
    }
  }

  /** No two rows of an employee start together with only one of them lasting no time. */
  ghost predicate NoInstantTies(xs: seq<Assignment>)
  {
    forall i, j :: 0 <= i < j < |xs| && xs[i].employeeId == xs[j].employeeId && xs[i].startsAt == xs[j].startsAt ==>
      (xs[i].endsAt == xs[i].startsAt <==> xs[j].endsAt == xs[j].startsAt)
  }

  /** The order of the rows has no say: the scan is silent exactly when every two rows of an
      employee are at least the minimum apart. */
  lemma RestScanIsSymmetric(xs: seq<Assignment>, hours: int)
    requires EndsAfterStart(xs)
    requires 0 < hours || (hours == 0 && NoInstantTies(xs))
    ensures RestScan(xs, hours) == [] <==>
      forall i, j :: 0 <= i < j < |xs| && xs[i].employeeId == xs[j].employeeId ==> Apart(xs[i], xs[j], hours)
  {
    RestScanIsAllPairs(xs, hours);
    forall i, j | 0 <= i < j < |xs| && xs[i].employeeId == xs[j].employeeId
      ensures RestsInOrder(xs[i], xs[j], hours) <==> Apart(xs[i], xs[j], hours)
    {
      assert xs[i] in xs && xs[j] in xs;
    }
  }

  // ----- solved schedules keep the rest policy -----

  ghost predicate FullyTimed(q: Request)
  {
    forall t :: t in q.slots ==> Timed(t) && t.startsAt.value <= t.endsAt.value
  }

  /** The compliance row of an assignment; names and labels are looked up. */
  function RowOf(q: Request, c: Choice, names: Id -> Id, labels: Id -> string): Assignment
    requires Timed(SlotOf(q, c))
  {
    var t := SlotOf(q, c);
    Assignment(c.emp.id, names(c.emp.id), c.req.slotId, t.localDate, labels(c.req.slotId),
               t.startsAt.value, t.endsAt.value)
  }

  /** `xs` lists the assignments of `s`, each once. */
  ghost predicate ListsSchedule(q: Request, s: Schedule, cs: seq<Choice>, xs: seq<Assignment>,
                                names: Id -> Id, labels: Id -> string)
  {
    && |xs| == |cs| && NoDuplicates(cs)
    && forall i :: 0 <= i < |cs| ==>
         cs[i] in s && Timed(SlotOf(q, cs[i])) && xs[i] == RowOf(q, cs[i], names, labels)
  }

  lemma {:induction false} FindSlotIn(slots: seq<Slot>, id: Id)
    requires exists t :: t in slots && t.id == id
    ensures FindSlot(slots, id) in slots && FindSlot(slots, id).id == id
  {
    if slots[0].id != id {
      assert exists t :: t in slots[1..] && t.id == id;
      FindSlotIn(slots[1..], id);
    }
  }

  lemma SameEmployee(q: Request, s: Schedule, c: Choice, d: Choice)
    requires WellFormed(q) && OnlyEligible(q, s) && c in s && d in s && c.emp.id == d.emp.id
    ensures c.emp == d.emp
  {
    assert CanChoose(q, c) && CanChoose(q, d);
  }

  /** A legal schedule lists each employee at most once per slot. */
  lemma ListedOncePerSlot(q: Request, s: Schedule, cs: seq<Choice>, xs: seq<Assignment>,
                          names: Id -> Id, labels: Id -> string)
    requires WellFormed(q) && Legal(q, s) && ListsSchedule(q, s, cs, xs, names, labels)
    ensures forall i, j :: 0 <= i < j < |xs| ==>
      !(xs[i].employeeId == xs[j].employeeId && xs[i].slotId == xs[j].slotId)
    ensures NoDuplicates(xs)
  {
    forall i, j | 0 <= i < j < |xs| && xs[i].employeeId == xs[j].employeeId
      ensures xs[i].slotId != xs[j].slotId
    {
      SameEmployee(q, s, cs[i], cs[j]);
      assert cs[i] != cs[j];
    }
  }

  lemma RestedInStartOrder(q: Request, s: Schedule, c: Choice, d: Choice, hours: int)
    requires WellFormed(q) && Legal(q, s) && FullyTimed(q)
    requires q.minRestHours.Some? && 0 < q.minRestHours.value && hours <= q.minRestHours.value
    requires c in s && d in s && c.emp == d.emp && c.req.slotId != d.req.slotId
    requires Timed(SlotOf(q, c)) && Timed(SlotOf(q, d))
    requires SlotOf(q, c).startsAt.value <= SlotOf(q, d).startsAt.value
    ensures SlotOf(q, d).startsAt.value - SlotOf(q, c).endsAt.value >= SECONDS_PER_HOUR * hours
  {
    var t, u := SlotOf(q, c), SlotOf(q, d);
    assert CanChoose(q, c) && CanChoose(q, d);
    FindSlotIn(q.slots, c.req.slotId);
    FindSlotIn(q.slots, d.req.slotId);
    assert WorksIn(s, c.emp.id, t.id) && WorksIn(s, c.emp.id, u.id);
    assert StartsFirst(t, u) ==> RestedBetween(t, u, q.minRestHours.value);
    assert StartsFirst(u, t) ==> RestedBetween(u, t, q.minRestHours.value);
  }

  lemma RowsRested(q: Request, s: Schedule, cs: seq<Choice>, xs: seq<Assignment>,
                   names: Id -> Id, labels: Id -> string, hours: int, j: nat, k: nat)
    requires WellFormed(q) && Legal(q, s) && FullyTimed(q)
    requires q.minRestHours.Some? && 0 < q.minRestHours.value && hours <= q.minRestHours.value
    requires ListsSchedule(q, s, cs, xs, names, labels)
    requires j < |xs| && k < |xs| && j != k
    requires xs[j].employeeId == xs[k].employeeId && xs[j].startsAt <= xs[k].startsAt
    ensures RestsAfter(xs[j], xs[k], hours)
  {
    ListedOncePerSlot(q, s, cs, xs, names, labels);
    var c, d := cs[j], cs[k];
    assert xs[j].slotId != xs[k].slotId;
    assert xs[j] == RowOf(q, c, names, labels) && xs[k] == RowOf(q, d, names, labels);
    SameEmployee(q, s, c, d);
    RestedInStartOrder(q, s, c, d, hours);
  }

  lemma {:induction false} AllQuiet(judge: Judge, xs: seq<Assignment>, employees: seq<Id>)
    requires forall e :: Neighbours(judge, InStartOrder(xs, e)) == []
    ensures ByEmployee(judge, xs, employees) == []
  {
    if employees != [] {
      AllQuiet(judge, xs, employees[..|employees| - 1]);
    }
  }

  /** A schedule solved with a minimum rest on fully timed slots draws no rest warning at any
      threshold up to that minimum. */
  lemma SolvedScheduleRests(q: Request, s: Schedule, cs: seq<Choice>, xs: seq<Assignment>,
                            names: Id -> Id, labels: Id -> string, hours: int)
    requires WellFormed(q) && Legal(q, s) && FullyTimed(q)
    requires q.minRestHours.Some? && 0 < q.minRestHours.value && hours <= q.minRestHours.value
    requires ListsSchedule(q, s, cs, xs, names, labels)
    ensures RestScan(xs, hours) == []
  {
    ListedOncePerSlot(q, s, cs, xs, names, labels);
    forall e ensures Neighbours(RestJudge(hours), InStartOrder(xs, e)) == [] {
      var sorted := InStartOrder(xs, e);
      InStartOrderFacts(xs, e);
      QuietIff(sorted, hours);
      forall i | 0 < i < |sorted| ensures RestsAfter(sorted[i - 1], sorted[i], hours) {
        assert sorted[i - 1] in sorted && sorted[i] in sorted;
        assert StartLeq()(sorted[i - 1], sorted[i]);
        var j :| 0 <= j < |xs| && xs[j] == sorted[i - 1];
        var k :| 0 <= k < |xs| && xs[k] == sorted[i];
        RowsRested(q, s, cs, xs, names, labels, hours, j, k);
      }
    }
    AllQuiet(RestJudge(hours), xs, Employees(xs));
  }

  lemma RowOfSlot(q: Request, s: Schedule, cs: seq<Choice>, xs: seq<Assignment>,
                  names: Id -> Id, labels: Id -> string, e: Employee, t: Slot) returns (j: nat)
    requires WellFormed(q) && ListsSchedule(q, s, cs, xs, names, labels) && (forall c :: c in s ==> c in cs)
    requires t in q.slots && Timed(t) && WorksIn(s, e.id, t.id)
    ensures j < |xs| && xs[j].employeeId == e.id && xs[j].slotId == t.id
    ensures xs[j].startsAt == t.startsAt.value && xs[j].endsAt == t.endsAt.value
  {
    var c :| c in s && c.emp.id == e.id && c.req.slotId == t.id;
    j :| 0 <= j < |cs| && cs[j] == c;
    FindSlotFinds(q.slots, t);
  }

  lemma QuietPairRests(q: Request, s: Schedule, cs: seq<Choice>, xs: seq<Assignment>, names: Id -> Id,
                       labels: Id -> string, e: Employee, t: Slot, u: Slot, hours: int)
    requires WellFormed(q) && FullyTimed(q) && 0 < hours
    requires ListsSchedule(q, s, cs, xs, names, labels) && (forall c :: c in s ==> c in cs)
    requires RestScan(xs, hours) == [] && EndsAfterStart(xs)
    requires t in q.slots && u in q.slots && Timed(t) && Timed(u) && StartsFirst(t, u)
    requires WorksIn(s, e.id, t.id) && WorksIn(s, e.id, u.id)
    ensures RestedBetween(t, u, hours)
  {
    var j := RowOfSlot(q, s, cs, xs, names, labels, e, t);
    var k := RowOfSlot(q, s, cs, xs, names, labels, e, u);
    RestScanIsAllPairs(xs, hours);
    FindSlotFinds(q.slots, t);
    FindSlotFinds(q.slots, u);
    assert j < k ==> RestsInOrder(xs[j], xs[k], hours);
    assert k < j ==> RestsInOrder(xs[k], xs[j], hours);
  }

  lemma ListedEndAfterStart(q: Request, s: Schedule, cs: seq<Choice>, xs: seq<Assignment>, names: Id -> Id,
                            labels: Id -> string)
    requires WellFormed(q) && OnlyEligible(q, s) && FullyTimed(q) && ListsSchedule(q, s, cs, xs, names, labels)
    ensures EndsAfterStart(xs)
  {
    forall a | a in xs ensures a.startsAt <= a.endsAt {
      var i :| 0 <= i < |xs| && xs[i] == a;
      assert CanChoose(q, cs[i]);
      FindSlotIn(q.slots, cs[i].req.slotId);
    }
  }

  /** The solver's rest rule and the compliance scan agree: with every slot timed, the rows of a
      schedule draw no rest warning at the request's own minimum exactly when the schedule, legal
      in every other way, meets the rule. */
  lemma RestRulesAgree(q: Request, s: Schedule, cs: seq<Choice>, xs: seq<Assignment>,
                       names: Id -> Id, labels: Id -> string)
    requires WellFormed(q) && FullyTimed(q)
    requires q.minRestHours.Some? && 0 < q.minRestHours.value
    requires ListsSchedule(q, s, cs, xs, names, labels) && (forall c :: c in s ==> c in cs)
    requires Legal(q.(minRestHours := None), s)
    ensures RestScan(xs, q.minRestHours.value) == [] <==> Legal(q, s)
  {
    var hours := q.minRestHours.value;
    LegalButForRest(q, s);
    ListedEndAfterStart(q, s, cs, xs, names, labels);
    if Legal(q, s) {
      SolvedScheduleRests(q, s, cs, xs, names, labels, hours);
    }
    if RestScan(xs, hours) == [] {
      forall e, t, u |
        && e in q.employees && t in q.slots && u in q.slots && Timed(t) && Timed(u) && StartsFirst(t, u)
        && WorksIn(s, e.id, t.id) && WorksIn(s, e.id, u.id)
        ensures RestedBetween(t, u, hours)
      {
        QuietPairRests(q, s, cs, xs, names, labels, e, t, u, hours);
      }
    }
  }

  lemma LegalButForRest(q: Request, s: Schedule)
    requires Legal(q.(minRestHours := None), s)
    ensures OnlyEligible(q, s) && (Legal(q, s) <==> WellRested(q, s))
  {
    var p := q.(minRestHours := None);
    forall c ensures SlotOf(q, c) == SlotOf(p, c) && (CanChoose(q, c) <==> CanChoose(p, c)) {}
    forall e, w ensures ShiftsInWeek(q, s, e, w) == ShiftsInWeek(p, s, e, w) {}
    forall e, m ensures WeekendShifts(q, s, e, m) == WeekendShifts(p, s, e, m) {}
    forall e, m ensures NightShifts(q, s, e, m) == NightShifts(p, s, e, m) {}
    forall e ensures WorkDates(q, s, e) == WorkDates(p, s, e) {}
    assert WithinWeeklyCaps(q, s);
    assert WithinStreakLimit(q, s) by {
      forall e, first, limit ensures ExceedsStreak(q, s, e, first, limit) ==> ExceedsStreak(p, s, e, first, limit) {}
    }
  }

  // ----- consecutive nights -----

  ghost function NightDays(sorted: seq<Assignment>): set<int>
  {
    set a | a in sorted :: DayOf(a.startsAt)
  }

  predicate Paired(days: set<int>, d: int) { d in days && d + 1 in days }

  /** The days on which a night shift starts and on the day after which another does. */
  ghost function PairedDays(days: set<int>): set<int>
  {
    set d | d in days && Paired(days, d)
  }

  lemma PairedWithLater(days: set<int>, last: int, day: int)
    requires last in days && (forall d :: d in days ==> d <= last) && last <= day
    ensures |PairedDays(days + {day})| == |PairedDays(days)| + if day - last == 1 then 1 else 0
  {
    if day - last == 1 {
      assert PairedDays(days + {day}) == PairedDays(days) + {last};
      assert last !in PairedDays(days);
    } else {
      assert PairedDays(days + {day}) == PairedDays(days);
    }
  }

  lemma LastDayIsLatest(sorted: seq<Assignment>)
    requires Ordered(StartLeq(), sorted) && sorted != []
    ensures DayOf(sorted[|sorted| - 1].startsAt) in NightDays(sorted)
    ensures forall d :: d in NightDays(sorted) ==> d <= DayOf(sorted[|sorted| - 1].startsAt)
  {
    var n := |sorted| - 1;
    assert sorted[n] in sorted;
    forall d | d in NightDays(sorted) ensures d <= DayOf(sorted[n].startsAt) {
      var a :| a in sorted && DayOf(a.startsAt) == d;
      var i :| 0 <= i <= n && sorted[i] == a;
      assert i == n || StartLeq()(sorted[i], sorted[n]);
    }
  }

  lemma NightDaysStep(sorted: seq<Assignment>)
    requires sorted != []
    ensures NightDays(sorted) == NightDays(sorted[..|sorted| - 1]) + {DayOf(sorted[|sorted| - 1].startsAt)}
  {
    assert sorted == sorted[..|sorted| - 1] + [sorted[|sorted| - 1]];
  }

  lemma FewNights(sorted: seq<Assignment>)
    requires |sorted| < 2
    ensures PairedDays(NightDays(sorted)) == {}
  {
    forall d, e | d in NightDays(sorted) && e in NightDays(sorted) ensures d == e {
    }
  }

  lemma OneMoreNight(sorted: seq<Assignment>)
    requires |sorted| >= 2
    ensures
      var n := |sorted| - 1;
      |Neighbours(NightJudge(), sorted)| == |Neighbours(NightJudge(), sorted[..n])|
        + if DayOf(sorted[n].startsAt) - DayOf(sorted[n - 1].startsAt) == 1 then 1 else 0
  {
  }

  lemma {:induction false} NeighboursCountDays(sorted: seq<Assignment>)
    requires Ordered(StartLeq(), sorted)
    ensures |Neighbours(NightJudge(), sorted)| == |PairedDays(NightDays(sorted))|
  {
    if |sorted| < 2 {
      FewNights(sorted);
    } else {
      var n := |sorted| - 1;
      NeighboursCountDays(sorted[..n]);
      OneMoreNight(sorted);
      NightDaysStep(sorted);
      LastDayIsLatest(sorted[..n]);
      assert StartLeq()(sorted[n - 1], sorted[n]);
      PairedWithLater(NightDays(sorted[..n]), DayOf(sorted[n - 1].startsAt), DayOf(sorted[n].startsAt));
    }
  }

  /** `e` has a night shift that starts on day `d`. */
  ghost predicate WorksNight(xs: seq<Assignment>, e: Id, d: int)
  {
    exists a :: a in xs && a.employeeId == e && IsNight(a) && DayOf(a.startsAt) == d
  }

  ghost function OfWarnedEmployee(e: Id): Warning -> bool { (w: Warning) => w.employeeId == e }

  lemma {:induction false} NeighboursName(judge: Judge, xs: seq<Assignment>, e: Id)
    requires judge == NightJudge()
    ensures forall w :: w in Neighbours(judge, InStartOrder(xs, e)) ==> w.employeeId == e
  {
    InStartOrderFacts(xs, e);
    var sorted := InStartOrder(xs, e);
    forall w | w in Neighbours(judge, sorted) ensures w.employeeId == e {
      NeighboursFind(judge, sorted, w);
      var i :| FoundAt(judge, sorted, i, w);
      assert sorted[i] in sorted;
    }
  }

  lemma WarningsOfEmployee(xs: seq<Assignment>, employee: Id, e: Id)
    ensures
      var found := Neighbours(NightJudge(), InStartOrder(xs, employee));
      Filter(OfWarnedEmployee(e), found) == if e == employee then found else []
  {
    NeighboursName(NightJudge(), xs, employee);
    FilterAll(OfWarnedEmployee(e), Neighbours(NightJudge(), InStartOrder(xs, employee)));
  }

  lemma {:induction false} WarningsOfOne(xs: seq<Assignment>, employees: seq<Id>, e: Id)
    requires NoDuplicates(employees)
    ensures Filter(OfWarnedEmployee(e), ByEmployee(NightJudge(), xs, employees))
      == if e in employees then Neighbours(NightJudge(), InStartOrder(xs, e)) else []
  {
    if employees != [] {
      var front, last := employees[..|employees| - 1], employees[|employees| - 1];
      WarningsOfOne(xs, front, e);
      assert employees == front + [last];
      assert last !in front;
      FilterConcat(OfWarnedEmployee(e), ByEmployee(NightJudge(), xs, front),
                   Neighbours(NightJudge(), InStartOrder(xs, last)));
      WarningsOfEmployee(xs, last, e);
    }
  }

  lemma NightDaysAre(xs: seq<Assignment>, e: Id, d: int)
    ensures d in NightDays(InStartOrder(Filter(AtNight(), xs), e)) <==> WorksNight(xs, e, d)
  {
    var nights := Filter(AtNight(), xs);
    FilterMembers(AtNight(), xs);
    InStartOrderFacts(nights, e);
    if WorksNight(xs, e, d) {
      var a :| a in xs && a.employeeId == e && IsNight(a) && DayOf(a.startsAt) == d;
      assert a in InStartOrder(nights, e);
    }
  }

  lemma PairedDaysAre(xs: seq<Assignment>, e: Id, days: set<int>)
    requires forall d :: d in days <==> WorksNight(xs, e, d) && WorksNight(xs, e, d + 1)
    ensures PairedDays(NightDays(InStartOrder(Filter(AtNight(), xs), e))) == days
  {
    var found := NightDays(InStartOrder(Filter(AtNight(), xs), e));
    forall d ensures d in PairedDays(found) <==> d in days {
      NightDaysAre(xs, e, d);
      NightDaysAre(xs, e, d + 1);
      assert Paired(found, d) <==> d in days;
    }
  }

  lemma NobodysShifts(xs: seq<Assignment>, e: Id)
    ensures e !in Employees(xs) ==> InStartOrder(xs, e) == []
  {
    EmployeesMembers(xs);
    InStartOrderFacts(xs, e);
    if InStartOrder(xs, e) != [] {
      assert InStartOrder(xs, e)[0] in InStartOrder(xs, e);
    }
  }

  /** The consecutive-night warnings of an employee are as many as the days on which one of
      their night shifts starts and on the day after which another does, however many night
      shifts share a day. */
  lemma ConsecutiveNightsAreCounted(xs: seq<Assignment>, e: Id, days: set<int>)
    requires forall d :: d in days <==> WorksNight(xs, e, d) && WorksNight(xs, e, d + 1)
    ensures |Filter(OfWarnedEmployee(e), ConsecutiveScan(xs))| == |days|
  {
    var nights := Filter(AtNight(), xs);
    var sorted := InStartOrder(nights, e);
    EmployeesMembers(nights);
    WarningsOfOne(nights, Employees(nights), e);
    NobodysShifts(nights, e);
    InStartOrderFacts(nights, e);
    NeighboursCountDays(sorted);
    PairedDaysAre(xs, e, days);
  }
}
