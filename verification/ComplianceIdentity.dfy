/** Compliance evaluation does not depend on the order of the rows, and no two of its
    warnings have the same identity. */
module ComplianceIdentity {
  import opened Options
  import opened Sequences
  import opened Sorting
  import opened Scheduling
  import opened Compliance
  import opened ComplianceMeaning

  /** An employee holds a slot at most once. */
  ghost predicate OncePerSlot(xs: seq<Assignment>)
  {
    forall i, j :: 0 <= i < j < |xs| ==> !(xs[i].employeeId == xs[j].employeeId && xs[i].slotId == xs[j].slotId)
  }

  /** Every row of an employee gives the same name. */
  ghost predicate OneName(xs: seq<Assignment>)
  {
    forall a, b :: a in xs && b in xs && a.employeeId == b.employeeId ==> a.employeeName == b.employeeName
  }

  lemma OncePerSlotMembers(xs: seq<Assignment>)
    requires OncePerSlot(xs)
    ensures NoDuplicates(xs)
    ensures forall a, b :: a in xs && b in xs && a.employeeId == b.employeeId && a.slotId == b.slotId ==> a == b
  {
  }

  // ----- rearranging the rows -----

  /** With distinct start instants, an employee's shifts sort the same way from any order. */
  lemma StartOrderRearranged(a: seq<Assignment>, b: seq<Assignment>, e: Id)
    requires multiset(a) == multiset(b) && DistinctStarts(a)
    ensures InStartOrder(a, e) == InStartOrder(b, e)
  {
    FilterRearranged(OfEmployee(e), a, b);
    FilterMembers(OfEmployee(e), a);
    StartLeqIsTotal();
    assert DistinctKeys(StartLeq(), Mine(a, e));
    SortIgnoresInputOrder(StartLeq(), Mine(a, e), Mine(b, e));
  }

  lemma ByEmployeeRearranged(judge: Judge, a: seq<Assignment>, b: seq<Assignment>, w: Warning)
    requires multiset(a) == multiset(b) && DistinctStarts(a)
    ensures w in ByEmployee(judge, a, Employees(a)) <==> w in ByEmployee(judge, b, Employees(b))
  {
    SameMembers(a, b);
    ByEmployeeFinds(judge, a, Employees(a), w);
    ByEmployeeFinds(judge, b, Employees(b), w);
    EmployeesMembers(a);
    EmployeesMembers(b);
    forall e ensures InStartOrder(a, e) == InStartOrder(b, e) {
      StartOrderRearranged(a, b, e);
    }
  }

  lemma {:induction false} ReviewScanFinds(xs: seq<Assignment>, w: Warning)
    ensures w in ReviewScan(xs) <==> exists a :: a in xs && w in ReviewsOf(a)
  {
    if xs != [] {
      var n := |xs| - 1;
      ReviewScanFinds(xs[..n], w);
      assert xs == xs[..n] + [xs[n]];
    }
  }

  lemma {:induction false} WeeklyForFinds(xs: seq<Assignment>, weeks: seq<(Id, int)>, w: Warning)
    ensures w in WeeklyFor(xs, weeks) <==> exists k :: k in weeks && w in WeeklyOver(xs, k)
  {
    if weeks != [] {
      var n := |weeks| - 1;
      WeeklyForFinds(xs, weeks[..n], w);
      assert weeks == weeks[..n] + [weeks[n]];
    }
  }

  lemma {:induction false} LastNameIsTheName(xs: seq<Assignment>, a: Assignment)
    requires OneName(xs) && a in xs
    ensures LastName(xs, a.employeeId) == a.employeeName
  {
    var n := |xs| - 1;
    assert xs == xs[..n] + [xs[n]];
    if xs[n].employeeId != a.employeeId {
      LastNameIsTheName(xs[..n], a);
    }
  }

  lemma WeeksMembers(xs: seq<Assignment>)
    ensures forall k :: k in Weeks(xs) <==> exists a :: a in xs && (a.employeeId, WeekOf(a)) == k
    ensures NoDuplicates(Weeks(xs))
  {
    DedupMembers(Map(EmployeeWeekOf(), xs));
    forall k: (Id, int)
      ensures k in Map(EmployeeWeekOf(), xs) <==> exists a :: a in xs && (a.employeeId, WeekOf(a)) == k
    {
      if a :| a in xs && (a.employeeId, WeekOf(a)) == k {
        var i :| 0 <= i < |xs| && xs[i] == a;
        assert Map(EmployeeWeekOf(), xs)[i] == k;
      }
    }
  }

  /** An employee is warned about a week exactly when the shifts that start in it add up to
      more than 52 hours, and the warning reports that sum. */
  lemma WeeklyWarnedIff(xs: seq<Assignment>, e: Id, week: int)
    ensures (exists w :: w in WeeklyScan(xs) && w.employeeId == e && w.weekKey == Some(week)) <==>
      Total(xs, (e, week)) > WEEKLY_LIMIT
    ensures forall w :: w in WeeklyScan(xs) && w.employeeId == e && w.weekKey == Some(week) ==>
      w.seconds == Some(Total(xs, (e, week))) && w.publishBlocking
  {
    var k := (e, week);
    WeeksMembers(xs);
    forall w | w in WeeklyScan(xs) && w.employeeId == e && w.weekKey == Some(week)
      ensures w in WeeklyOver(xs, k)
    {
      WeeklyForFinds(xs, Weeks(xs), w);
      var k' :| k' in Weeks(xs) && w in WeeklyOver(xs, k');
      assert k' == k;
    }
    if Total(xs, k) > WEEKLY_LIMIT {
      if k !in Weeks(xs) {
        SumOfZeros(SecondsIn(k), xs);
        assert false;
      }
      var w := WeeklyOver(xs, k)[0];
      WeeklyForFinds(xs, Weeks(xs), w);
      assert w in WeeklyScan(xs);
    }
  }

  lemma WeeklyOverRearranged(a: seq<Assignment>, b: seq<Assignment>, k: (Id, int))
    requires multiset(a) == multiset(b) && OneName(a) && k in Weeks(a)
    ensures WeeklyOver(a, k) == WeeklyOver(b, k)
  {
    SameMembers(a, b);
    WeeksMembers(a);
    var x :| x in a && (x.employeeId, WeekOf(x)) == k;
    LastNameIsTheName(a, x);
    LastNameIsTheName(b, x);
    SumRearranged(SecondsIn(k), a, b);
  }

  lemma WeeklyRearranged(a: seq<Assignment>, b: seq<Assignment>, w: Warning)
    requires multiset(a) == multiset(b) && OneName(a)
    ensures w in WeeklyScan(a) <==> w in WeeklyScan(b)
  {
    SameMembers(a, b);
    WeeksMembers(a);
    WeeksMembers(b);
    WeeklyForFinds(a, Weeks(a), w);
    WeeklyForFinds(b, Weeks(b), w);
    forall k | k in Weeks(a) ensures k in Weeks(b) && WeeklyOver(a, k) == WeeklyOver(b, k) {
      WeeklyOverRearranged(a, b, k);
    }
    forall k | k in Weeks(b) ensures k in Weeks(a) {
    }
  }

  lemma ConsecutiveRearranged(a: seq<Assignment>, b: seq<Assignment>, w: Warning)
    requires multiset(a) == multiset(b) && DistinctStarts(a)
    ensures w in ConsecutiveScan(a) <==> w in ConsecutiveScan(b)
  {
    FilterRearranged(AtNight(), a, b);
    FilterMembers(AtNight(), a);
    ByEmployeeRearranged(NightJudge(), Filter(AtNight(), a), Filter(AtNight(), b), w);
  }

  lemma ReviewRearranged(a: seq<Assignment>, b: seq<Assignment>, w: Warning)
    requires multiset(a) == multiset(b)
    ensures w in ReviewScan(a) <==> w in ReviewScan(b)
  {
    SameMembers(a, b);
    ReviewScanFinds(a, w);
    ReviewScanFinds(b, w);
  }

  // ----- the snapshot -----

  function SnapshotLeq(): (Assignment, Assignment) -> bool
  {
    (a: Assignment, b: Assignment) =>
      a.employeeId < b.employeeId || (a.employeeId == b.employeeId && (
      a.slotId < b.slotId || (a.slotId == b.slotId && (
      a.startsAt < b.startsAt || (a.startsAt == b.startsAt && a.endsAt <= b.endsAt)))))
  }

  /** The rows in the order in which they are rendered and hashed. */
  function Snapshot(xs: seq<Assignment>): seq<Assignment> { SortBy(SnapshotLeq(), xs) }

  /** The rows of a snapshot come by employee, then slot, then start, then end. */
  lemma SnapshotIsOrdered(xs: seq<Assignment>, i: nat, j: nat)
    requires i < j < |Snapshot(xs)|
    ensures
      var a, b := Snapshot(xs)[i], Snapshot(xs)[j];
      && a.employeeId <= b.employeeId
      && (a.employeeId == b.employeeId ==> a.slotId <= b.slotId)
      && (a.employeeId == b.employeeId && a.slotId == b.slotId ==> a.startsAt <= b.startsAt)
      && (a.employeeId == b.employeeId && a.slotId == b.slotId && a.startsAt == b.startsAt ==> a.endsAt <= b.endsAt)
  {
    assert TotalPreorder(SnapshotLeq());
    SortOrdered(SnapshotLeq(), xs);
    assert SnapshotLeq()(Snapshot(xs)[i], Snapshot(xs)[j]);
  }

  /** Two lists of rows have one snapshot exactly when one is a rearrangement of the other. */
  lemma SnapshotIsCanonical(a: seq<Assignment>, b: seq<Assignment>)
    requires OncePerSlot(a)
    ensures Snapshot(a) == Snapshot(b) <==> multiset(a) == multiset(b)
  {
    SortPermutes(SnapshotLeq(), a);
    SortPermutes(SnapshotLeq(), b);
    if multiset(a) == multiset(b) {
      OncePerSlotMembers(a);
      assert DistinctKeys(SnapshotLeq(), a);
      assert TotalPreorder(SnapshotLeq());
      SortIgnoresInputOrder(SnapshotLeq(), a, b);
    }
  }

  /** Rearranging the rows changes neither the set of warnings nor the snapshot. */
  lemma EvaluationIgnoresRowOrder(a: seq<Assignment>, b: seq<Assignment>, minRestHours: int)
    requires multiset(a) == multiset(b)
    requires DistinctStarts(a) && OneName(a) && OncePerSlot(a)
    ensures forall w :: w in Evaluation(a, minRestHours) <==> w in Evaluation(b, minRestHours)
    ensures Snapshot(a) == Snapshot(b)
  {
    forall w ensures w in Evaluation(a, minRestHours) <==> w in Evaluation(b, minRestHours) {
      WeeklyRearranged(a, b, w);
      ByEmployeeRearranged(RestJudge(minRestHours), a, b, w);
      ReviewRearranged(a, b, w);
      ConsecutiveRearranged(a, b, w);
    }
    SnapshotIsCanonical(a, b);
  }

  // ----- identities -----

  datatype Instance = Instance(
    code: Code,
    employeeId: Id,
    slotId: Option<Id>,
    weekKey: Option<int>,
    snapshot: seq<Assignment>)

  function InstanceOf(w: Warning, snapshot: seq<Assignment>): Instance
  {
    Instance(w.code, w.employeeId, w.slotId, w.weekKey, snapshot)
  }

  predicate SameIdentity(v: Warning, w: Warning)
  {
    v.code == w.code && v.employeeId == w.employeeId && v.slotId == w.slotId && v.weekKey == w.weekKey
  }

  /** Two warnings are one instance exactly when they have one identity and were found in the same
      rows, in whatever order: an acknowledgement does not survive a change of the rows. */
  lemma InstanceIsIdentityAndRows(v: Warning, a: seq<Assignment>, w: Warning, b: seq<Assignment>)
    requires OncePerSlot(a)
    ensures InstanceOf(v, Snapshot(a)) == InstanceOf(w, Snapshot(b)) <==>
      SameIdentity(v, w) && multiset(a) == multiset(b)
  {
    SnapshotIsCanonical(a, b);
  }

  ghost predicate DistinctIdentities(ws: seq<Warning>)
  {
    forall i, j :: 0 <= i < j < |ws| ==> !SameIdentity(ws[i], ws[j])
  }

  lemma JoinDistinct(a: seq<Warning>, b: seq<Warning>)
    requires DistinctIdentities(a) && DistinctIdentities(b)
    requires forall v, w :: v in a && w in b ==> !SameIdentity(v, w)
    ensures DistinctIdentities(a + b)
  {
    var c := a + b;
    forall i, j | 0 <= i < j < |c| ensures !SameIdentity(c[i], c[j]) {
      if i < |a| <= j {
        assert c[i] in a && c[j] in b;
      } else if j < |a| {
        assert c[i] == a[i] && c[j] == a[j];
      } else {
        assert c[i] == b[i - |a|] && c[j] == b[j - |a|];
      }
    }
  }

  /** The judge reports under one code, and names the second shift. */
  ghost predicate NamesSecond(judge: Judge, code: Code)
  {
    forall a, b :: judge(a, b).Some? ==>
      var w := judge(a, b).value;
      w.code == code && w.employeeId == b.employeeId && w.slotId == Some(b.slotId)
  }

  lemma NeighboursNamed(judge: Judge, code: Code, sorted: seq<Assignment>, w: Warning)
    requires NamesSecond(judge, code) && w in Neighbours(judge, sorted)
    ensures w.code == code && exists a :: a in sorted && w.employeeId == a.employeeId && w.slotId == Some(a.slotId)
  {
    NeighboursFind(judge, sorted, w);
    var i :| FoundAt(judge, sorted, i, w);
    assert sorted[i] in sorted;
  }

  lemma {:induction false} NeighboursDistinct(judge: Judge, code: Code, sorted: seq<Assignment>)
    requires NamesSecond(judge, code) && OncePerSlot(sorted)
    ensures DistinctIdentities(Neighbours(judge, sorted))
  {
    if |sorted| >= 2 {
      var n := |sorted| - 1;
      NeighboursDistinct(judge, code, sorted[..n]);
      var last := Listed(judge(sorted[n - 1], sorted[n]));
      forall v, w | v in Neighbours(judge, sorted[..n]) && w in last ensures !SameIdentity(v, w) {
        NeighboursNamed(judge, code, sorted[..n], v);
        var a :| a in sorted[..n] && v.employeeId == a.employeeId && v.slotId == Some(a.slotId);
        var i :| 0 <= i < n && sorted[i] == a;
        assert !(sorted[i].employeeId == sorted[n].employeeId && sorted[i].slotId == sorted[n].slotId);
      }
      JoinDistinct(Neighbours(judge, sorted[..n]), last);
    }
  }

  lemma SortedOncePerSlot(xs: seq<Assignment>, e: Id)
    requires OncePerSlot(xs)
    ensures OncePerSlot(InStartOrder(xs, e))
  {
    OncePerSlotMembers(xs);
    InStartOrderFacts(xs, e);
    var sorted := InStartOrder(xs, e);
    forall i, j | 0 <= i < j < |sorted|
      ensures !(sorted[i].employeeId == sorted[j].employeeId && sorted[i].slotId == sorted[j].slotId)
    {
      assert sorted[i] in sorted && sorted[j] in sorted && sorted[i] != sorted[j];
    }
  }

  lemma NamedEmployee(judge: Judge, code: Code, xs: seq<Assignment>, e: Id, w: Warning)
    requires NamesSecond(judge, code) && w in Neighbours(judge, InStartOrder(xs, e))
    ensures w.employeeId == e && w.code == code
  {
    InStartOrderFacts(xs, e);
    NeighboursNamed(judge, code, InStartOrder(xs, e), w);
  }

  lemma ByEmployeeNamed(judge: Judge, code: Code, xs: seq<Assignment>, employees: seq<Id>, w: Warning)
    requires NamesSecond(judge, code) && w in ByEmployee(judge, xs, employees)
    ensures w.employeeId in employees && w.code == code
  {
    ByEmployeeFinds(judge, xs, employees, w);
    var e :| e in employees && w in Neighbours(judge, InStartOrder(xs, e));
    NamedEmployee(judge, code, xs, e, w);
  }

  lemma {:induction false} ByEmployeeDistinct(judge: Judge, code: Code, xs: seq<Assignment>, employees: seq<Id>)
    requires NamesSecond(judge, code) && OncePerSlot(xs) && NoDuplicates(employees)
    ensures DistinctIdentities(ByEmployee(judge, xs, employees))
  {
    if employees != [] {
      var n := |employees| - 1;
      ByEmployeeDistinct(judge, code, xs, employees[..n]);
      SortedOncePerSlot(xs, employees[n]);
      var last := Neighbours(judge, InStartOrder(xs, employees[n]));
      NeighboursDistinct(judge, code, InStartOrder(xs, employees[n]));
      forall v, w | v in ByEmployee(judge, xs, employees[..n]) && w in last ensures !SameIdentity(v, w) {
        ByEmployeeNamed(judge, code, xs, employees[..n], v);
        NamedEmployee(judge, code, xs, employees[n], w);
      }
      JoinDistinct(ByEmployee(judge, xs, employees[..n]), last);
    }
  }

  lemma ReviewsNamed(a: Assignment, w: Warning)
    requires w in ReviewsOf(a)
    ensures w.employeeId == a.employeeId && w.slotId == Some(a.slotId)
    ensures w.code == NightWorkReview || w.code == WeekendOrHolidayReview
  {
  }

  lemma {:induction false} ReviewsDistinct(xs: seq<Assignment>)
    requires OncePerSlot(xs)
    ensures DistinctIdentities(ReviewScan(xs))
  {
    if xs != [] {
      var n := |xs| - 1;
      ReviewsDistinct(xs[..n]);
      forall v, w | v in ReviewScan(xs[..n]) && w in ReviewsOf(xs[n]) ensures !SameIdentity(v, w) {
        ReviewScanFinds(xs[..n], v);
        var a :| a in xs[..n] && v in ReviewsOf(a);
        ReviewsNamed(a, v);
        ReviewsNamed(xs[n], w);
        var i :| 0 <= i < n && xs[i] == a;
        assert !(xs[i].employeeId == xs[n].employeeId && xs[i].slotId == xs[n].slotId);
      }
      JoinDistinct(ReviewScan(xs[..n]), ReviewsOf(xs[n]));
    }
  }

  lemma {:induction false} WeeklyDistinct(xs: seq<Assignment>, weeks: seq<(Id, int)>)
    requires NoDuplicates(weeks)
    ensures DistinctIdentities(WeeklyFor(xs, weeks))
  {
    if weeks != [] {
      var n := |weeks| - 1;
      WeeklyDistinct(xs, weeks[..n]);
      forall v, w | v in WeeklyFor(xs, weeks[..n]) && w in WeeklyOver(xs, weeks[n]) ensures !SameIdentity(v, w) {
        WeeklyForFinds(xs, weeks[..n], v);
        var k :| k in weeks[..n] && v in WeeklyOver(xs, k);
        assert k != weeks[n];
      }
      JoinDistinct(WeeklyFor(xs, weeks[..n]), WeeklyOver(xs, weeks[n]));
    }
  }

  lemma ReviewCodes(xs: seq<Assignment>, w: Warning)
    ensures w in ReviewScan(xs) ==> w.code == NightWorkReview || w.code == WeekendOrHolidayReview
  {
    ReviewScanFinds(xs, w);
    if a :| a in xs && w in ReviewsOf(a) {
      ReviewsNamed(a, w);
    }
  }

  lemma NeighbourCodes(xs: seq<Assignment>, minRestHours: int, w: Warning)
    ensures w in RestScan(xs, minRestHours) ==> w.code == MinRestUnderPolicy
    ensures w in ConsecutiveScan(xs) ==> w.code == ConsecutiveNightShiftsReview
  {
    if w in RestScan(xs, minRestHours) {
      ByEmployeeNamed(RestJudge(minRestHours), MinRestUnderPolicy, xs, Employees(xs), w);
    }
    if w in ConsecutiveScan(xs) {
      var nights := Filter(AtNight(), xs);
      ByEmployeeNamed(NightJudge(), ConsecutiveNightShiftsReview, nights, Employees(nights), w);
    }
  }

  /** The sections of an evaluation report under different codes. */
  lemma SectionCodes(xs: seq<Assignment>, minRestHours: int, w: Warning)
    ensures w in WeeklyScan(xs) ==> w.code == WeeklyHoursOver52
    ensures w in RestScan(xs, minRestHours) ==> w.code == MinRestUnderPolicy
    ensures w in ReviewScan(xs) ==> w.code == NightWorkReview || w.code == WeekendOrHolidayReview
    ensures w in ConsecutiveScan(xs) ==> w.code == ConsecutiveNightShiftsReview
  {
    WeeklyForFinds(xs, Weeks(xs), w);
    NeighbourCodes(xs, minRestHours, w);
    ReviewCodes(xs, w);
  }

  lemma {:induction false} FilterOncePerSlot(p: Assignment -> bool, xs: seq<Assignment>)
    requires OncePerSlot(xs)
    ensures OncePerSlot(Filter(p, xs))
  {
    OncePerSlotMembers(xs);
    FilterMembers(p, xs);
    FilterNoDuplicates(p, xs);
    var ys := Filter(p, xs);
    forall i, j | 0 <= i < j < |ys|
      ensures !(ys[i].employeeId == ys[j].employeeId && ys[i].slotId == ys[j].slotId)
    {
      assert ys[i] in ys && ys[j] in ys && ys[i] != ys[j];
    }
  }

  /** No two warnings of an evaluation have one identity. */
  lemma WarningsAreDistinct(xs: seq<Assignment>, minRestHours: int)
    requires OncePerSlot(xs)
    ensures DistinctIdentities(Evaluation(xs, minRestHours))
  {
    var nights := Filter(AtNight(), xs);
    var a, b, c, d := WeeklyScan(xs), RestScan(xs, minRestHours), ReviewScan(xs), ConsecutiveScan(xs);
    WeeksMembers(xs);
    WeeklyDistinct(xs, Weeks(xs));
    EmployeesMembers(xs);
    ByEmployeeDistinct(RestJudge(minRestHours), MinRestUnderPolicy, xs, Employees(xs));
    ReviewsDistinct(xs);
    FilterOncePerSlot(AtNight(), xs);
    EmployeesMembers(nights);
    ByEmployeeDistinct(NightJudge(), ConsecutiveNightShiftsReview, nights, Employees(nights));
    forall w: Warning ensures w in a ==> w.code == WeeklyHoursOver52
      ensures w in b ==> w.code == MinRestUnderPolicy
      ensures w in c ==> w.code == NightWorkReview || w.code == WeekendOrHolidayReview
      ensures w in d ==> w.code == ConsecutiveNightShiftsReview
    {
      SectionCodes(xs, minRestHours, w);
    }
    JoinDistinct(a, b);
    JoinDistinct(a + b, c);
    JoinDistinct(a + b + c, d);
  }

  lemma RearrangedOncePerSlot(a: seq<Assignment>, b: seq<Assignment>)
    requires multiset(a) == multiset(b) && OncePerSlot(a)
    ensures OncePerSlot(b)
  {
    OncePerSlotMembers(a);
    RearrangedDistinct(a, b);
    SameMembers(a, b);
    forall i, j | 0 <= i < j < |b|
      ensures !(b[i].employeeId == b[j].employeeId && b[i].slotId == b[j].slotId)
    {
      assert b[i] in b && b[j] in b && b[i] != b[j];
    }
  }

  // ----- looking a warning up by its instance -----

  /** Later warnings replace earlier ones with the same key. */
  function ByInstance(ws: seq<Warning>, snapshot: seq<Assignment>): map<Instance, Warning>
  {
    if ws == [] then map[]
    else
      var n := |ws| - 1;
      ByInstance(ws[..n], snapshot)[InstanceOf(ws[n], snapshot) := ws[n]]
  }

  lemma {:induction false} LookupFinds(ws: seq<Warning>, snapshot: seq<Assignment>, i: nat)
    requires DistinctIdentities(ws) && i < |ws|
    ensures InstanceOf(ws[i], snapshot) in ByInstance(ws, snapshot)
    ensures ByInstance(ws, snapshot)[InstanceOf(ws[i], snapshot)] == ws[i]
  {
    var n := |ws| - 1;
    if i < n {
      LookupFinds(ws[..n], snapshot, i);
      assert !SameIdentity(ws[i], ws[n]);
    }
  }

  /** Looking a warning up by its instance finds it: the table loses none, and the same
      instance is found in the evaluation of any rearrangement of the rows. */
  lemma InstancesSurviveRearranging(a: seq<Assignment>, b: seq<Assignment>, minRestHours: int, w: Warning)
    requires multiset(a) == multiset(b)
    requires DistinctStarts(a) && OneName(a) && OncePerSlot(a)
    requires w in Evaluation(a, minRestHours)
    ensures
      var key := InstanceOf(w, Snapshot(a));
      var table := ByInstance(Evaluation(b, minRestHours), Snapshot(b));
      key in table && table[key] == w
  {
    EvaluationIgnoresRowOrder(a, b, minRestHours);
    RearrangedOncePerSlot(a, b);
    WarningsAreDistinct(b, minRestHours);
    var ws := Evaluation(b, minRestHours);
    var i :| 0 <= i < |ws| && ws[i] == w;
    LookupFinds(ws, Snapshot(b), i);
  }
}
