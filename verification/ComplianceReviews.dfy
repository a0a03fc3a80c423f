/** Which rows draw which warning: each scan said as an if-and-only-if about the rows. */
module ComplianceReviews {
  import opened Options
  import opened Sequences
  import opened Sorting
  import opened Scheduling
  import opened Compliance
  import opened ComplianceMeaning
  import opened ComplianceIdentity

  // ----- clock times and days of the week -----

  predicate HeldAt(text: string, word: string, i: nat)
  {
    i + |word| <= |text| && text[i..i + |word|] == word
  }

  lemma HeldLater(text: string, word: string, i: nat)
    requires text != ""
    ensures HeldAt(text[1..], word, i) <==> HeldAt(text, word, i + 1)
  {
    if i + 1 + |word| <= |text| {
      var j := i + |word|;
      assert text[1..][i..j] == text[i + 1..j + 1];
    }
  }

  /** A text mentions a word exactly when it holds it at some place. */
  lemma {:induction false} MentionsIff(text: string, word: string)
    ensures Mentions(text, word) <==> exists i: nat :: HeldAt(text, word, i)
  {
    assert HeldAt(text, word, 0) <==> |word| <= |text| && text[..|word|] == word;
    if text != "" {
      MentionsIff(text[1..], word);
      forall i: nat ensures HeldAt(text[1..], word, i) <==> HeldAt(text, word, i + 1) {
        HeldLater(text, word, i);
      }
      if i: nat :| HeldAt(text, word, i) {
        assert i == 0 || HeldAt(text[1..], word, i - 1);
      }
    } else {
      assert forall i: nat :: HeldAt(text, word, i) ==> i == 0;
    }
  }

  /** A shift that starts `second` seconds into a day is a night shift when its label says so or
      it starts at ten in the evening or later, or before six in the morning. */
  lemma NightIsByLabelOrClock(a: Assignment, day: int, second: int)
    requires 0 <= second < 86400 && a.startsAt == day * 86400 + second
    ensures DayOf(a.startsAt) == day
    ensures IsNight(a) <==> Mentions(a.shiftLabel, NIGHT_WORD) || second >= 22 * 3600 || second < 6 * 3600
  {
  }

  /** With day 1 a Monday, weekend shifts are those that start on the sixth or seventh day of a
      Monday-anchored week. */
  lemma WeekendIsSaturdayOrSunday(a: Assignment, monday: int)
    requires monday % 7 == 1 && monday <= DayOf(a.startsAt) < monday + 7
    ensures OnWeekend(a) <==> DayOf(a.startsAt) in {monday + 5, monday + 6}
    ensures WeekOf(a) == WeekKey(monday)
  {
    var k := monday / 7;
    assert monday == 7 * k + 1;
  }

  // ----- reviews -----

  /** Some row of the employee in the slot is of this kind. */
  ghost predicate SomeRow(xs: seq<Assignment>, e: Id, slot: Id, kind: Assignment -> bool)
  {
    exists a :: a in xs && a.employeeId == e && a.slotId == slot && kind(a)
  }

  ghost predicate Listed(ws: seq<Warning>, code: Code, e: Id, slot: Id)
  {
    exists w :: w in ws && w.code == code && w.employeeId == e && w.slotId == Some(slot)
  }

  ghost function OnWeekends(): Assignment -> bool { (a: Assignment) => OnWeekend(a) }

  lemma ReviewSection(xs: seq<Assignment>, hours: int, w: Warning)
    requires w.code == NightWorkReview || w.code == WeekendOrHolidayReview
    ensures w in Evaluation(xs, hours) <==> w in ReviewScan(xs)
  {
    SectionCodes(xs, hours, w);
  }

  lemma RestSection(xs: seq<Assignment>, hours: int, w: Warning)
    ensures w in Evaluation(xs, hours) && w.code == MinRestUnderPolicy <==> w in RestScan(xs, hours)
  {
    SectionCodes(xs, hours, w);
  }

  lemma ConsecutiveSection(xs: seq<Assignment>, hours: int, w: Warning)
    ensures w in Evaluation(xs, hours) && w.code == ConsecutiveNightShiftsReview <==> w in ConsecutiveScan(xs)
  {
    SectionCodes(xs, hours, w);
  }

  lemma EvaluationSections(xs: seq<Assignment>, hours: int, w: Warning)
    ensures w in Evaluation(xs, hours) <==>
      w in WeeklyScan(xs) || w in RestScan(xs, hours) || w in ReviewScan(xs) || w in ConsecutiveScan(xs)
  {
  }

  lemma ReviewOfRow(a: Assignment, w: Warning)
    ensures w in ReviewsOf(a) <==>
      && w == Warning(w.code, Info, false, a.employeeId, a.employeeName, Some(a.slotId), None, None)
      && ((IsNight(a) && w.code == NightWorkReview) || (OnWeekend(a) && w.code == WeekendOrHolidayReview))
  {
  }

  /** An evaluation lists a night review for an employee and a slot exactly when some row of the
      employee in the slot is a night shift. */
  lemma NightReviewedIff(xs: seq<Assignment>, hours: int, e: Id, slot: Id)
    ensures Listed(Evaluation(xs, hours), NightWorkReview, e, slot) <==> SomeRow(xs, e, slot, AtNight())
  {
    if w :| w in Evaluation(xs, hours) && w.code == NightWorkReview && w.employeeId == e && w.slotId == Some(slot) {
      ReviewSection(xs, hours, w);
      ReviewScanFinds(xs, w);
      var a :| a in xs && w in ReviewsOf(a);
      ReviewOfRow(a, w);
      assert AtNight()(a);
    }
    if a :| a in xs && a.employeeId == e && a.slotId == slot && AtNight()(a) {
      var w := NightWarning(a);
      ReviewOfRow(a, w);
      ReviewScanFinds(xs, w);
      ReviewSection(xs, hours, w);
    }
  }

  /** And a weekend review exactly when some row of the employee in the slot starts on a
      Saturday or a Sunday. */
  lemma WeekendReviewedIff(xs: seq<Assignment>, hours: int, e: Id, slot: Id)
    ensures Listed(Evaluation(xs, hours), WeekendOrHolidayReview, e, slot) <==> SomeRow(xs, e, slot, OnWeekends())
  {
    var code := WeekendOrHolidayReview;
    if w :| w in Evaluation(xs, hours) && w.code == code && w.employeeId == e && w.slotId == Some(slot) {
      ReviewSection(xs, hours, w);
      ReviewScanFinds(xs, w);
      var a :| a in xs && w in ReviewsOf(a);
      ReviewOfRow(a, w);
      assert OnWeekends()(a);
    }
    if a :| a in xs && a.employeeId == e && a.slotId == slot && OnWeekends()(a) {
      var w := WeekendWarning(a);
      ReviewOfRow(a, w);
      ReviewScanFinds(xs, w);
      ReviewSection(xs, hours, w);
    }
  }

  // ----- rest -----

  /** `b` is the next shift of the employee of `a`. */
  ghost predicate Follows(xs: seq<Assignment>, a: Assignment, b: Assignment)
  {
    && a in xs && b in xs && a.employeeId == b.employeeId && a.startsAt < b.startsAt
    && forall c :: c in xs && c.employeeId == a.employeeId ==> c.startsAt <= a.startsAt || b.startsAt <= c.startsAt
  }

  /** In start order, neighbours are exactly the shifts that follow each other. */
  lemma NeighboursFollow(xs: seq<Assignment>, e: Id, i: int)
    requires DistinctStarts(xs) && NoDuplicates(xs) && 0 < i < |InStartOrder(xs, e)|
    ensures Follows(xs, InStartOrder(xs, e)[i - 1], InStartOrder(xs, e)[i])
    ensures InStartOrder(xs, e)[i].employeeId == e
  {
    var sorted := InStartOrder(xs, e);
    InStartOrderFacts(xs, e);
    var a, b := sorted[i - 1], sorted[i];
    assert a in sorted && b in sorted && a != b;
    assert StartLeq()(a, b);
    forall c | c in xs && c.employeeId == e ensures c.startsAt <= a.startsAt || b.startsAt <= c.startsAt {
      assert c in sorted;
      var k :| 0 <= k < |sorted| && sorted[k] == c;
      assert k < i - 1 ==> StartLeq()(c, a);
      assert i < k ==> StartLeq()(b, c);
    }
  }

  lemma FollowersAreNeighbours(xs: seq<Assignment>, a: Assignment, b: Assignment) returns (i: int)
    requires DistinctStarts(xs) && NoDuplicates(xs) && Follows(xs, a, b)
    ensures 0 < i < |InStartOrder(xs, b.employeeId)|
    ensures InStartOrder(xs, b.employeeId)[i - 1] == a && InStartOrder(xs, b.employeeId)[i] == b
  {
    var sorted := InStartOrder(xs, b.employeeId);
    InStartOrderFacts(xs, b.employeeId);
    i :| 0 <= i < |sorted| && sorted[i] == b;
    assert a in sorted;
    var j :| 0 <= j < |sorted| && sorted[j] == a;
    assert i < j ==> StartLeq()(b, a);
    assert sorted[i - 1] in sorted;
  }

  /** The judge speaks of two shifts, one following the other. */
  ghost predicate Judged(judge: Judge, xs: seq<Assignment>, a: Assignment, b: Assignment, w: Warning)
  {
    Follows(xs, a, b) && judge(a, b) == Some(w)
  }

  /** A scan by employee lists exactly what the judge says of shifts that follow each other. */
  lemma ScanJudgesFollowers(judge: Judge, xs: seq<Assignment>, w: Warning)
    requires DistinctStarts(xs) && NoDuplicates(xs)
    ensures w in ByEmployee(judge, xs, Employees(xs)) <==> exists a, b :: Judged(judge, xs, a, b, w)
  {
    ByEmployeeFinds(judge, xs, Employees(xs), w);
    if e :| e in Employees(xs) && w in Neighbours(judge, InStartOrder(xs, e)) {
      NeighboursFind(judge, InStartOrder(xs, e), w);
      var i :| FoundAt(judge, InStartOrder(xs, e), i, w);
      NeighboursFollow(xs, e, i);
      assert Judged(judge, xs, InStartOrder(xs, e)[i - 1], InStartOrder(xs, e)[i], w);
    }
    if a, b :| Judged(judge, xs, a, b, w) {
      FollowersAreListed(judge, xs, a, b, w);
    }
  }

  lemma FollowersAreListed(judge: Judge, xs: seq<Assignment>, a: Assignment, b: Assignment, w: Warning)
    requires DistinctStarts(xs) && NoDuplicates(xs) && Judged(judge, xs, a, b, w)
    ensures w in ByEmployee(judge, xs, Employees(xs))
  {
    var e := b.employeeId;
    var i := FollowersAreNeighbours(xs, a, b);
    assert FoundAt(judge, InStartOrder(xs, e), i, w);
    NeighboursFind(judge, InStartOrder(xs, e), w);
    EmployeesMembers(xs);
    ByEmployeeFinds(judge, xs, Employees(xs), w);
  }

  ghost predicate TooClose(xs: seq<Assignment>, hours: int, a: Assignment, b: Assignment, w: Warning)
  {
    && Follows(xs, a, b) && b.startsAt - a.endsAt < 3600 * hours
    && w == Warning(MinRestUnderPolicy, Caution, false, b.employeeId, b.employeeName, Some(b.slotId), None,
                    Some(b.startsAt - a.endsAt))
  }

  lemma JudgedIsTooClose(xs: seq<Assignment>, hours: int, a: Assignment, b: Assignment, w: Warning)
    ensures Judged(RestJudge(hours), xs, a, b, w) <==> TooClose(xs, hours, a, b, w)
  {
  }

  /** The rest warnings of an evaluation are exactly those for a shift that starts less than the
      minimum after the end of the employee's previous shift; each names the later shift and
      reports the rest there is. */
  lemma RestWarnedIff(xs: seq<Assignment>, hours: int, w: Warning)
    requires DistinctStarts(xs) && NoDuplicates(xs)
    ensures w in Evaluation(xs, hours) && w.code == MinRestUnderPolicy <==> exists a, b :: TooClose(xs, hours, a, b, w)
  {
    RestSection(xs, hours, w);
    ScanJudgesFollowers(RestJudge(hours), xs, w);
    forall a, b ensures Judged(RestJudge(hours), xs, a, b, w) <==> TooClose(xs, hours, a, b, w) {
      JudgedIsTooClose(xs, hours, a, b, w);
    }
  }

  ghost predicate NightAfterNight(xs: seq<Assignment>, a: Assignment, b: Assignment, w: Warning)
  {
    && Follows(Filter(AtNight(), xs), a, b) && DayOf(b.startsAt) == DayOf(a.startsAt) + 1
    && w == Warning(ConsecutiveNightShiftsReview, Caution, false, b.employeeId, b.employeeName, Some(b.slotId), None,
                    None)
  }

  /** The consecutive-night warnings are exactly those for a night shift that starts on the day
      after the employee's previous night shift; each names the later shift. */
  lemma ConsecutiveWarnedIff(xs: seq<Assignment>, hours: int, w: Warning)
    requires DistinctStarts(xs) && NoDuplicates(xs)
    ensures w in Evaluation(xs, hours) && w.code == ConsecutiveNightShiftsReview <==>
      exists a, b :: NightAfterNight(xs, a, b, w)
  {
    var nights := Filter(AtNight(), xs);
    FilterMembers(AtNight(), xs);
    FilterNoDuplicates(AtNight(), xs);
    ConsecutiveSection(xs, hours, w);
    ScanJudgesFollowers(NightJudge(), nights, w);
    forall a, b ensures Judged(NightJudge(), nights, a, b, w) <==> NightAfterNight(xs, a, b, w) {}
  }

  // ----- weekly hours -----

  /** What a row adds to the employee's time in the seven days from `monday`. */
  ghost function TimeFrom(e: Id, monday: int): Assignment -> int
  {
    (a: Assignment) => if a.employeeId == e && InWeekFrom(monday, DayOf(a.startsAt)) then a.endsAt - a.startsAt else 0
  }

  ghost predicate WarnsOfWeek(ws: seq<Warning>, e: Id, week: int, seconds: int)
  {
    exists w :: w in ws && w.code == WeeklyHoursOver52 && w.employeeId == e && w.weekKey == Some(week)
      && w.seconds == Some(seconds)
  }

  lemma TimeIsTotal(xs: seq<Assignment>, e: Id, monday: int)
    requires monday % 7 == 1
    ensures Total(xs, (e, WeekKey(monday))) == Sum(TimeFrom(e, monday), xs)
  {
    forall a ensures SecondsIn((e, WeekKey(monday)))(a) == TimeFrom(e, monday)(a) {
      WeekIsMondayToSunday(DayOf(a.startsAt), monday);
      assert InWeekFrom(monday, monday);
      if m :| InWeekFrom(m, DayOf(a.startsAt)) && InWeekFrom(m, monday) {
        assert m == monday;
      }
    }
    SumAgrees(SecondsIn((e, WeekKey(monday))), TimeFrom(e, monday), xs);
  }

  /** An evaluation warns about an employee's week, from Monday to Sunday, exactly when the shifts
      that start in it last more than 52 hours together; it reports how long. */
  lemma WeekWarnedIff(xs: seq<Assignment>, hours: int, e: Id, monday: int, seconds: int)
    requires monday % 7 == 1
    ensures WarnsOfWeek(Evaluation(xs, hours), e, WeekKey(monday), seconds) <==>
      seconds == Sum(TimeFrom(e, monday), xs) && seconds > 52 * 3600
  {
    var week := WeekKey(monday);
    TimeIsTotal(xs, e, monday);
    WeeklyWarnedIff(xs, e, week);
    forall w: Warning ensures w in Evaluation(xs, hours) && w.code == WeeklyHoursOver52 <==> w in WeeklyScan(xs) {
      SectionCodes(xs, hours, w);
    }
  }

  // ----- every warning -----

  function SeverityOf(code: Code): Severity
  {
    match code
    case WeeklyHoursOver52 => Blocking
    case MinRestUnderPolicy => Caution
    case ConsecutiveNightShiftsReview => Caution
    case NightWorkReview => Info
    case WeekendOrHolidayReview => Info
  }

  ghost predicate NamesARow(xs: seq<Assignment>, w: Warning)
  {
    exists a :: a in xs && a.employeeId == w.employeeId && a.employeeName == w.employeeName
  }

  /** Only warnings about the weekly limit block publishing, and only the two reviews are mere
      information. Every warning gives the name of a row of its employee. */
  lemma OnlyWeeklyBlocks(xs: seq<Assignment>, hours: int, w: Warning)
    requires w in Evaluation(xs, hours)
    ensures w.publishBlocking <==> w.code == WeeklyHoursOver52
    ensures w.severity == SeverityOf(w.code)
    ensures NamesARow(xs, w)
  {
    EvaluationSections(xs, hours, w);
    if w in WeeklyScan(xs) {
      WeeklyNames(xs, w);
    } else if w in ReviewScan(xs) {
      ReviewNames(xs, w);
    } else if w in RestScan(xs, hours) {
      RestNames(xs, hours, w);
    } else {
      ConsecutiveNames(xs, w);
    }
  }

  lemma {:induction false} LastNameIsAName(xs: seq<Assignment>, e: Id)
    requires exists a :: a in xs && a.employeeId == e
    ensures exists a :: a in xs && a.employeeId == e && a.employeeName == LastName(xs, e)
  {
    var n := |xs| - 1;
    assert xs == xs[..n] + [xs[n]];
    if xs[n].employeeId != e {
      LastNameIsAName(xs[..n], e);
    }
  }

  lemma WeeklyNames(xs: seq<Assignment>, w: Warning)
    requires w in WeeklyScan(xs)
    ensures w.publishBlocking && w.severity == Blocking && w.code == WeeklyHoursOver52 && NamesARow(xs, w)
  {
    WeeklyForFinds(xs, Weeks(xs), w);
    var k :| k in Weeks(xs) && w in WeeklyOver(xs, k);
    WeeksMembers(xs);
    LastNameIsAName(xs, k.0);
  }

  lemma ReviewNames(xs: seq<Assignment>, w: Warning)
    requires w in ReviewScan(xs)
    ensures !w.publishBlocking && w.severity == Info && NamesARow(xs, w)
    ensures w.code == NightWorkReview || w.code == WeekendOrHolidayReview
  {
    ReviewScanFinds(xs, w);
    var a :| a in xs && w in ReviewsOf(a);
    ReviewOfRow(a, w);
  }

  /** A judge that cautions about the second of two shifts. */
  ghost predicate Cautions(judge: Judge, code: Code)
  {
    forall a, b :: judge(a, b).Some? ==>
      var w := judge(a, b).value;
      && w.code == code && w.severity == Caution && !w.publishBlocking
      && w.employeeId == b.employeeId && w.employeeName == b.employeeName
  }

  lemma NeighbourNames(judge: Judge, code: Code, xs: seq<Assignment>, w: Warning)
    requires Cautions(judge, code) && w in ByEmployee(judge, xs, Employees(xs))
    ensures w.severity == Caution && !w.publishBlocking && w.code == code && NamesARow(xs, w)
  {
    ByEmployeeFinds(judge, xs, Employees(xs), w);
    var e :| e in Employees(xs) && w in Neighbours(judge, InStartOrder(xs, e));
    NeighboursFind(judge, InStartOrder(xs, e), w);
    var i :| FoundAt(judge, InStartOrder(xs, e), i, w);
    InStartOrderFacts(xs, e);
    assert InStartOrder(xs, e)[i] in InStartOrder(xs, e);
  }

  lemma RestNames(xs: seq<Assignment>, hours: int, w: Warning)
    requires w in RestScan(xs, hours)
    ensures w.severity == Caution && !w.publishBlocking && w.code == MinRestUnderPolicy && NamesARow(xs, w)
  {
    NeighbourNames(RestJudge(hours), MinRestUnderPolicy, xs, w);
  }

  lemma ConsecutiveNames(xs: seq<Assignment>, w: Warning)
    requires w in ConsecutiveScan(xs)
    ensures w.severity == Caution && !w.publishBlocking && w.code == ConsecutiveNightShiftsReview && NamesARow(xs, w)
  {
    var nights := Filter(AtNight(), xs);
    NeighbourNames(NightJudge(), ConsecutiveNightShiftsReview, nights, w);
    FilterMembers(AtNight(), xs);
  }
}
