/** Splitting the dates of a schedule into runs of consecutive calendar days. */
module DateRuns {
  import opened Sequences
  import opened Sorting

  type Run = run: seq<int> | run != [] witness [0]

  function Last<T>(xs: seq<T>): T
    requires xs != []
  {
    xs[|xs| - 1]
  }

  function Front<T>(xs: seq<T>): seq<T>
    requires xs != []
  {
    xs[..|xs| - 1]
  }

  /** The next date joins the last run when it is the day after it. */
  function Extend(runs: seq<Run>, date: int): seq<Run>
  {
    if runs != [] && date - Last(Last(runs)) == 1 then Front(runs) + [Last(runs) + [date]]
    else runs + [[date]]
  }

  function Runs(dates: seq<int>): seq<Run>
  {
    if dates == [] then [] else Extend(Runs(Front(dates)), Last(dates))
  }

  function Concat(runs: seq<Run>): seq<int>
  {
    if runs == [] then [] else Concat(Front(runs)) + Last(runs)
  }

  predicate ConsecutiveDays(run: Run)
  {
    forall i :: 0 <= i < |run| ==> run[i] == run[0] + i
  }

  /** Each run is a block of consecutive days, and no run continues the one before it. */
  predicate MaximalRuns(runs: seq<Run>)
  {
    && (forall k :: 0 <= k < |runs| ==> ConsecutiveDays(runs[k]))
    && (forall k :: 0 < k < |runs| ==> runs[k][0] - Last(runs[k - 1]) != 1)
  }

  // ----- the split, characterised -----

  lemma ExtendKeepsMaximal(runs: seq<Run>, date: int)
    requires MaximalRuns(runs)
    ensures MaximalRuns(Extend(runs, date))
    ensures Concat(Extend(runs, date)) == Concat(runs) + [date]
  {
    var longer := Extend(runs, date);
    if runs != [] && date - Last(Last(runs)) == 1 {
      assert ConsecutiveDays(Last(runs));
      assert Front(longer) == Front(runs);
      assert Concat(longer) == Concat(Front(runs)) + (Last(runs) + [date]);
    } else {
      assert Front(longer) == runs;
    }
  }

  lemma {:induction false} RunsAreMaximal(dates: seq<int>)
    ensures Concat(Runs(dates)) == dates
    ensures MaximalRuns(Runs(dates))
  {
    if dates != [] {
      RunsAreMaximal(Front(dates));
      ExtendKeepsMaximal(Runs(Front(dates)), Last(dates));
    }
  }

  /** Undoing the last step of the split. */
  function Peel(runs: seq<Run>): seq<Run>
    requires runs != []
  {
    if |Last(runs)| == 1 then Front(runs) else Front(runs) + [Front(Last(runs))]
  }

  lemma PeelUndoesExtend(runs: seq<Run>)
    requires MaximalRuns(runs) && runs != []
    ensures MaximalRuns(Peel(runs))
    ensures Concat(runs) == Concat(Peel(runs)) + [Last(Last(runs))]
    ensures Extend(Peel(runs), Last(Last(runs))) == runs
  {
    var last := Last(runs);
    var peeled := Peel(runs);
    assert ConsecutiveDays(last);
    assert runs == Front(runs) + [last];
    if |last| == 1 {
      assert last == [Last(last)];
    } else {
      assert Front(peeled) == Front(runs);
      assert last == Front(last) + [Last(last)];
      assert Last(last) - Last(Front(last)) == 1;
      assert ConsecutiveDays(Front(last));
    }
  }

  /** There is only one way to split dates into maximal runs. */
  lemma {:induction false} MaximalRunsAreUnique(runs: seq<Run>)
    requires MaximalRuns(runs)
    ensures Runs(Concat(runs)) == runs
    decreases |Concat(runs)|
  {
    if runs != [] {
      PeelUndoesExtend(runs);
      MaximalRunsAreUnique(Peel(runs));
      assert Front(Concat(runs)) == Concat(Peel(runs));
    }
  }

  // ----- the program's loop -----

  /** The loop of the program, which grows one run at a time. */
  method ConsecutiveDateSequences(dates: seq<int>) returns (sequences: seq<Run>)
    ensures sequences == Runs(dates)
  {
    sequences := [];
    var current: seq<int> := [];
    var i := 0;
    while i < |dates|
      invariant 0 <= i <= |dates|
      invariant current == [] ==> i == 0 && sequences == []
      invariant current != [] ==> sequences + [current] == Runs(dates[..i])
    {
      var date := dates[i];
      assert Front(dates[..i + 1]) == dates[..i];
      ghost var before: seq<Run> := if current == [] then [] else sequences + [current];
      assert Runs(dates[..i + 1]) == Extend(before, date);
      if current == [] {
        current := [date];
      } else if date - current[|current| - 1] == 1 {
        assert Front(before) == sequences;
        current := current + [date];
      } else {
        sequences := sequences + [current];
        current := [date];
      }
      i := i + 1;
    }
    assert dates[..i] == dates;
    if current != [] {
      sequences := sequences + [current];
    }
  }

  // ----- blocks of days lie in one run -----

  ghost predicate BlockIn(dates: seq<int>, first: int, last: int)
  {
    forall d | first <= d <= last :: d in dates
  }

  /** Days `first..last` are a stretch of `run`. */
  ghost predicate StretchOf(run: Run, first: int, last: int)
  {
    first <= last && exists i :: 0 <= i && i + last - first < |run| && run[i] == first
  }

  lemma LastOfExtended(runs: seq<Run>, date: int)
    ensures Extend(runs, date) != [] && Last(Last(Extend(runs, date))) == date
    ensures runs != [] && date - Last(Last(runs)) == 1 ==> |Last(Extend(runs, date))| == |Last(runs)| + 1
  {
  }

  /** The last run reaches back over every block of days that ends at the last date. */
  lemma {:induction false} LastRunCovers(dates: seq<int>, first: int)
    requires Increasing(dates) && dates != [] && first <= Last(dates)
    requires BlockIn(dates, first, Last(dates))
    ensures Runs(dates) != [] && |Last(Runs(dates))| > Last(dates) - first
    ensures Last(Last(Runs(dates))) == Last(dates)
  {
    var front, last := Front(dates), Last(dates);
    assert dates == front + [last];
    LastOfExtended(Runs(front), last);
    if first < last {
      assert last - 1 in dates;
      LastOfIncreasing(dates);
      EarlierBlock(dates, first, last - 1);
      LastRunCovers(front, first);
    }
  }

  lemma LastOfIncreasing(dates: seq<int>)
    requires Increasing(dates) && |dates| > 1 && Last(dates) - 1 in dates
    ensures Last(Front(dates)) == Last(dates) - 1
  {
    var n := |dates| - 1;
    var i :| 0 <= i < |dates| && dates[i] == dates[n] - 1;
    assert i <= n - 1;
    assert dates[i] <= dates[n - 1] < dates[n];
  }

  /** A block of consecutive days belongs to the dates exactly when it is a stretch of
      one of the runs. */
  lemma {:induction false} BlockIsStretch(dates: seq<int>, first: int, last: int)
    requires Increasing(dates) && first <= last
    ensures BlockIn(dates, first, last) <==> exists run :: run in Runs(dates) && StretchOf(run, first, last)
  {
    if run :| run in Runs(dates) && StretchOf(run, first, last) {
      StretchIsBlock(dates, run, first, last);
    }
    if BlockIn(dates, first, last) {
      BlockHasStretch(dates, first, last);
    }
  }

  lemma {:induction false} ConcatMembers(runs: seq<Run>, run: Run)
    requires run in runs
    ensures forall d :: d in run ==> d in Concat(runs)
  {
    if run != Last(runs) {
      assert runs == Front(runs) + [Last(runs)];
      ConcatMembers(Front(runs), run);
    }
  }

  lemma StretchIsBlock(dates: seq<int>, run: Run, first: int, last: int)
    requires run in Runs(dates) && StretchOf(run, first, last)
    ensures BlockIn(dates, first, last)
  {
    RunsAreMaximal(dates);
    ConcatMembers(Runs(dates), run);
    assert ConsecutiveDays(run);
    var i :| 0 <= i && i + last - first < |run| && run[i] == first;
    forall d | first <= d <= last ensures d in dates {
      assert run[i + d - first] == d;
    }
  }

  /** A stretch of a run survives when the runs are extended by one date. */
  lemma StretchSurvives(runs: seq<Run>, date: int, run: Run, first: int, last: int)
    requires run in runs && StretchOf(run, first, last)
    ensures exists later :: later in Extend(runs, date) && StretchOf(later, first, last)
  {
    var longer := Extend(runs, date);
    assert runs == Front(runs) + [Last(runs)];
    if run in longer {
    } else {
      assert run == Last(runs);
      var later := run + [date];
      assert later == Last(longer) && later in longer;
      var i :| 0 <= i && i + last - first < |run| && run[i] == first;
      assert later[i] == first;
      assert StretchOf(later, first, last);
    }
  }

  lemma LastRunHasStretch(dates: seq<int>, first: int)
    requires Increasing(dates) && dates != [] && first <= Last(dates) && BlockIn(dates, first, Last(dates))
    ensures exists run :: run in Runs(dates) && StretchOf(run, first, Last(dates))
  {
    LastRunCovers(dates, first);
    RunsAreMaximal(dates);
    var run := Last(Runs(dates));
    assert ConsecutiveDays(run);
    assert run[|run| - 1 - (Last(dates) - first)] == first;
    assert StretchOf(run, first, Last(dates));
  }

  lemma EarlierBlock(dates: seq<int>, first: int, last: int)
    requires dates != [] && BlockIn(dates, first, last) && last < Last(dates)
    ensures BlockIn(Front(dates), first, last)
  {
    forall d | first <= d <= last ensures d in Front(dates) {
      assert d in dates;
      var i :| 0 <= i < |dates| && dates[i] == d;
      assert Front(dates)[i] == d;
    }
  }

  lemma {:induction false} BlockHasStretch(dates: seq<int>, first: int, last: int)
    requires Increasing(dates) && first <= last && BlockIn(dates, first, last)
    ensures exists run :: run in Runs(dates) && StretchOf(run, first, last)
  {
    assert last in dates;
    if last == Last(dates) {
      LastRunHasStretch(dates, first);
    } else {
      assert last < Last(dates);
      EarlierBlock(dates, first, last);
      BlockHasStretch(Front(dates), first, last);
      var run :| run in Runs(Front(dates)) && StretchOf(run, first, last);
      StretchSurvives(Runs(Front(dates)), Last(dates), run, first, last);
    }
  }
}
