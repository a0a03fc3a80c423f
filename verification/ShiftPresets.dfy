/** What the scenario's shift types mean on the clock and in the week, and what the table says of
    them once it is reconciled. */
module ShiftPresets {
  import opened Options
  import opened Sequences
  import opened Sorting
  import opened ShiftSync
  import opened ShiftTable
  import opened ShiftConvergence
  import Compliance
  import ComplianceReviews

  function DigitValue(c: char): int { c as int - '0' as int }

  /** Minutes after midnight of a time such as 09:30. */
  function Minutes(t: string): int
    requires IsTime(t)
  {
    60 * (10 * DigitValue(t[0]) + DigitValue(t[1])) + 10 * DigitValue(t[3]) + DigitValue(t[4])
  }

  /** The shift is on at this minute of a day: from its start to its end, or, across midnight,
      from its start to midnight and from midnight to its end. */
  predicate On(r: Request, minute: int)
    requires IsTime(r.startTime) && IsTime(r.endTime)
  {
    var start, end := Minutes(r.startTime), Minutes(r.endTime);
    if r.crossesMidnight then start <= minute || minute < end else start <= minute < end
  }

  lemma PresetTimes(g: DayGroup, p: Preset, ids: RoleIds)
    ensures
      var r := RequestFor(g, p, ids);
      && IsTime(r.startTime) && IsTime(r.endTime)
      && Minutes(r.startTime) == (
           match p case Day => 9 * 60 case Morning => 6 * 60 case Afternoon => 14 * 60 case Night => 22 * 60)
      && Minutes(r.endTime) == (
           match p case Day => 18 * 60 case Morning => 14 * 60 case Afternoon => 22 * 60 case Night => 6 * 60)
  {
  }

  /** Every request built for a coverage crosses midnight exactly when its end reads earlier than
      its start, and asks for one senior and one junior. */
  lemma RequestsCrossMidnightIff(c: Coverage, ids: RoleIds, r: Request)
    requires r in Desired(c, ids)
    ensures IsTime(r.startTime) && IsTime(r.endTime) && r.timezone == "Asia/Seoul"
    ensures r.crossesMidnight <==> Minutes(r.endTime) < Minutes(r.startTime)
    ensures NeedsOf(r.requirements) == map[ids.senior := Need(1, None)][ids.junior := Need(1, None)]
  {
    DesiredMembers(c, ids, r);
    var g, p :| Picked(c, g, p) && r == RequestFor(g, p, ids);
    PresetTimes(g, p, ids);
    NeedsOfTwo(RoleNeed(ids.senior, 1, None), RoleNeed(ids.junior, 1, None));
  }

  lemma NeedsOfTwo(a: RoleNeed, b: RoleNeed)
    ensures NeedsOf([a, b])
      == map[a.roleId := Need(a.count, a.unfilledWeight)][b.roleId := Need(b.count, b.unfilledWeight)]
  {
    assert [a, b][..1] == [a] && [a][..0] == [];
    assert NeedsOf([a]) == map[a.roleId := Need(a.count, a.unfilledWeight)];
    assert NeedsOf([a, b]) == NeedsOf([a, b][..1])[b.roleId := Need(b.count, b.unfilledWeight)];
  }

  /** At any minute of the day exactly one of the morning, afternoon and night shifts is on, and
      the day shift is on from nine to six. */
  lemma ShiftsCoverTheDay(g: DayGroup, ids: RoleIds, minute: int)
    requires 0 <= minute < 24 * 60
    ensures forall p :: IsTime(RequestFor(g, p, ids).startTime) && IsTime(RequestFor(g, p, ids).endTime)
    ensures On(RequestFor(g, Morning, ids), minute) <==> 6 * 60 <= minute < 14 * 60
    ensures On(RequestFor(g, Afternoon, ids), minute) <==> 14 * 60 <= minute < 22 * 60
    ensures On(RequestFor(g, Night, ids), minute) <==>
      !On(RequestFor(g, Morning, ids), minute) && !On(RequestFor(g, Afternoon, ids), minute)
    ensures On(RequestFor(g, Day, ids), minute) <==> 9 * 60 <= minute < 18 * 60
  {
    forall p ensures IsTime(RequestFor(g, p, ids).startTime) && IsTime(RequestFor(g, p, ids).endTime) {
      PresetTimes(g, p, ids);
    }
    PresetTimes(g, Morning, ids);
    PresetTimes(g, Afternoon, ids);
    PresetTimes(g, Night, ids);
    PresetTimes(g, Day, ids);
  }

  /** Each day of the week, Monday 0 to Sunday 6, belongs to one of the two groups, once; Saturday
      and Sunday make up the weekend. */
  lemma GroupsPartitionTheWeek(ids: RoleIds, p: Preset, day: int)
    ensures day in RequestFor(Weekend, p, ids).weekdays <==> 5 <= day <= 6
    ensures day in RequestFor(Weekday, p, ids).weekdays <==> 0 <= day <= 4
    ensures forall g :: Increasing(RequestFor(g, p, ids).weekdays)
  {
    assert GroupDays(Weekend)[0] == 5 && GroupDays(Weekend)[1] == 6;
    var days := GroupDays(Weekday);
    assert days[0] == 0 && days[1] == 1 && days[2] == 2 && days[3] == 3 && days[4] == 4;
  }

  /** With nothing picked at all, weekdays get the morning and afternoon shifts and weekends the day
      shift; with anything picked, exactly what is picked. */
  lemma WhatIsPicked(c: Coverage, g: DayGroup, p: Preset)
    ensures Picked(c, g, p) <==>
      if c.weekday == [] && c.weekend == []
      then if g == Weekday then p == Morning || p == Afternoon else p == Day
      else if g == Weekday then p in c.weekday else p in c.weekend
  {
    var weekday, weekend := DEFAULT_COVERAGE.weekday, DEFAULT_COVERAGE.weekend;
    assert weekday[0] == Morning && weekday[1] == Afternoon && weekend[0] == Day;
  }

  function Rank(p: Preset): int
  {
    match p case Day => 0 case Morning => 1 case Afternoon => 2 case Night => 3
  }

  function RankOrder(): (Preset, Preset) -> bool { (p: Preset, q: Preset) => Rank(p) <= Rank(q) }

  /** A coverage's presets are kept in the order day, morning, afternoon, night, each once. */
  lemma PresetsAreInOrder(ps: seq<Preset>, i: nat, j: nat)
    requires i < j < |Selected(ps)|
    ensures Rank(Selected(ps)[i]) < Rank(Selected(ps)[j])
  {
    SelectedMembers(ps);
    FilterOrdered(RankOrder(), InSet(Members(ps)), ALL_PRESETS);
    assert RankOrder()(Selected(ps)[i], Selected(ps)[j]);
  }

  /** The compliance scan takes a scenario shift for a night shift by its name exactly when it is
      the night preset. */
  lemma NightIsNamed(g: DayGroup, p: Preset)
    ensures Compliance.Mentions(NameOf(g, p), Compliance.NIGHT_WORD) <==> p == Night
  {
    var name, word := NameOf(g, p), Compliance.NIGHT_WORD;
    ComplianceReviews.MentionsIff(name, word);
    assert |name| == 8 && |word| == 2;
    assert name[0] == GroupLabel(g)[0] && name[1] == GroupLabel(g)[1] && name[2] == ' ';
    assert name[3] == NamePart(p)[0] && name[4] == NamePart(p)[1] && name[5] == ' ';
    if p == Night {
      assert name[3..5] == word;
      assert ComplianceReviews.HeldAt(name, word, 3);
    }
    if i: nat :| ComplianceReviews.HeldAt(name, word, i) {
      assert name[i..i + 2][0] == word[0] && name[i..i + 2][1] == word[1];
      assert name[i] == word[0] && name[i + 1] == word[1];
    }
  }

  /** What a table says once it is reconciled: for each picked preset an active row of that name,
      with the preset's times, in Seoul time, on the days of its group, for one senior and one
      junior. */
  lemma ReconciledRowsSay(t: Table, c: Coverage, ids: RoleIds, g: DayGroup, p: Preset) returns (id: Id)
    requires Reconciled(t, c, ids) && Picked(c, g, p)
    ensures id in t && t[id].active && t[id].def.name == NameOf(g, p)
    ensures t[id].def.startTime == StartTime(p) && t[id].def.endTime == EndTime(p)
    ensures t[id].def.crossesMidnight <==> p == Night
    ensures t[id].def.timezone == "Asia/Seoul"
    ensures t[id].def.weekdays == if g == Weekday then [0, 1, 2, 3, 4] else [5, 6]
    ensures t[id].def.needs == map[ids.senior := Need(1, None)][ids.junior := Need(1, None)]
  {
    var r := RequestFor(g, p, ids);
    DesiredMembers(c, ids, r);
    id :| id in t && t[id] == Row(StoredAs(r), true);
    RequestsCrossMidnightIff(c, ids, r);
    GroupsPartitionTheWeek(ids, p, 0);
    SortedSetIncreasing(r.weekdays);
    IncreasingIsUnique(SortedSet(r.weekdays), r.weekdays);
  }
}
