/** Reconciling an organization's shift types with the coverage an operator picked: the
    planner, the shift-type table behind the API, and the convergence of one with the
    other. */
module ShiftSync {
  import opened Options
  import opened Sequences
  import opened Sorting

  datatype Preset = Day | Morning | Afternoon | Night

  datatype DayGroup = Weekday | Weekend

  datatype Coverage = Coverage(weekday: seq<Preset>, weekend: seq<Preset>)

  datatype RoleIds = RoleIds(senior: Id, junior: Id)

  /** The scenario's requests leave the weight out. */
  datatype RoleNeed = RoleNeed(roleId: Id, count: int, unfilledWeight: Option<int>)

  datatype Request = Request(
    name: string,
    startTime: string,
    endTime: string,
    timezone: string,
    crossesMidnight: bool,
    weekdays: seq<int>,
    requirements: seq<RoleNeed>)

  datatype Update = Update(id: Id, request: Request, active: bool)

  datatype Plan = Plan(creates: seq<Request>, updates: seq<Update>)

  /** What the planner looks at in an existing shift type. */
  datatype Existing = Existing(id: Id, name: string, active: bool)

  // ----- the scenario's shift types -----

  const ALL_PRESETS: seq<Preset> := [Day, Morning, Afternoon, Night]

  const DEFAULT_COVERAGE := Coverage([Morning, Afternoon], [Day])

  function GroupLabel(g: DayGroup): string
  {
    match g
    case Weekday => "\U{d3c9}\U{c77c}"
    case Weekend => "\U{c8fc}\U{b9d0}"
  }

  function GroupDays(g: DayGroup): seq<int>
  {
    match g
    case Weekday => [0, 1, 2, 3, 4]
    case Weekend => [5, 6]
  }

  function NamePart(p: Preset): string
  {
    match p
    case Day => "\U{c8fc}\U{ac04}"
    case Morning => "\U{c624}\U{c804}"
    case Afternoon => "\U{c624}\U{d6c4}"
    case Night => "\U{c57c}\U{ac04}"
  }

  function StartTime(p: Preset): string
  {
    match p
    case Day => "09:00"
    case Morning => "06:00"
    case Afternoon => "14:00"
    case Night => "22:00"
  }

  function EndTime(p: Preset): string
  {
    match p
    case Day => "18:00"
    case Morning => "14:00"
    case Afternoon => "22:00"
    case Night => "06:00"
  }

  function NameOf(g: DayGroup, p: Preset): string
  {
    GroupLabel(g) + " " + NamePart(p) + " \U{adfc}\U{bb34}"
  }

  function RequestFor(g: DayGroup, p: Preset, roles: RoleIds): Request
  {
    Request(NameOf(g, p), StartTime(p), EndTime(p), "Asia/Seoul", p == Night, GroupDays(g),
            [RoleNeed(roles.senior, 1, None), RoleNeed(roles.junior, 1, None)])
  }

  lemma NamesDiffer(g: DayGroup, p: Preset, h: DayGroup, q: Preset)
    ensures NameOf(g, p) == NameOf(h, q) <==> g == h && p == q
  {
    var m, n := NameOf(g, p), NameOf(h, q);
    assert m[0] == GroupLabel(g)[0] && n[0] == GroupLabel(h)[0];
    assert m[3] == NamePart(p)[0] && n[3] == NamePart(q)[0];
    assert m[4] == NamePart(p)[1] && n[4] == NamePart(q)[1];
  }

  // ----- normalizing the coverage -----

  ghost function Members(ps: seq<Preset>): set<Preset> { set p | p in ps }

  ghost function InSet(chosen: set<Preset>): Preset -> bool { (p: Preset) => p in chosen }

  /** The chosen presets, in catalogue order, each once. */
  ghost function Selected(ps: seq<Preset>): seq<Preset> { Filter(InSet(Members(ps)), ALL_PRESETS) }

  ghost function Normalized(c: Coverage): Coverage
  {
    if c.weekday == [] && c.weekend == [] then DEFAULT_COVERAGE
    else Coverage(Selected(c.weekday), Selected(c.weekend))
  }

  lemma EveryPreset(p: Preset)
    ensures p in ALL_PRESETS
  {
    match p {
      case Day => assert ALL_PRESETS[0] == p;
      case Morning => assert ALL_PRESETS[1] == p;
      case Afternoon => assert ALL_PRESETS[2] == p;
      case Night => assert ALL_PRESETS[3] == p;
    }
  }

  lemma SelectedMembers(ps: seq<Preset>)
    ensures forall p :: p in Selected(ps) <==> p in ps
    ensures NoDuplicates(Selected(ps))
    ensures Selected(ps) == [] <==> ps == []
  {
    FilterMembers(InSet(Members(ps)), ALL_PRESETS);
    FilterNoDuplicates(InSet(Members(ps)), ALL_PRESETS);
    forall p ensures p in ALL_PRESETS {
      EveryPreset(p);
    }
    if ps != [] {
      assert ps[0] in Selected(ps);
    }
    if Selected(ps) != [] {
      assert Selected(ps)[0] in Selected(ps);
    }
  }

  method NormalizeShiftIds(shiftIds: seq<Preset>) returns (ids: seq<Preset>)
    ensures ids == Selected(shiftIds)
  {
    var selected: set<Preset> := {};
    for i := 0 to |shiftIds|
      invariant selected == Members(shiftIds[..i])
    {
      selected := selected + {shiftIds[i]};
    }
    assert shiftIds[..|shiftIds|] == shiftIds;
    ids := [];
    for i := 0 to |ALL_PRESETS|
      invariant ids == Filter(InSet(selected), ALL_PRESETS[..i])
    {
      assert ALL_PRESETS[..i + 1] == ALL_PRESETS[..i] + [ALL_PRESETS[i]];
      FilterStep(InSet(selected), ALL_PRESETS[..i], ALL_PRESETS[i]);
      if ALL_PRESETS[i] in selected {
        ids := ids + [ALL_PRESETS[i]];
      }
    }
    assert ALL_PRESETS[..|ALL_PRESETS|] == ALL_PRESETS;
  }

  method NormalizeShiftCoverage(c: Coverage) returns (n: Coverage)
    ensures n == Normalized(c)
  {
    var weekday := NormalizeShiftIds(c.weekday);
    var weekend := NormalizeShiftIds(c.weekend);
    SelectedMembers(c.weekday);
    SelectedMembers(c.weekend);
    n := if weekday == [] && weekend == [] then DEFAULT_COVERAGE else Coverage(weekday, weekend);
  }

  // ----- the requests a coverage asks for -----

  ghost function RequestIn(g: DayGroup, roles: RoleIds): Preset -> Request
  {
    (p: Preset) => RequestFor(g, p, roles)
  }

  ghost function Desired(c: Coverage, roles: RoleIds): seq<Request>
  {
    var n := Normalized(c);
    Map(RequestIn(Weekday, roles), n.weekday) + Map(RequestIn(Weekend, roles), n.weekend)
  }

  method RequestsOf(g: DayGroup, presets: seq<Preset>, roles: RoleIds) returns (requests: seq<Request>)
    ensures requests == Map(RequestIn(g, roles), presets)
  {
    requests := [];
    for i := 0 to |presets|
      invariant requests == Map(RequestIn(g, roles), presets[..i])
    {
      requests := requests + [RequestFor(g, presets[i], roles)];
    }
    assert presets[..|presets|] == presets;
  }

  method BuildShiftTypeRequests(c: Coverage, roles: RoleIds) returns (requests: seq<Request>)
    ensures requests == Desired(c, roles)
  {
    var n := NormalizeShiftCoverage(c);
    var weekday := RequestsOf(Weekday, n.weekday, roles);
    var weekend := RequestsOf(Weekend, n.weekend, roles);
    requests := weekday + weekend;
  }

  /** The operator wants preset `p` on the days of group `g`. With nothing picked at all, the
      default coverage applies. */
  predicate Picked(c: Coverage, g: DayGroup, p: Preset)
  {
    var chosen := if c.weekday == [] && c.weekend == [] then DEFAULT_COVERAGE else c;
    p in if g == Weekday then chosen.weekday else chosen.weekend
  }

  lemma NormalizedPicks(c: Coverage)
    ensures forall p :: p in Normalized(c).weekday <==> Picked(c, Weekday, p)
    ensures forall p :: p in Normalized(c).weekend <==> Picked(c, Weekend, p)
    ensures NoDuplicates(Normalized(c).weekday) && NoDuplicates(Normalized(c).weekend)
  {
    SelectedMembers(c.weekday);
    SelectedMembers(c.weekend);
  }

  lemma DesiredMembers(c: Coverage, roles: RoleIds, r: Request)
    ensures r in Desired(c, roles) <==> exists g, p :: Picked(c, g, p) && r == RequestFor(g, p, roles)
  {
    NormalizedPicks(c);
    var n := Normalized(c);
    var weekday, weekend := Map(RequestIn(Weekday, roles), n.weekday), Map(RequestIn(Weekend, roles), n.weekend);
    if g, p :| Picked(c, g, p) && r == RequestFor(g, p, roles) {
      if g == Weekday {
        var i :| 0 <= i < |n.weekday| && n.weekday[i] == p;
        assert weekday[i] == r;
      } else {
        var i :| 0 <= i < |n.weekend| && n.weekend[i] == p;
        assert weekend[i] == r;
      }
    }
    if r in weekday {
      var i :| 0 <= i < |weekday| && weekday[i] == r;
      assert Picked(c, Weekday, n.weekday[i]);
    }
    if r in weekend {
      var i :| 0 <= i < |weekend| && weekend[i] == r;
      assert Picked(c, Weekend, n.weekend[i]);
    }
  }

  /** No two desired requests have one name. */
  lemma DesiredNamesDiffer(c: Coverage, roles: RoleIds, i: nat, j: nat)
    requires i < j < |Desired(c, roles)|
    ensures Desired(c, roles)[i].name != Desired(c, roles)[j].name
  {
    NormalizedPicks(c);
    var n := Normalized(c);
    var k := |n.weekday|;
    var g, p := if i < k then Weekday else Weekend, if i < k then n.weekday[i] else n.weekend[i - k];
    var h, q := if j < k then Weekday else Weekend, if j < k then n.weekday[j] else n.weekend[j - k];
    NamesDiffer(g, p, h, q);
  }

  // ----- the plan -----

  /** The last entry with a name wins, as in the program's name maps. */
  function FindExisting(existing: seq<Existing>, name: string): Option<Existing>
  {
    if existing == [] then None
    else if existing[|existing| - 1].name == name then Some(existing[|existing| - 1])
    else FindExisting(existing[..|existing| - 1], name)
  }

  function FindRequest(requests: seq<Request>, name: string): Option<Request>
  {
    if requests == [] then None
    else if requests[|requests| - 1].name == name then Some(requests[|requests| - 1])
    else FindRequest(requests[..|requests| - 1], name)
  }

  ghost function Creates(desired: seq<Request>, existing: seq<Existing>): seq<Request>
  {
    if desired == [] then []
    else
      var r := desired[|desired| - 1];
      Creates(desired[..|desired| - 1], existing) + if FindExisting(existing, r.name) == None then [r] else []
  }

  ghost function Keeps(desired: seq<Request>, existing: seq<Existing>): seq<Update>
  {
    if desired == [] then []
    else
      var r := desired[|desired| - 1];
      var found := FindExisting(existing, r.name);
      Keeps(desired[..|desired| - 1], existing) + if found.Some? then [Update(found.value.id, r, true)] else []
  }

  ghost function DropOf(x: Existing, desired: seq<Request>, scenario: seq<Request>): seq<Update>
  {
    var found := FindRequest(scenario, x.name);
    if FindRequest(desired, x.name) == None && found.Some? && x.active
    then [Update(x.id, found.value, false)] else []
  }

  ghost function Drops(existing: seq<Existing>, desired: seq<Request>, scenario: seq<Request>): seq<Update>
  {
    if existing == [] then []
    else
      Drops(existing[..|existing| - 1], desired, scenario) + DropOf(existing[|existing| - 1], desired, scenario)
  }

  const FULL_COVERAGE := Coverage(ALL_PRESETS, ALL_PRESETS)

  ghost function PlanFor(c: Coverage, roles: RoleIds, existing: seq<Existing>): Plan
  {
    var desired := Desired(c, roles);
    Plan(Creates(desired, existing), Keeps(desired, existing) + Drops(existing, desired, Desired(FULL_COVERAGE, roles)))
  }

  method NamesOf(requests: seq<Request>) returns (byName: map<string, Request>)
    ensures forall name :: FindRequest(requests, name) == if name in byName then Some(byName[name]) else None
  {
    byName := map[];
    for i := 0 to |requests|
      invariant forall name ::
        FindRequest(requests[..i], name) == if name in byName then Some(byName[name]) else None
    {
      assert requests[..i + 1][..i] == requests[..i];
      byName := byName[requests[i].name := requests[i]];
    }
    assert requests[..|requests|] == requests;
  }

  method ExistingNamesOf(existing: seq<Existing>) returns (byName: map<string, Existing>)
    ensures forall name :: FindExisting(existing, name) == if name in byName then Some(byName[name]) else None
  {
    byName := map[];
    for i := 0 to |existing|
      invariant forall name ::
        FindExisting(existing[..i], name) == if name in byName then Some(byName[name]) else None
    {
      assert existing[..i + 1][..i] == existing[..i];
      byName := byName[existing[i].name := existing[i]];
    }
    assert existing[..|existing|] == existing;
  }

  method CreateOrKeep(desired: seq<Request>, existing: seq<Existing>)
    returns (creates: seq<Request>, updates: seq<Update>)
    ensures creates == Creates(desired, existing) && updates == Keeps(desired, existing)
  {
    var existingByName := ExistingNamesOf(existing);
    creates, updates := [], [];
    for i := 0 to |desired|
      invariant creates == Creates(desired[..i], existing) && updates == Keeps(desired[..i], existing)
    {
      var r := desired[i];
      assert desired[..i + 1][..i] == desired[..i];
      assert FindExisting(existing, r.name) == if r.name in existingByName then Some(existingByName[r.name]) else None;
      if r.name !in existingByName {
        creates := creates + [r];
      } else {
        updates := updates + [Update(existingByName[r.name].id, r, true)];
      }
    }
    assert desired[..|desired|] == desired;
  }

  method DropOthers(existing: seq<Existing>, desired: seq<Request>, scenario: seq<Request>)
    returns (updates: seq<Update>)
    ensures updates == Drops(existing, desired, scenario)
  {
    var desiredByName := NamesOf(desired);
    var scenarioByName := NamesOf(scenario);
    updates := [];
    for i := 0 to |existing|
      invariant updates == Drops(existing[..i], desired, scenario)
    {
      var x := existing[i];
      assert existing[..i + 1][..i] == existing[..i];
      assert FindRequest(desired, x.name) == if x.name in desiredByName then Some(desiredByName[x.name]) else None;
      assert FindRequest(scenario, x.name) == if x.name in scenarioByName then Some(scenarioByName[x.name]) else None;
      if x.name !in desiredByName && x.name in scenarioByName && x.active {
        updates := updates + [Update(x.id, scenarioByName[x.name], false)];
      }
    }
    assert existing[..|existing|] == existing;
  }

  method PlanScenarioShiftTypeSync(c: Coverage, roles: RoleIds, existing: seq<Existing>) returns (plan: Plan)
    ensures plan == PlanFor(c, roles, existing)
  {
    var desired := BuildShiftTypeRequests(c, roles);
    var scenario := BuildShiftTypeRequests(FULL_COVERAGE, roles);
    var creates, kept := CreateOrKeep(desired, existing);
    var dropped := DropOthers(existing, desired, scenario);
    plan := Plan(creates, kept + dropped);
  }
}
