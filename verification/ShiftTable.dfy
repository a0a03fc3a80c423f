/** The shift-type table behind the API, and what becomes of it under many requests. */
module ShiftTable {
  import opened Options
  import opened Sequences
  import opened Sorting
  import opened ShiftSync

  datatype Need = Need(count: int, unfilledWeight: Option<int>)

  /** What is stored of a shift type. */
  datatype Definition = Definition(
    name: string,
    startTime: string,
    endTime: string,
    timezone: string,
    crossesMidnight: bool,
    weekdays: seq<int>,
    needs: map<Id, Need>)

  datatype Row = Row(def: Definition, active: bool)

  type Table = map<Id, Row>

  /** Replacing all requirements at once: one per role, and a weight the request leaves out is
      not carried over. */
  function NeedsOf(requirements: seq<RoleNeed>): map<Id, Need>
  {
    if requirements == [] then map[]
    else
      var last := requirements[|requirements| - 1];
      NeedsOf(requirements[..|requirements| - 1])[last.roleId := Need(last.count, last.unfilledWeight)]
  }

  function StoredAs(r: Request): Definition
  {
    Definition(r.name, r.startTime, r.endTime, r.timezone, r.crossesMidnight, SortedSet(r.weekdays),
               NeedsOf(r.requirements))
  }

  // ----- the API -----

  predicate IsDigit(c: char) { '0' <= c <= '9' }

  /** Two digits, a colon, two digits. */
  predicate IsTime(t: string)
  {
    |t| == 5 && IsDigit(t[0]) && IsDigit(t[1]) && t[2] == ':' && IsDigit(t[3]) && IsDigit(t[4])
  }

  predicate ValidNeed(n: RoleNeed, roles: set<Id>)
  {
    1 <= n.count <= 20 && (n.unfilledWeight.Some? ==> 0 <= n.unfilledWeight.value) && n.roleId in roles
  }

  predicate ValidRequest(r: Request, roles: set<Id>)
  {
    && 1 <= |r.name| <= 120
    && IsTime(r.startTime) && IsTime(r.endTime) && 1 <= |r.timezone| <= 80
    && r.startTime != r.endTime
    && r.weekdays != []
    && (forall i :: 0 <= i < |r.weekdays| ==> 0 <= r.weekdays[i] <= 6)
    && (forall i, j :: 0 <= i < j < |r.weekdays| ==> r.weekdays[i] != r.weekdays[j])
    && r.requirements != []
    && (forall i :: 0 <= i < |r.requirements| ==> ValidNeed(r.requirements[i], roles))
    && (forall i, j :: 0 <= i < j < |r.requirements| ==> r.requirements[i].roleId != r.requirements[j].roleId)
  }

  /** Another row than `id` has this name. */
  predicate NameTaken(t: Table, name: string, id: Id)
  {
    exists x :: x in t && x != id && t[x].def.name == name
  }

  /** A request in flight. A new row gets an id that no row has. */
  datatype Call = Post(id: Id, request: Request, active: bool) | Patch(update: Update)

  function Target(c: Call): Id { if c.Post? then c.id else c.update.id }

  function Sent(c: Call): Request { if c.Post? then c.request else c.update.request }

  function RowOf(c: Call): Row { Row(StoredAs(Sent(c)), if c.Post? then c.active else c.update.active) }

  predicate Accepted(t: Table, roles: set<Id>, c: Call)
  {
    ValidRequest(Sent(c), roles) && (c.Post? <==> Target(c) !in t) && !NameTaken(t, Sent(c).name, Target(c))
  }

  function Answered(t: Table, roles: set<Id>, c: Call): Table
  {
    if Accepted(t, roles, c) then t[Target(c) := RowOf(c)] else t
  }

  class ShiftTypes {
    var rows: Table
    const roles: set<Id>

    constructor (rows: Table, roles: set<Id>)
      ensures this.rows == rows && this.roles == roles
    {
      this.rows, this.roles := rows, roles;
    }

    method CreateShiftType(id: Id, request: Request, active: bool) returns (accepted: bool)
      requires id !in rows
      modifies this
      ensures rows == Answered(old(rows), roles, Post(id, request, active))
      ensures accepted == Accepted(old(rows), roles, Post(id, request, active))
    {
      if !ValidRequest(request, roles) || NameTaken(rows, request.name, id) {
        return false;
      }
      var needs := StoreNeeds(request.requirements);
      var def := Definition(request.name, request.startTime, request.endTime, request.timezone,
                            request.crossesMidnight, SortedSet(request.weekdays), needs);
      rows := rows[id := Row(def, active)];
      accepted := true;
    }

    method UpdateShiftType(id: Id, request: Request, active: bool) returns (accepted: bool)
      modifies this
      ensures rows == Answered(old(rows), roles, Patch(Update(id, request, active)))
      ensures accepted == Accepted(old(rows), roles, Patch(Update(id, request, active)))
    {
      if id !in rows || !ValidRequest(request, roles) || NameTaken(rows, request.name, id) {
        return false;
      }
      var def := rows[id].def;
      def := def.(name := request.name, startTime := request.startTime, endTime := request.endTime);
      def := def.(timezone := request.timezone, crossesMidnight := request.crossesMidnight);
      def := def.(weekdays := SortedSet(request.weekdays));
      var needs := StoreNeeds(request.requirements);
      def := def.(needs := needs);
      rows := rows[id := Row(def, active)];
      accepted := true;
    }
  }

  method StoreNeeds(requirements: seq<RoleNeed>) returns (needs: map<Id, Need>)
    ensures needs == NeedsOf(requirements)
  {
    needs := map[];
    for i := 0 to |requirements|
      invariant needs == NeedsOf(requirements[..i])
    {
      assert requirements[..i + 1][..i] == requirements[..i];
      needs := needs[requirements[i].roleId := Need(requirements[i].count, requirements[i].unfilledWeight)];
    }
    assert requirements[..|requirements|] == requirements;
  }

  // ----- many requests -----

  ghost predicate UniqueNames(t: Table)
  {
    forall x, y :: x in t && y in t && t[x].def.name == t[y].def.name ==> x == y
  }

  predicate AllAccepted(t: Table, roles: set<Id>, calls: seq<Call>)
    decreases |calls|
  {
    calls == [] || (Accepted(t, roles, calls[0]) && AllAccepted(Answered(t, roles, calls[0]), roles, calls[1..]))
  }

  function AfterAll(t: Table, roles: set<Id>, calls: seq<Call>): Table
    decreases |calls|
  {
    if calls == [] then t else AfterAll(Answered(t, roles, calls[0]), roles, calls[1..])
  }

  /** Calls that touch different rows, keep the names of the rows they change, and give new
      rows new names. */
  ghost predicate Compatible(t: Table, roles: set<Id>, calls: seq<Call>)
  {
    && (forall i, j :: 0 <= i < j < |calls| ==>
          Target(calls[i]) != Target(calls[j]) && Sent(calls[i]).name != Sent(calls[j]).name)
    && (forall c :: c in calls ==> ValidRequest(Sent(c), roles))
    && (forall c :: c in calls && c.Post? ==> c.id !in t && !NameTaken(t, c.request.name, c.id))
    && (forall c :: c in calls && c.Patch? ==> c.update.id in t && t[c.update.id].def.name == c.update.request.name)
  }

  lemma FirstOfCompatible(t: Table, roles: set<Id>, calls: seq<Call>)
    requires UniqueNames(t) && Compatible(t, roles, calls) && calls != []
    ensures Accepted(t, roles, calls[0])
    ensures UniqueNames(Answered(t, roles, calls[0]))
    ensures Compatible(Answered(t, roles, calls[0]), roles, calls[1..])
  {
    var c := calls[0];
    assert c in calls;
    var next := Answered(t, roles, c);
    assert RowOf(c).def.name == Sent(c).name;
    forall d | d in calls[1..]
      ensures ValidRequest(Sent(d), roles)
      ensures d.Post? ==> d.id !in next && !NameTaken(next, d.request.name, d.id)
      ensures d.Patch? ==> d.update.id in next && next[d.update.id].def.name == d.update.request.name
    {
      var i :| 1 <= i < |calls| && calls[i] == d;
      assert d in calls && Target(calls[0]) != Target(calls[i]);
    }
  }

  lemma {:induction false} CompatibleCallsAccepted(t: Table, roles: set<Id>, calls: seq<Call>)
    requires UniqueNames(t) && Compatible(t, roles, calls)
    ensures AllAccepted(t, roles, calls)
    ensures UniqueNames(AfterAll(t, roles, calls))
    decreases |calls|
  {
    if calls != [] {
      FirstOfCompatible(t, roles, calls);
      CompatibleCallsAccepted(Answered(t, roles, calls[0]), roles, calls[1..]);
    }
  }

  /** At `id`, `after` is `t` with each call's row in place. */
  ghost predicate Overlaid(t: Table, calls: seq<Call>, after: Table, id: Id)
  {
    && (id in after <==> id in t || exists c :: c in calls && Target(c) == id)
    && (forall c :: c in calls && Target(c) == id ==> id in after && after[id] == RowOf(c))
    && (id in t && (forall c :: c in calls ==> Target(c) != id) ==> id in after && after[id] == t[id])
  }

  lemma NothingOverlaid(t: Table, id: Id)
    ensures Overlaid(t, [], t, id)
  {
  }

  lemma OverlaidFirst(t: Table, calls: seq<Call>, after: Table, id: Id)
    requires calls != []
    requires Overlaid(t[Target(calls[0]) := RowOf(calls[0])], calls[1..], after, id)
    requires forall i, j :: 0 <= i < j < |calls| ==> Target(calls[i]) != Target(calls[j])
    ensures Overlaid(t, calls, after, id)
  {
    var c, rest := calls[0], calls[1..];
    assert calls == [c] + rest;
    forall d ensures d in calls <==> d == c || d in rest {}
    forall d | d in rest ensures Target(d) != Target(c) {
      var i :| 1 <= i < |calls| && calls[i] == d;
    }
  }

  lemma {:induction false} CallsOverlay(t: Table, roles: set<Id>, calls: seq<Call>, id: Id)
    requires UniqueNames(t) && Compatible(t, roles, calls)
    ensures Overlaid(t, calls, AfterAll(t, roles, calls), id)
    decreases |calls|
  {
    if calls == [] {
      NothingOverlaid(t, id);
    } else {
      FirstOfCompatible(t, roles, calls);
      CallsOverlay(Answered(t, roles, calls[0]), roles, calls[1..], id);
      OverlaidFirst(t, calls, AfterAll(t, roles, calls), id);
    }
  }

  /** The table ends with each call's row in place and every other row as it was, whatever the
      order of the calls. */
  lemma CompatibleCallsOverlay(t: Table, roles: set<Id>, calls: seq<Call>, id: Id)
    requires UniqueNames(t) && Compatible(t, roles, calls)
    ensures id in AfterAll(t, roles, calls) <==> id in t || exists c :: c in calls && Target(c) == id
    ensures forall c :: c in calls && Target(c) == id ==>
      id in AfterAll(t, roles, calls) && AfterAll(t, roles, calls)[id] == RowOf(c)
    ensures id in t && (forall c :: c in calls ==> Target(c) != id) ==> AfterAll(t, roles, calls)[id] == t[id]
  {
    CallsOverlay(t, roles, calls, id);
  }
}
