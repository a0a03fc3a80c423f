/** What the shift-type table keeps over every sequence of requests, valid or not, and what a
    stored row says of the request that was accepted. */
module ShiftTableRuns {
  import opened Options
  import opened Sequences
  import opened Sorting
  import opened ShiftSync
  import opened ShiftTable

  // ----- what is stored -----

  /** One requirement per role asked for, with the count and weight asked for. */
  lemma {:induction false} NeedsSayRequirements(requirements: seq<RoleNeed>)
    requires forall i, j :: 0 <= i < j < |requirements| ==> requirements[i].roleId != requirements[j].roleId
    ensures forall id :: id in NeedsOf(requirements) <==>
      exists i :: 0 <= i < |requirements| && requirements[i].roleId == id
    ensures forall i :: 0 <= i < |requirements| ==>
      NeedsOf(requirements)[requirements[i].roleId] == Need(requirements[i].count, requirements[i].unfilledWeight)
  {
    if requirements != [] {
      NeedsSayRequirements(requirements[..|requirements| - 1]);
    }
  }

  /** An accepted request's row says what the request said: its name, times, timezone and flags, its
      days in increasing order, and one requirement per role. */
  lemma AcceptedIsStored(t: Table, roles: set<Id>, call: Call)
    requires Accepted(t, roles, call)
    ensures
      var row, sent := Answered(t, roles, call)[Target(call)], Sent(call);
      && row.active == (if call.Post? then call.active else call.update.active)
      && row.def.name == sent.name && row.def.timezone == sent.timezone
      && row.def.startTime == sent.startTime && row.def.endTime == sent.endTime
      && row.def.crossesMidnight == sent.crossesMidnight
      && Increasing(row.def.weekdays) && (forall day :: day in row.def.weekdays <==> day in sent.weekdays)
      && (forall id :: id in row.def.needs <==>
            exists i :: 0 <= i < |sent.requirements| && sent.requirements[i].roleId == id)
      && (forall i :: 0 <= i < |sent.requirements| ==>
            row.def.needs[sent.requirements[i].roleId]
              == Need(sent.requirements[i].count, sent.requirements[i].unfilledWeight))
    ensures forall id :: id in t && id != Target(call) ==>
      id in Answered(t, roles, call) && Answered(t, roles, call)[id] == t[id]
  {
    SortedSetIncreasing(Sent(call).weekdays);
    NeedsSayRequirements(Sent(call).requirements);
  }

  // ----- what every table keeps -----

  predicate SoundNeed(n: Need)
  {
    1 <= n.count <= 20 && (n.unfilledWeight.Some? ==> 0 <= n.unfilledWeight.value)
  }

  ghost predicate SoundRow(row: Row, roles: set<Id>)
  {
    && 1 <= |row.def.name| <= 120 && 1 <= |row.def.timezone| <= 80
    && IsTime(row.def.startTime) && IsTime(row.def.endTime) && row.def.startTime != row.def.endTime
    && row.def.weekdays != [] && Increasing(row.def.weekdays)
    && (forall day :: day in row.def.weekdays ==> 0 <= day <= 6)
    && row.def.needs != map[]
    && (forall id :: id in row.def.needs ==> id in roles && SoundNeed(row.def.needs[id]))
  }

  ghost predicate SoundTable(t: Table, roles: set<Id>)
  {
    UniqueNames(t) && forall id :: id in t ==> SoundRow(t[id], roles)
  }

  lemma StoredIsSound(t: Table, roles: set<Id>, call: Call)
    requires Accepted(t, roles, call)
    ensures SoundRow(RowOf(call), roles)
  {
    var sent, needs := Sent(call), RowOf(call).def.needs;
    SortedSetIncreasing(sent.weekdays);
    NeedsSayRequirements(sent.requirements);
    var first := sent.weekdays[0];
    assert first in sent.weekdays && first in SortedSet(sent.weekdays);
    forall day | day in SortedSet(sent.weekdays) ensures 0 <= day <= 6 {
      var i :| 0 <= i < |sent.weekdays| && sent.weekdays[i] == day;
    }
    assert sent.requirements[0].roleId in needs;
    forall id | id in needs ensures id in roles && SoundNeed(needs[id]) {
      var i :| 0 <= i < |sent.requirements| && sent.requirements[i].roleId == id;
      assert ValidNeed(sent.requirements[i], roles);
    }
  }

  lemma AnswerKeepsSound(t: Table, roles: set<Id>, call: Call)
    requires SoundTable(t, roles)
    ensures SoundTable(Answered(t, roles, call), roles)
  {
    if Accepted(t, roles, call) {
      StoredIsSound(t, roles, call);
    }
  }

  /** Over every sequence of requests, whatever they say: names stay unique, every row's start and
      end are times that differ, its days are days of the week in increasing order, and its requirements are for
      known roles, within their bounds. */
  lemma {:induction false} TableStaysSound(t: Table, roles: set<Id>, calls: seq<Call>)
    requires SoundTable(t, roles)
    ensures SoundTable(AfterAll(t, roles, calls), roles)
    decreases |calls|
  {
    if calls != [] {
      AnswerKeepsSound(t, roles, calls[0]);
      TableStaysSound(Answered(t, roles, calls[0]), roles, calls[1..]);
    }
  }
}
