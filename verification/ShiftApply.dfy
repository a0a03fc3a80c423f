/** Applying an accepted batch of shift-type rows. The result does not depend on the order of
    the rows, and applying the batch again changes nothing but fresh ids. */
module ShiftApply {
  import opened Options
  import opened Sequences
  import opened Sorting
  import opened ShiftImport
  import opened ShiftBatch

  datatype Stored = Stored(
    startTime: string,
    endTime: string,
    timezone: string,
    crossesMidnight: bool,
    weekdays: string,
    active: bool)

  /** One staffing requirement of a shift type. */
  datatype Need = Need(roleId: Id, requiredCount: int, unfilledWeight: Option<int>)

  /** What a shift type says; its requirements are the rows of another table. */
  datatype Content = Content(def: Stored, needs: multiset<Need>)

  datatype ShiftType = ShiftType(id: nat, content: Content)

  function StoredAs(d: Definition): Stored
  {
    Stored(d.startTime, d.endTime, d.timezone, d.crossesMidnight == Some(true), d.weekdays, d.active == Some(true))
  }

  /** How a row becomes a requirement. */
  type NeedOfRow = RowText -> Need

  function NeedFrom(r: Reader, roles: map<string, Id>): NeedOfRow
  {
    (row: RowText) =>
      Need(if row.roleName in roles then roles[row.roleName] else 0,
           if r.integer(row.requiredCount).Some? then r.integer(row.requiredCount).value else 0,
           r.integer(row.unfilledWeight))
  }

  // ----- the result of a batch -----

  ghost function OfType(name: string): RowText -> bool { (row: RowText) => row.shiftType == name }

  ghost function Group(rows: seq<RowText>, name: string): seq<RowText> { Filter(OfType(name), rows) }

  ghost predicate Named(rows: seq<RowText>, name: string) { Group(rows, name) != [] }

  ghost function ContentOf(key: DefinitionOf, need: NeedOfRow, group: seq<RowText>): Content
    requires group != []
  {
    Content(StoredAs(key(group[0])), multiset(Map(need, group)))
  }

  ghost function Contents(types: map<string, ShiftType>): map<string, Content>
  {
    map name | name in types :: types[name].content
  }

  /** `after` is what a batch makes of `before`: named shift types say what their rows say, the
      others what they said. */
  ghost predicate BecomesBy(key: DefinitionOf, need: NeedOfRow, before: map<string, Content>, rows: seq<RowText>,
                            after: map<string, Content>)
  {
    && (forall name :: name in after <==> name in before || Named(rows, name))
    && (forall name :: Named(rows, name) ==> name in after && after[name] == ContentOf(key, need, Group(rows, name)))
    && (forall name :: name in before && !Named(rows, name) ==> name in after && after[name] == before[name])
  }

  /** The shift type says what its rows say. */
  ghost predicate SaysRows(key: DefinitionOf, need: NeedOfRow, rows: seq<RowText>, types: map<string,
                           ShiftType>, name: string)
  {
    Named(rows, name) && name in types && types[name].content == ContentOf(key, need, Group(rows, name))
  }

  // ----- the loops -----

  ghost predicate ListsKeys(names: seq<string>, groups: map<string, seq<RowText>>)
  {
    NoDuplicates(names) && forall name :: name in names <==> name in groups
  }

  ghost predicate HoldsGroup(rows: seq<RowText>, groups: map<string, seq<RowText>>, name: string)
  {
    Group(rows, name) == if name in groups then groups[name] else []
  }

  ghost predicate GroupedRows(rows: seq<RowText>, groups: map<string, seq<RowText>>)
  {
    forall name :: HoldsGroup(rows, groups, name) && (name in groups ==> groups[name] != [])
  }

  lemma GroupStep(rows: seq<RowText>, row: RowText, name: string)
    ensures Group(rows + [row], name) == if row.shiftType == name then Group(rows, name) + [row] else Group(rows, name)
  {
    FilterStep(OfType(name), rows, row);
    assert Group(rows, name) + [] == Group(rows, name);
  }

  lemma GroupedRowsStep(rows: seq<RowText>, groups: map<string, seq<RowText>>, row: RowText, group: seq<RowText>)
    requires GroupedRows(rows, groups)
    requires group == if row.shiftType in groups then groups[row.shiftType] else []
    ensures GroupedRows(rows + [row], groups[row.shiftType := group + [row]])
  {
    var after := groups[row.shiftType := group + [row]];
    forall name ensures HoldsGroup(rows + [row], after, name) {
      GroupStep(rows, row, name);
      assert HoldsGroup(rows, groups, name);
    }
  }

  method GroupRows(rows: seq<RowText>) returns (names: seq<string>, groups: map<string, seq<RowText>>)
    ensures ListsKeys(names, groups) && GroupedRows(rows, groups)
  {
    names, groups := [], map[];
    for i := 0 to |rows|
      invariant ListsKeys(names, groups) && GroupedRows(rows[..i], groups)
    {
      var name := rows[i].shiftType;
      if name !in groups {
        names := names + [name];
      }
      var group := if name in groups then groups[name] else [];
      TakeNext(rows, i);
      GroupedRowsStep(rows[..i], groups, rows[i], group);
      groups := groups[name := group + [rows[i]]];
    }
    assert rows[..|rows|] == rows;
  }

  lemma GroupAt(rows: seq<RowText>, names: seq<string>, groups: map<string, seq<RowText>>, k: nat)
    requires ListsKeys(names, groups) && GroupedRows(rows, groups) && k < |names|
    ensures names[k] in groups && groups[names[k]] == Group(rows, names[k]) && Named(rows, names[k])
  {
    assert names[k] in names && HoldsGroup(rows, groups, names[k]);
  }

  lemma NamesAreNamed(rows: seq<RowText>, names: seq<string>, groups: map<string, seq<RowText>>)
    requires ListsKeys(names, groups) && GroupedRows(rows, groups)
    ensures forall name :: name in names <==> Named(rows, name)
  {
    forall name ensures name in names <==> Named(rows, name) {
      assert HoldsGroup(rows, groups, name);
    }
  }

  method Requirements(need: NeedOfRow, group: seq<RowText>) returns (needs: multiset<Need>)
    ensures needs == multiset(Map(need, group))
  {
    needs := multiset{};
    for i := 0 to |group|
      invariant needs == multiset(Map(need, group[..i]))
    {
      assert Map(need, group[..i + 1]) == Map(need, group[..i]) + [need(group[i])];
      needs := needs + multiset{need(group[i])};
    }
    assert group[..|group|] == group;
  }

  /** The shift types named in `done` have been applied, and no others. */
  ghost predicate AppliedSoFar(key: DefinitionOf, need: NeedOfRow, rows: seq<RowText>, before: map<string, ShiftType>,
                               types: map<string, ShiftType>, done: seq<string>)
  {
    && (forall name :: name in types <==> name in before || name in done)
    && (forall name :: name in done ==> SaysRows(key, need, rows, types, name))
    && (forall name :: name in before && name !in done ==> types[name] == before[name])
  }

  ghost predicate IdsKept(before: map<string, ShiftType>, types: map<string, ShiftType>, firstNew: nat)
  {
    && (forall name :: name in before ==> name in types && types[name].id == before[name].id)
    && (forall name :: name in types && name !in before ==> firstNew <= types[name].id)
  }

  lemma IdsKeptOneMore(before: map<string, ShiftType>, types: map<string, ShiftType>, firstNew: nat, name: string,
                       after: map<string, ShiftType>)
    requires IdsKept(before, types, firstNew)
    requires after.Keys == types.Keys + {name}
    requires if name in types then after[name].id == types[name].id else firstNew <= after[name].id
    requires forall x :: x in types && x != name ==> after[x] == types[x]
    ensures IdsKept(before, after, firstNew)
  {
  }

  lemma AppliedOneMore(key: DefinitionOf, need: NeedOfRow, rows: seq<RowText>, before: map<string, ShiftType>,
                       types: map<string, ShiftType>, done: seq<string>, name: string, after: map<string, ShiftType>)
    requires AppliedSoFar(key, need, rows, before, types, done)
    requires after.Keys == types.Keys + {name} && SaysRows(key, need, rows, after, name)
    requires forall x :: x in types && x != name ==> after[x] == types[x]
    ensures AppliedSoFar(key, need, rows, before, after, done + [name])
  {
    forall x | x in done ensures SaysRows(key, need, rows, after, x) {
      assert SaysRows(key, need, rows, types, x);
    }
  }

  lemma AllApplied(key: DefinitionOf, need: NeedOfRow, rows: seq<RowText>, before: map<string, ShiftType>,
                   types: map<string, ShiftType>, names: seq<string>)
    requires AppliedSoFar(key, need, rows, before, types, names)
    requires forall name :: name in names <==> Named(rows, name)
    ensures BecomesBy(key, need, Contents(before), rows, Contents(types))
  {
    forall name | Named(rows, name) ensures SaysRows(key, need, rows, types, name) {
      assert name in names;
    }
  }

  class ShiftTypeStore {
    var types: map<string, ShiftType>
    var nextId: nat

    constructor (types: map<string, ShiftType>, nextId: nat)
      ensures this.types == types && this.nextId == nextId
    {
      this.types, this.nextId := types, nextId;
    }

    ghost predicate Valid()
      reads this
    {
      && (forall name :: name in types ==> types[name].id < nextId)
      && (forall x, y :: x in types && y in types && types[x].id == types[y].id ==> x == y)
    }

    /** Creates the shift type, or replaces what it says and all its requirements. */
    method ApplyGroup(key: DefinitionOf, need: NeedOfRow, name: string, group: seq<RowText>)
      requires Valid() && group != []
      modifies this
      ensures Valid() && old(nextId) <= nextId
      ensures types.Keys == old(types).Keys + {name}
      ensures types[name].content == ContentOf(key, need, group)
      ensures name in old(types) ==> types[name].id == old(types)[name].id
      ensures name !in old(types) ==> old(nextId) <= types[name].id
      ensures forall x :: x in old(types) && x != name ==> types[x] == old(types)[x]
    {
      var id := nextId;
      if name in types {
        id := types[name].id;
      } else {
        nextId := nextId + 1;
      }
      var needs := Requirements(need, group);
      types := types[name := ShiftType(id, Content(StoredAs(key(group[0])), needs))];
    }

    method ApplyShiftTypeRows(key: DefinitionOf, need: NeedOfRow, rows: seq<RowText>) returns (appliedCount: nat)
      requires Valid()
      modifies this
      ensures Valid()
      ensures BecomesBy(key, need, Contents(old(types)), rows, Contents(types))
      ensures IdsKept(old(types), types, old(nextId))
      ensures appliedCount == |rows|
    {
      var names, groups := GroupRows(rows);
      ghost var before := types;
      for k := 0 to |names|
        invariant Valid() && old(nextId) <= nextId
        invariant AppliedSoFar(key, need, rows, before, types, names[..k])
        invariant IdsKept(before, types, old(nextId))
      {
        var name := names[k];
        ghost var sofar := types;
        TakeNext(names, k);
        GroupAt(rows, names, groups, k);
        ApplyGroup(key, need, name, groups[name]);
        AppliedOneMore(key, need, rows, before, sofar, names[..k], name, types);
        IdsKeptOneMore(before, sofar, old(nextId), name, types);
      }
      assert names[..|names|] == names;
      NamesAreNamed(rows, names, groups);
      AllApplied(key, need, rows, before, types, names);
      appliedCount := |rows|;
    }
  }
}
