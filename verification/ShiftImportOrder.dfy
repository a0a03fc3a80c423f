/** An accepted shift-type import is independent of the order of its rows, idempotent, and
    leaves one requirement per shift type and role. */
module ShiftImportOrder {
  import opened Options
  import opened Sequences
  import opened Sorting
  import opened ShiftImport
  import opened ShiftBatch
  import opened ShiftApply

  /** Neither the row checks nor the batch check report an error. */
  ghost predicate Accepted(r: Reader, roles: map<string, Id>, rows: seq<RowText>)
  {
    && (forall i :: 0 <= i < |rows| ==> RowErrors(r, roles, i + 1, rows[i]) == [])
    && BatchErrors(KeyOf(r), rows, None) == []
  }

  ghost predicate AllKeyed(rows: seq<RowText>) { forall row :: row in rows ==> HasKey(row) }

  ghost predicate AllKnown(roles: map<string, Id>, rows: seq<RowText>)
  {
    forall row :: row in rows ==> row.roleName in roles
  }

  lemma AcceptedRow(r: Reader, roles: map<string, Id>, rowNo: int, row: RowText)
    requires RowErrors(r, roles, rowNo, row) == []
    ensures HasKey(row) && row.roleName in roles
    ensures forall other :: RowErrors(r, roles, other, row) == []
  {
    RowIsAcceptedIff(r, roles, rowNo, row);
    forall other ensures RowErrors(r, roles, other, row) == [] {
      RowIsAcceptedIff(r, roles, other, row);
    }
  }

  lemma AcceptedMember(r: Reader, roles: map<string, Id>, rows: seq<RowText>, row: RowText)
    requires Accepted(r, roles, rows) && row in rows
    ensures HasKey(row) && row.roleName in roles
    ensures forall other :: RowErrors(r, roles, other, row) == []
  {
    var i :| 0 <= i < |rows| && rows[i] == row;
    AcceptedRow(r, roles, i + 1, rows[i]);
  }

  lemma AcceptedRowsAreKeyed(r: Reader, roles: map<string, Id>, rows: seq<RowText>)
    requires Accepted(r, roles, rows)
    ensures AllKeyed(rows) && AllKnown(roles, rows) && Consistent(KeyOf(r), rows)
  {
    BatchIsAcceptedIff(KeyOf(r), rows, None);
    forall row | row in rows ensures HasKey(row) && row.roleName in roles {
      AcceptedMember(r, roles, rows, row);
    }
  }

  /** Consistency, said of members instead of positions. */
  lemma ConsistentMembers(key: DefinitionOf, rows: seq<RowText>, x: RowText, y: RowText)
    requires Consistent(key, rows) && AllKeyed(rows) && x in rows && y in rows && x.shiftType == y.shiftType
    ensures key(x) == key(y)
    ensures x.roleName == y.roleName ==> x == y
  {
    var i :| 0 <= i < |rows| && rows[i] == x;
    var j :| 0 <= j < |rows| && rows[j] == y;
    if i < j {
      assert Agree(key, rows[i], rows[j]);
    } else if j < i {
      assert Agree(key, rows[j], rows[i]);
    }
  }

  lemma ConsistentIsDistinct(key: DefinitionOf, rows: seq<RowText>)
    requires Consistent(key, rows) && AllKeyed(rows)
    ensures NoDuplicates(rows)
  {
    forall i, j | 0 <= i < j < |rows| ensures rows[i] != rows[j] {
      assert rows[i] in rows && Agree(key, rows[i], rows[j]);
    }
  }

  lemma RearrangedIsConsistent(key: DefinitionOf, a: seq<RowText>, b: seq<RowText>)
    requires Consistent(key, a) && AllKeyed(a) && multiset(a) == multiset(b)
    ensures Consistent(key, b)
  {
    SameMembers(a, b);
    ConsistentIsDistinct(key, a);
    RearrangedDistinct(a, b);
    forall i, j | 0 <= i < j < |b| ensures Agree(key, b[i], b[j]) {
      assert b[i] in b && b[j] in b && b[i] != b[j];
      if b[i].shiftType == b[j].shiftType {
        ConsistentMembers(key, a, b[i], b[j]);
      }
    }
  }

  /** A rearrangement of an accepted batch is accepted. */
  lemma RearrangedIsAccepted(r: Reader, roles: map<string, Id>, a: seq<RowText>, b: seq<RowText>)
    requires Accepted(r, roles, a) && multiset(a) == multiset(b)
    ensures Accepted(r, roles, b)
  {
    AcceptedRowsAreKeyed(r, roles, a);
    RearrangedIsConsistent(KeyOf(r), a, b);
    BatchIsAcceptedIff(KeyOf(r), b, None);
    SameMembers(a, b);
    forall i | 0 <= i < |b| ensures RowErrors(r, roles, i + 1, b[i]) == [] {
      assert b[i] in b;
      AcceptedMember(r, roles, a, b[i]);
    }
  }

  lemma GroupMembers(rows: seq<RowText>, name: string)
    ensures forall row :: row in Group(rows, name) <==> row in rows && row.shiftType == name
  {
    FilterMembers(OfType(name), rows);
  }

  lemma GroupsSayTheSame(key: DefinitionOf, need: NeedOfRow, a: seq<RowText>, b: seq<RowText>, name: string)
    requires Consistent(key, a) && AllKeyed(a) && multiset(a) == multiset(b)
    ensures Named(a, name) <==> Named(b, name)
    ensures Named(a, name) ==> ContentOf(key, need, Group(a, name)) == ContentOf(key, need, Group(b, name))
  {
    FilterRearranged(OfType(name), a, b);
    var g, h := Group(a, name), Group(b, name);
    SameMembers(g, h);
    MapRearranged(need, g, h);
    if Named(a, name) {
      GroupMembers(a, name);
      assert g[0] in g && h[0] in h;
      ConsistentMembers(key, a, g[0], h[0]);
    }
  }

  lemma SameBecoming(key: DefinitionOf, need: NeedOfRow, a: seq<RowText>, b: seq<RowText>,
                     before: map<string, Content>, x: map<string, Content>, y: map<string, Content>)
    requires Consistent(key, a) && AllKeyed(a) && multiset(a) == multiset(b)
    requires BecomesBy(key, need, before, a, x) && BecomesBy(key, need, before, b, y)
    ensures x == y
  {
    forall name ensures name in x <==> name in y
      ensures name in x ==> x[name] == y[name]
    {
      GroupsSayTheSame(key, need, a, b, name);
    }
  }

  lemma BecomingAgain(key: DefinitionOf, need: NeedOfRow, a: seq<RowText>,
                      before: map<string, Content>, x: map<string, Content>)
    requires BecomesBy(key, need, before, a, x)
    ensures BecomesBy(key, need, x, a, x)
  {
  }

  /** Applying an accepted batch, applying any rearrangement of it instead, and applying that
      rearrangement on top, all leave the same shift types and requirements. */
  lemma ImportIgnoresOrderAndRepetition(r: Reader, roles: map<string, Id>, a: seq<RowText>, b: seq<RowText>,
                                        before: map<string, Content>, once: map<string, Content>,
                                        other: map<string, Content>, twice: map<string, Content>)
    requires Accepted(r, roles, a) && multiset(a) == multiset(b)
    requires BecomesBy(KeyOf(r), NeedFrom(r, roles), before, a, once)
    requires BecomesBy(KeyOf(r), NeedFrom(r, roles), before, b, other)
    requires BecomesBy(KeyOf(r), NeedFrom(r, roles), once, b, twice)
    ensures once == other == twice
  {
    var key, need := KeyOf(r), NeedFrom(r, roles);
    AcceptedRowsAreKeyed(r, roles, a);
    SameBecoming(key, need, a, b, before, once, other);
    BecomingAgain(key, need, a, before, once);
    SameBecoming(key, need, a, b, once, once, twice);
  }

  // ----- one requirement per role -----

  ghost predicate OneId(roles: map<string, Id>)
  {
    forall x, y :: x in roles && y in roles && roles[x] == roles[y] ==> x == y
  }

  ghost predicate OnePerRole(needs: multiset<Need>)
  {
    forall m, n :: m in needs && n in needs && m.roleId == n.roleId ==> m == n && needs[m] == 1
  }

  lemma NeedsDiffer(key: DefinitionOf, r: Reader, roles: map<string, Id>, rows: seq<RowText>, group: seq<RowText>,
                    name: string, i: nat, j: nat)
    requires Consistent(key, rows) && AllKeyed(rows) && AllKnown(roles, rows) && OneId(roles)
    requires group == Group(rows, name) && i < j < |group|
    ensures NeedFrom(r, roles)(group[i]).roleId != NeedFrom(r, roles)(group[j]).roleId
  {
    GroupMembers(rows, name);
    ConsistentIsDistinct(key, rows);
    FilterNoDuplicates(OfType(name), rows);
    assert group[i] in group && group[j] in group && group[i] != group[j];
    ConsistentMembers(key, rows, group[i], group[j]);
  }

  /** After an accepted import, a shift type it names has one requirement per role. */
  lemma OneRequirementPerRole(r: Reader, roles: map<string, Id>, rows: seq<RowText>,
                              before: map<string, Content>, after: map<string, Content>, name: string)
    requires Accepted(r, roles, rows) && OneId(roles) && Named(rows, name)
    requires BecomesBy(KeyOf(r), NeedFrom(r, roles), before, rows, after)
    ensures name in after && OnePerRole(after[name].needs)
  {
    var group, need := Group(rows, name), NeedFrom(r, roles);
    AcceptedRowsAreKeyed(r, roles, rows);
    var needs := Map(need, group);
    forall i, j | 0 <= i < j < |needs| ensures needs[i].roleId != needs[j].roleId {
      NeedsDiffer(KeyOf(r), r, roles, rows, group, name, i, j);
    }
    DistinctRolesOnePerRole(needs);
  }

  lemma DistinctRolesOnePerRole(needs: seq<Need>)
    requires forall i, j :: 0 <= i < j < |needs| ==> needs[i].roleId != needs[j].roleId
    ensures OnePerRole(multiset(needs))
  {
    MultiplicityOfDistinct(needs);
    forall m, n | m in multiset(needs) && n in multiset(needs) && m.roleId == n.roleId
      ensures m == n && multiset(needs)[m] == 1
    {
      assert m in needs && n in needs;
    }
  }
}
