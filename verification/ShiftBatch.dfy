/** Checking and applying a whole batch of shift-type rows. An accepted batch gives the same
    shift types in any row order, and applying it again changes nothing. */
module ShiftBatch {
  import opened Options
  import opened Sequences
  import opened Sorting
  import opened ShiftImport

  /** What rows of one shift type must agree on. */
  datatype Definition = Definition(
    startTime: string,
    endTime: string,
    timezone: string,
    crossesMidnight: Option<bool>,
    weekdays: string,
    active: Option<bool>)

  function DefinitionKey(r: Reader, row: RowText): Definition
  {
    Definition(row.startTime, row.endTime, row.timezone, ParseBool(r, row.crossesMidnight),
               SerializeActiveWeekdays(DaysOrNone(ParseActiveWeekdays(r, row.activeWeekdays))),
               ParseBool(r, row.active))
  }

  /** A way to read the definition off a row; the check and the import share it. */
  type DefinitionOf = RowText -> Definition

  function KeyOf(r: Reader): DefinitionOf { (row: RowText) => DefinitionKey(r, row) }

  predicate HasKey(row: RowText) { row.shiftType != "" && row.roleName != "" }

  predicate SameKey(a: RowText, b: RowText) { a.shiftType == b.shiftType && a.roleName == b.roleName }

  // ----- the batch check -----

  /** Where the first row of a shift type is; past the end if there is none. */
  function FirstAt(rows: seq<RowText>, name: string): (k: nat)
    ensures k <= |rows|
    ensures k < |rows| ==> rows[k].shiftType == name
    ensures forall i :: 0 <= i < k ==> rows[i].shiftType != name
  {
    if rows == [] then 0
    else
      var n := |rows| - 1;
      var k := FirstAt(rows[..n], name);
      if k < n || rows[n].shiftType == name then k else |rows|
  }

  predicate SameDefinition(key: DefinitionOf, a: RowText, b: RowText) { key(a) == key(b) }

  predicate Seen(rows: seq<RowText>, row: RowText)
  {
    exists i :: 0 <= i < |rows| && HasKey(rows[i]) && SameKey(rows[i], row)
  }

  predicate Conflicts(key: DefinitionOf, earlier: seq<RowText>, row: RowText)
  {
    var k := FirstAt(earlier, row.shiftType);
    row.shiftType != "" && k < |earlier| && !SameDefinition(key, earlier[k], row)
  }

  function ErrorsAt(key: DefinitionOf, earlier: seq<RowText>, row: RowText, rowNo: int): seq<RowError>
  {
    When(Conflicts(key, earlier, row), RowError(rowNo, ShiftTypeName, ConflictingDefinition))
    + When(HasKey(row) && Seen(earlier, row), RowError(rowNo, RoleName, DuplicateRequirement))
  }

  function RowNo(rowNumbers: Option<seq<int>>, index: nat): int
    requires rowNumbers.Some? ==> index < |rowNumbers.value|
  {
    if rowNumbers.Some? then rowNumbers.value[index] else index + 1
  }

  function BatchErrors(key: DefinitionOf, rows: seq<RowText>, rowNumbers: Option<seq<int>>): seq<RowError>
    requires rowNumbers.Some? ==> |rows| <= |rowNumbers.value|
  {
    if rows == [] then []
    else
      var n := |rows| - 1;
      BatchErrors(key, rows[..n], rowNumbers) + ErrorsAt(key, rows[..n], rows[n], RowNo(rowNumbers, n))
  }

  ghost predicate RemembersDefinitions(key: DefinitionOf, rows: seq<RowText>, definitions: map<string, Definition>)
  {
    forall name ::
      && (name in definitions <==> name != "" && FirstAt(rows, name) < |rows|)
      && (name in definitions ==> definitions[name] == key(rows[FirstAt(rows, name)]))
  }

  ghost predicate RemembersKeys(rows: seq<RowText>, seen: set<(string, string)>)
  {
    forall row: RowText :: HasKey(row) ==> ((row.shiftType, row.roleName) in seen <==> Seen(rows, row))
  }

  lemma DefinitionsStep(key: DefinitionOf, rows: seq<RowText>, definitions: map<string, Definition>, row: RowText)
    requires RemembersDefinitions(key, rows, definitions)
    ensures
      var name := row.shiftType;
      RemembersDefinitions(key, rows + [row],
        if name != "" && name !in definitions then definitions[name := key(row)] else definitions)
  {
    assert (rows + [row])[..|rows|] == rows;
  }

  lemma KeysStep(rows: seq<RowText>, seen: set<(string, string)>, row: RowText)
    requires RemembersKeys(rows, seen)
    ensures RemembersKeys(rows + [row], if HasKey(row) then seen + {(row.shiftType, row.roleName)} else seen)
  {
    var after := rows + [row];
    forall x: RowText ensures Seen(after, x) <==> Seen(rows, x) || (HasKey(row) && SameKey(row, x)) {
      assert after[|rows|] == row;
      if i :| 0 <= i < |rows| && HasKey(rows[i]) && SameKey(rows[i], x) {
        assert after[i] == rows[i];
      }
    }
  }

  lemma WhatIsRemembered(key: DefinitionOf, rows: seq<RowText>, definitions: map<string, Definition>,
                         seen: set<(string, string)>, row: RowText)
    requires RemembersDefinitions(key, rows, definitions) && RemembersKeys(rows, seen)
    ensures Conflicts(key, rows, row) <==>
      row.shiftType != "" && row.shiftType in definitions && definitions[row.shiftType] != key(row)
    ensures HasKey(row) ==> (Seen(rows, row) <==> (row.shiftType, row.roleName) in seen)
  {
  }

  lemma BatchStep(key: DefinitionOf, rows: seq<RowText>, index: nat, rowNumbers: Option<seq<int>>)
    requires index < |rows| && (rowNumbers.Some? ==> |rows| <= |rowNumbers.value|)
    ensures BatchErrors(key, rows[..index + 1], rowNumbers)
      == BatchErrors(key, rows[..index], rowNumbers)
         + ErrorsAt(key, rows[..index], rows[index], RowNo(rowNumbers, index))
  {
    assert rows[..index + 1][..index] == rows[..index];
  }

  /** What reading one more row adds to the errors and to what is remembered. */
  lemma RowStep(key: DefinitionOf, rows: seq<RowText>, index: nat, rowNumbers: Option<seq<int>>,
                definitions: map<string, Definition>, seen: set<(string, string)>)
    requires index < |rows| && (rowNumbers.Some? ==> |rows| <= |rowNumbers.value|)
    requires RemembersDefinitions(key, rows[..index], definitions) && RemembersKeys(rows[..index], seen)
    ensures
      var row, rowNo := rows[index], RowNo(rowNumbers, index);
      var name, role := row.shiftType, row.roleName;
      var conflict := name != "" && name in definitions && definitions[name] != key(row);
      var repeated := HasKey(row) && (name, role) in seen;
      && BatchErrors(key, rows[..index + 1], rowNumbers) ==
           AppendIf(repeated, AppendIf(conflict, BatchErrors(key, rows[..index], rowNumbers),
                                       RowError(rowNo, ShiftTypeName, ConflictingDefinition)),
                    RowError(rowNo, RoleName, DuplicateRequirement))
      && RemembersDefinitions(key, rows[..index + 1],
           if name != "" && name !in definitions then definitions[name := key(row)] else definitions)
      && RemembersKeys(rows[..index + 1], if HasKey(row) then seen + {(name, role)} else seen)
  {
    TakeNext(rows, index);
    WhatIsRemembered(key, rows[..index], definitions, seen, rows[index]);
    BatchStep(key, rows, index, rowNumbers);
    DefinitionsStep(key, rows[..index], definitions, rows[index]);
    KeysStep(rows[..index], seen, rows[index]);
    var before, row, rowNo := BatchErrors(key, rows[..index], rowNumbers), rows[index], RowNo(rowNumbers, index);
    AppendWhens(before, Conflicts(key, rows[..index], row), RowError(rowNo, ShiftTypeName, ConflictingDefinition),
                HasKey(row) && Seen(rows[..index], row), RowError(rowNo, RoleName, DuplicateRequirement));
  }

  function AppendIf(condition: bool, errors: seq<RowError>, e: RowError): seq<RowError>
  {
    if condition then errors + [e] else errors
  }

  lemma AppendWhens(errors: seq<RowError>, a: bool, x: RowError, b: bool, y: RowError)
    ensures errors + (When(a, x) + When(b, y)) == AppendIf(b, AppendIf(a, errors, x), y)
  {
  }

  method ValidateShiftTypeBatch(key: DefinitionOf, rows: seq<RowText>, rowNumbers: Option<seq<int>>)
    returns (errors: seq<RowError>)
    requires rowNumbers.Some? ==> |rows| <= |rowNumbers.value|
    ensures errors == BatchErrors(key, rows, rowNumbers)
  {
    errors := [];
    var seen: set<(string, string)>, definitions: map<string, Definition> := {}, map[];
    for index := 0 to |rows|
      invariant errors == BatchErrors(key, rows[..index], rowNumbers)
      invariant RemembersDefinitions(key, rows[..index], definitions)
      invariant RemembersKeys(rows[..index], seen)
    {
      RowStep(key, rows, index, rowNumbers, definitions, seen);
      var row, rowNo := rows[index], RowNo(rowNumbers, index);
      var name, role := row.shiftType, row.roleName;
      if name != "" && name in definitions {
        if definitions[name] != key(row) {
          errors := errors + [RowError(rowNo, ShiftTypeName, ConflictingDefinition)];
        }
      } else if name != "" {
        definitions := definitions[name := key(row)];
      }
      if HasKey(row) {
        if (name, role) in seen {
          errors := errors + [RowError(rowNo, RoleName, DuplicateRequirement)];
        }
        seen := seen + {(name, role)};
      }
    }
    assert rows[..|rows|] == rows;
  }

  /** Rows of one shift type agree on its definition, and name each role once. */
  ghost predicate Consistent(key: DefinitionOf, rows: seq<RowText>)
  {
    forall i, j :: 0 <= i < j < |rows| ==> Agree(key, rows[i], rows[j])
  }

  predicate Agree(key: DefinitionOf, a: RowText, b: RowText)
  {
    && (a.shiftType == b.shiftType != "" ==> SameDefinition(key, a, b))
    && !(HasKey(a) && HasKey(b) && SameKey(a, b))
  }

  /** In a consistent list, every row of a type has the definition of the first. */
  lemma FirstSpeaksForAll(key: DefinitionOf, rows: seq<RowText>, i: nat)
    requires Consistent(key, rows) && i < |rows| && rows[i].shiftType != ""
    ensures FirstAt(rows, rows[i].shiftType) < |rows|
    ensures SameDefinition(key, rows[FirstAt(rows, rows[i].shiftType)], rows[i])
  {
    var k := FirstAt(rows, rows[i].shiftType);
    if k < i {
      assert Agree(key, rows[k], rows[i]);
    }
  }

  lemma LastRowAgreesIff(key: DefinitionOf, rows: seq<RowText>, row: RowText, rowNo: int)
    requires Consistent(key, rows)
    ensures ErrorsAt(key, rows, row, rowNo) == [] <==> forall i :: 0 <= i < |rows| ==> Agree(key, rows[i], row)
  {
    var k := FirstAt(rows, row.shiftType);
    if ErrorsAt(key, rows, row, rowNo) == [] {
      forall i | 0 <= i < |rows| ensures Agree(key, rows[i], row) {
        if rows[i].shiftType == row.shiftType != "" {
          FirstSpeaksForAll(key, rows, i);
        }
      }
    }
    if k < |rows| && Agree(key, rows[k], row) {
      assert !Conflicts(key, rows, row);
    }
  }

  lemma ConsistentStep(key: DefinitionOf, rows: seq<RowText>)
    requires rows != []
    ensures
      var n := |rows| - 1;
      Consistent(key, rows) <==>
        Consistent(key, rows[..n]) && forall i :: 0 <= i < n ==> Agree(key, rows[..n][i], rows[n])
  {
  }

  /** The one-pass batch check finds nothing exactly when every two rows agree. */
  lemma {:induction false} BatchIsAcceptedIff(key: DefinitionOf, rows: seq<RowText>, rowNumbers: Option<seq<int>>)
    requires rowNumbers.Some? ==> |rows| <= |rowNumbers.value|
    ensures BatchErrors(key, rows, rowNumbers) == [] <==> Consistent(key, rows)
  {
    if rows != [] {
      var n := |rows| - 1;
      BatchIsAcceptedIff(key, rows[..n], rowNumbers);
      ConsistentStep(key, rows);
      if Consistent(key, rows[..n]) {
        LastRowAgreesIff(key, rows[..n], rows[n], RowNo(rowNumbers, n));
      }
    }
  }
}
