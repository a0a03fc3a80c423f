/** Which errors the import checks report: each exactly for the value, or the pair of rows, that is
    wrong, under that row's number. */
module ShiftImportErrors {
  import opened Options
  import opened Sequences
  import opened ShiftImport
  import opened ShiftBatch

  // ----- one row -----

  predicate Blank(row: RowText, f: Field)
  {
    match f
    case ShiftTypeName => row.shiftType == ""
    case StartTime => row.startTime == ""
    case EndTime => row.endTime == ""
    case Timezone => row.timezone == ""
    case CrossesMidnight => row.crossesMidnight == ""
    case ActiveWeekdays => row.activeWeekdays == ""
    case Active => row.active == ""
    case RoleName => row.roleName == ""
    case RequiredCount => row.requiredCount == ""
    case UnfilledWeight => row.unfilledWeight == ""
  }

  predicate NoInteger(r: Reader, raw: string) { raw != "" && r.integer(raw) == None }

  predicate Outside(r: Reader, raw: string, lo: int, hi: int)
  {
    raw != "" && r.integer(raw).Some? && !(lo <= r.integer(raw).value <= hi)
  }

  /** What is wrong with a row, field by field. Only the weight may be left blank, and a blank value
      is wrong in no other way. */
  predicate Wrong(r: Reader, roles: map<string, Id>, row: RowText, f: Field, code: Code)
  {
    match code
    case Required => f != UnfilledWeight && Blank(row, f)
    case UnknownRole => f == RoleName && row.roleName != "" && row.roleName !in roles
    case InvalidTime =>
      || (f == StartTime && row.startTime != "" && !ValidLocalTime(r, row.startTime))
      || (f == EndTime && row.endTime != "" && !ValidLocalTime(r, row.endTime))
    case InvalidTimeRange => f == EndTime && row.endTime != "" && row.startTime == row.endTime
    case InvalidBoolean =>
      || (f == CrossesMidnight && row.crossesMidnight != "" && ParseBool(r, row.crossesMidnight) == None)
      || (f == Active && row.active != "" && ParseBool(r, row.active) == None)
    case InvalidWeekdays =>
      f == ActiveWeekdays && row.activeWeekdays != "" && ParseActiveWeekdays(r, row.activeWeekdays) == None
    case InvalidInteger =>
      || (f == RequiredCount && NoInteger(r, row.requiredCount))
      || (f == UnfilledWeight && NoInteger(r, row.unfilledWeight))
    case InvalidRange =>
      || (f == RequiredCount && Outside(r, row.requiredCount, 1, 20))
      || (f == UnfilledWeight && Outside(r, row.unfilledWeight, 0, 10000))
    case ConflictingDefinition => false
    case DuplicateRequirement => false
  }

  lemma ValueIsBlank(row: RowText, f: Field)
    ensures Value(row, f) == "" <==> Blank(row, f)
  {
  }

  lemma {:induction false} MissingIff(rowNo: int, row: RowText, fields: seq<Field>, e: RowError)
    ensures e in MissingValues(rowNo, row, fields) <==>
      e.rowNo == rowNo && e.code == Required && e.field in fields && Blank(row, e.field)
  {
    if fields != [] {
      ValueIsBlank(row, fields[0]);
      MissingIff(rowNo, row, fields[1..], e);
      assert fields == [fields[0]] + fields[1..];
    }
  }

  lemma RequiredFieldsBut(f: Field)
    ensures f in REQUIRED_FIELDS <==> f != UnfilledWeight
  {
    var fs := REQUIRED_FIELDS;
    assert fs[0] == ShiftTypeName && fs[1] == StartTime && fs[2] == EndTime && fs[3] == Timezone;
    assert fs[4] == CrossesMidnight && fs[5] == ActiveWeekdays && fs[6] == Active && fs[7] == RoleName;
    assert fs[8] == RequiredCount && |fs| == 9;
  }

  lemma TimeErrorsIff(r: Reader, roles: map<string, Id>, rowNo: int, row: RowText, e: RowError)
    ensures e in TimeErrors(r, rowNo, row) <==>
      e.rowNo == rowNo && e.code in {InvalidTime, InvalidTimeRange} && Wrong(r, roles, row, e.field, e.code)
  {
  }

  lemma WordErrorsIff(r: Reader, roles: map<string, Id>, rowNo: int, row: RowText, e: RowError)
    ensures e in WordErrors(r, rowNo, row) <==>
      e.rowNo == rowNo && e.code in {InvalidBoolean, InvalidWeekdays} && Wrong(r, roles, row, e.field, e.code)
  {
  }

  lemma NumberErrorsIff(r: Reader, roles: map<string, Id>, rowNo: int, row: RowText, e: RowError)
    ensures e in NumberErrors(r, rowNo, row) <==>
      e.rowNo == rowNo && e.code in {InvalidInteger, InvalidRange} && Wrong(r, roles, row, e.field, e.code)
  {
  }

  lemma InOneOfFive<T>(x: T, a: seq<T>, b: seq<T>, c: seq<T>, d: seq<T>, e: seq<T>)
    ensures x in a + b + c + d + e <==> x in a || x in b || x in c || x in d || x in e
  {
  }

  /** The row check reports an error for a field exactly when that field is wrong in that way, and
      always under the row's number. */
  lemma RowErrorIff(r: Reader, roles: map<string, Id>, rowNo: int, row: RowText, e: RowError)
    ensures e in RowErrors(r, roles, rowNo, row) <==> e.rowNo == rowNo && Wrong(r, roles, row, e.field, e.code)
  {
    MissingIff(rowNo, row, REQUIRED_FIELDS, e);
    RequiredFieldsBut(e.field);
    TimeErrorsIff(r, roles, rowNo, row, e);
    WordErrorsIff(r, roles, rowNo, row, e);
    NumberErrorsIff(r, roles, rowNo, row, e);
    InOneOfFive(e, MissingValues(rowNo, row, REQUIRED_FIELDS),
                When(row.roleName != "" && row.roleName !in roles, RowError(rowNo, RoleName, UnknownRole)),
                TimeErrors(r, rowNo, row), WordErrors(r, rowNo, row), NumberErrors(r, rowNo, row));
  }

  // ----- a batch -----

  /** Row `k` is the first of its shift type, and says something else of it than row `i`. */
  predicate Contradicts(key: DefinitionOf, rows: seq<RowText>, k: int, i: int)
    requires 0 <= i < |rows|
  {
    && 0 <= k < i && rows[k].shiftType == rows[i].shiftType != ""
    && key(rows[k]) != key(rows[i])
    && forall j :: 0 <= j < k ==> rows[j].shiftType != rows[i].shiftType
  }

  predicate Repeats(rows: seq<RowText>, k: int, i: int)
    requires 0 <= i < |rows|
  {
    0 <= k < i && rows[k].shiftType == rows[i].shiftType != "" && rows[k].roleName == rows[i].roleName != ""
  }

  ghost predicate ReportedAt(key: DefinitionOf, rows: seq<RowText>, rowNumbers: Option<seq<int>>, i: int, e: RowError)
    requires rowNumbers.Some? ==> |rows| <= |rowNumbers.value|
  {
    && 0 <= i < |rows|
    && e.rowNo == (if rowNumbers.None? then i + 1 else rowNumbers.value[i])
    && ((e.field == ShiftTypeName && e.code == ConflictingDefinition && exists k :: Contradicts(key, rows, k, i))
        || (e.field == RoleName && e.code == DuplicateRequirement && exists k :: Repeats(rows, k, i)))
  }

  lemma ErrorsAtIff(key: DefinitionOf, rows: seq<RowText>, i: nat, rowNumbers: Option<seq<int>>, e: RowError)
    requires i < |rows| && (rowNumbers.Some? ==> |rows| <= |rowNumbers.value|)
    ensures e in ErrorsAt(key, rows[..i], rows[i], RowNo(rowNumbers, i)) <==> ReportedAt(key, rows, rowNumbers, i, e)
  {
    var earlier := rows[..i];
    var k := FirstAt(earlier, rows[i].shiftType);
    if Conflicts(key, earlier, rows[i]) {
      assert Contradicts(key, rows, k, i);
    }
    if k :| Contradicts(key, rows, k, i) {
      assert earlier[k] == rows[k];
      assert FirstAt(earlier, rows[i].shiftType) == k;
    }
    if HasKey(rows[i]) && Seen(earlier, rows[i]) {
      var j :| 0 <= j < |earlier| && HasKey(earlier[j]) && SameKey(earlier[j], rows[i]);
      assert Repeats(rows, j, i);
    }
    if k :| Repeats(rows, k, i) {
      assert earlier[k] == rows[k];
    }
  }

  lemma ReportedEarlier(key: DefinitionOf, rows: seq<RowText>, rowNumbers: Option<seq<int>>, n: nat, i: int,
                        e: RowError)
    requires i < n < |rows| && (rowNumbers.Some? ==> |rows| <= |rowNumbers.value|)
    ensures ReportedAt(key, rows[..n], rowNumbers, i, e) <==> ReportedAt(key, rows, rowNumbers, i, e)
  {
    if 0 <= i {
      forall k ensures Contradicts(key, rows[..n], k, i) <==> Contradicts(key, rows, k, i) {}
      forall k ensures Repeats(rows[..n], k, i) <==> Repeats(rows, k, i) {}
    }
  }

  /** The batch check reports exactly: each row that says something else of its shift type than the
      type's first row, and each row that repeats the shift type and role of an earlier one. The
      row's number is the given one, or its place counted from one. */
  lemma {:induction false} BatchErrorIff(key: DefinitionOf, rows: seq<RowText>, rowNumbers: Option<seq<int>>,
                                         e: RowError)
    requires rowNumbers.Some? ==> |rows| <= |rowNumbers.value|
    ensures e in BatchErrors(key, rows, rowNumbers) <==> exists i :: ReportedAt(key, rows, rowNumbers, i, e)
  {
    if rows != [] {
      var n := |rows| - 1;
      BatchErrorIff(key, rows[..n], rowNumbers, e);
      ErrorsAtIff(key, rows, n, rowNumbers, e);
      forall i | i < n
        ensures ReportedAt(key, rows[..n], rowNumbers, i, e) <==> ReportedAt(key, rows, rowNumbers, i, e)
      {
        ReportedEarlier(key, rows, rowNumbers, n, i, e);
      }
      if i :| ReportedAt(key, rows, rowNumbers, i, e) {
        assert i == n || ReportedAt(key, rows[..n], rowNumbers, i, e);
      }
      if i :| ReportedAt(key, rows[..n], rowNumbers, i, e) {
        assert ReportedAt(key, rows, rowNumbers, i, e);
      }
    }
  }
}
