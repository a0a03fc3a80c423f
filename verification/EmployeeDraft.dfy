/** The employee draft: its parser rejects repeated codes and numbers the rows it keeps. */
module EmployeeDraft {
  import opened Options
  import opened DraftText
  import opened ScenarioDraft

  /** Role names are separated by bars; blank ones are dropped. */
  function RolesOf(field: Option<string>): seq<string>
  {
    if Falsy(field) then [] else KeepNonEmpty(TrimAll(Split(field.value, '|')))
  }

  function ParseEmployeeLine(n: Numerals, line: string, index: nat, seen: set<string>): Result<Employee>
  {
    var fields := Fields(line);
    var code, name, roleNames := Field(fields, 0), Field(fields, 1), RolesOf(Field(fields, 2));
    var maxShifts := ParsePositiveInteger(n, Field(fields, 3), 5);
    if Falsy(code) || !IsEmployeeCode(code.value) then Err(InvalidCode(index + 1))
    else if code.value in seen then Err(DuplicateCode(code.value))
    else if Falsy(name) then Err(MissingName(index + 1))
    else if roleNames == [] then Err(MissingRoles(index + 1))
    else if maxShifts == None then Err(InvalidNumber(index + 1))
    else Ok(Employee(index + 1, code.value, name.value, roleNames, maxShifts.value))
  }

  /** Reads one line, given its position and the codes of the lines before it. */
  type LineParser = (string, nat, set<string>) -> Result<Employee>

  function EmployeeParser(n: Numerals): LineParser
  {
    (line: string, index: nat, seen: set<string>) => ParseEmployeeLine(n, line, index, seen)
  }

  /** `rows` are the rows of the lines read so far, `seen` their codes. */
  function ParseEmployees(parse: LineParser, lines: seq<string>, rows: seq<Employee>, seen: set<string>)
    : Result<seq<Employee>>
    requires |rows| <= |lines|
    decreases |lines| - |rows|
  {
    if |rows| == |lines| then Ok(rows)
    else
      match parse(lines[|rows|], |rows|, seen)
      case Err(e) => Err(e)
      case Ok(x) => ParseEmployees(parse, lines, rows + [x], seen + {x.code})
  }

  function ParsedEmployees(n: Numerals, text: string): Result<seq<Employee>>
  {
    ParseEmployees(EmployeeParser(n), NonEmptyLines(text), [], {})
  }

  method ParseEmployeeDraft(n: Numerals, text: string) returns (r: Result<seq<Employee>>)
    ensures r == ParsedEmployees(n, text)
  {
    var lines, parse := NonEmptyLines(text), EmployeeParser(n);
    var seen: set<string>, rows: seq<Employee> := {}, [];
    for i := 0 to |lines|
      invariant |rows| == i
      invariant ParseEmployees(parse, lines, rows, seen) == ParseEmployees(parse, lines, [], {})
    {
      var row := parse(lines[i], i, seen);
      if row.Err? {
        return Err(row.error);
      }
      seen := seen + {row.value.code};
      rows := rows + [row.value];
    }
    r := Ok(rows);
  }

  // ----- printing -----

  function EmployeeFields(n: Numerals, e: Employee): seq<string>
  {
    [e.code, e.name, Join(e.roleNames, '|'), n.show(e.maxShiftsPerWeek)]
  }

  function EmployeeLines(n: Numerals, es: seq<Employee>): seq<string>
  {
    seq(|es|, i requires 0 <= i < |es| => Join(EmployeeFields(n, es[i]), ','))
  }

  function FormatEmployeeDraft(n: Numerals, es: seq<Employee>): string { Join(EmployeeLines(n, es), '\n') }

  predicate PlainRole(role: string) { PlainText(role) && '|' !in role }

  predicate WellFormedEmployee(n: Numerals, e: Employee)
  {
    && IsEmployeeCode(e.code) && PlainText(e.name)
    && PlainRoles(e.roleNames)
    && 0 < e.maxShiftsPerWeek && Survives(n, e.maxShiftsPerWeek)
  }

  predicate DistinctCodes(es: seq<Employee>)
  {
    forall i, j :: 0 <= i < j < |es| ==> es[i].code != es[j].code
  }

  function Numbered(es: seq<Employee>): seq<Employee>
  {
    seq(|es|, i requires 0 <= i < |es| => es[i].(rowNo := i + 1))
  }

  predicate PlainRoles(roles: seq<string>)
  {
    roles != [] && forall i :: 0 <= i < |roles| ==> PlainRole(roles[i])
  }

  lemma RolesPrintPlainly(roles: seq<string>)
    requires PlainRoles(roles)
    ensures PlainText(Join(roles, '|'))
  {
    assert Filled(roles) by {
      assert forall i :: 0 <= i < |roles| ==> PlainRole(roles[i]);
    }
    assert PlainRole(roles[0]) && PlainRole(roles[|roles| - 1]);
    JoinedEnds(roles, '|');
    JoinMembers(roles, '|');
    forall p, c | p in roles && c in p ensures c != ',' && c != '\n' {
      var i :| 0 <= i < |roles| && roles[i] == p;
      assert PlainRole(roles[i]);
    }
  }

  lemma RolesRoundTrip(roles: seq<string>)
    requires PlainRoles(roles)
    ensures RolesOf(Some(Join(roles, '|'))) == roles
  {
    RolesPrintPlainly(roles);
    forall i | 0 <= i < |roles| ensures roles[i] != "" && Trimmed(roles[i]) && '|' !in roles[i] {
      assert PlainRole(roles[i]);
    }
    SplitJoin(roles, '|');
    TrimAllTrims(roles);
    KeepNonEmptyKeeps(roles);
  }

  lemma EmployeeFieldsArePlain(n: Numerals, e: Employee)
    requires WellFormedEmployee(n, e)
    ensures AllPlain(EmployeeFields(n, e))
  {
    CodeIsPlain(e.code);
    RolesPrintPlainly(e.roleNames);
  }

  lemma EmployeeLineRoundTrip(n: Numerals, e: Employee, index: nat, seen: set<string>)
    requires WellFormedEmployee(n, e) && e.code !in seen
    ensures CleanLine(Join(EmployeeFields(n, e), ','))
    ensures ParseEmployeeLine(n, Join(EmployeeFields(n, e), ','), index, seen) == Ok(e.(rowNo := index + 1))
  {
    var fields := EmployeeFields(n, e);
    EmployeeFieldsArePlain(n, e);
    FieldsRoundTrip(fields);
    JoinedLineIsClean(fields);
    RolesRoundTrip(e.roleNames);
    assert fields[0] == e.code && fields[1] == e.name && fields[2] == Join(e.roleNames, '|');
    assert fields[3] == n.show(e.maxShiftsPerWeek);
  }

  lemma {:induction false} RowsComeBack(parse: LineParser, lines: seq<string>, xs: seq<Employee>, from: nat,
                                        seen: set<string>)
    requires from <= |lines| == |xs| && DistinctCodes(xs)
    requires forall i, known :: 0 <= i < |lines| && xs[i].code !in known ==> parse(lines[i], i, known) == Ok(xs[i])
    requires forall i :: from <= i < |xs| ==> xs[i].code !in seen
    ensures ParseEmployees(parse, lines, xs[..from], seen) == Ok(xs)
    decreases |xs| - from
  {
    if from < |xs| {
      RowsComeBack(parse, lines, xs, from + 1, seen + {xs[from].code});
      assert xs[..from + 1] == xs[..from] + [xs[from]];
    } else {
      assert xs[..from] == xs;
    }
  }

  /** Parsing printed employees gives them back, numbered from 1. */
  lemma EmployeeDraftRoundTrip(n: Numerals, es: seq<Employee>)
    requires DistinctCodes(es) && forall i :: 0 <= i < |es| ==> WellFormedEmployee(n, es[i])
    ensures ParsedEmployees(n, FormatEmployeeDraft(n, es)) == Ok(Numbered(es))
  {
    var lines, parse := EmployeeLines(n, es), EmployeeParser(n);
    forall i, known | 0 <= i < |es| && Numbered(es)[i].code !in known
      ensures parse(lines[i], i, known) == Ok(Numbered(es)[i])
    {
      EmployeeLineRoundTrip(n, es[i], i, known);
    }
    forall i | 0 <= i < |es| ensures CleanLine(lines[i]) {
      EmployeeLineRoundTrip(n, es[i], i, {});
    }
    LinesOfJoined(lines);
    RowsComeBack(parse, lines, Numbered(es), 0, {});
    assert Numbered(es)[..0] == [];
  }

  // ----- whatever parses is well formed -----

  lemma RolesArePlain(line: string, i: nat, k: nat)
    requires '\n' !in line && i < |Fields(line)| && k < |RolesOf(Some(Fields(line)[i]))|
    ensures PlainRole(RolesOf(Some(Fields(line)[i]))[k])
  {
    var field := Fields(line)[i];
    var parts := Split(field, '|');
    var role := RolesOf(Some(field))[k];
    FieldIsClean(line, i);
    KeepNonEmptyKeeps(TrimAll(parts));
    assert role in KeepNonEmpty(TrimAll(parts));
    var j :| 0 <= j < |parts| && TrimAll(parts)[j] == role;
    SplitParts(field, '|');
    assert parts[j] in parts;
    TrimTrims(parts[j]);
  }

  lemma ParsedEmployeeIsWellFormed(n: Numerals, line: string, index: nat, seen: set<string>)
    requires Lawful(n) && CleanLine(line) && ParseEmployeeLine(n, line, index, seen).Ok?
    ensures WellFormedEmployee(n, ParseEmployeeLine(n, line, index, seen).value)
  {
    var fields := Fields(line);
    FieldIsClean(line, 1);
    forall k | 0 <= k < |RolesOf(Field(fields, 2))| ensures PlainRole(RolesOf(Field(fields, 2))[k]) {
      RolesArePlain(line, 2, k);
    }
  }

  /** What the rows read so far satisfy. */
  ghost predicate GoodRows(n: Numerals, rows: seq<Employee>, seen: set<string>)
  {
    && DistinctCodes(rows)
    && forall k :: 0 <= k < |rows| ==>
         rows[k].code in seen && rows[k].rowNo == k + 1 && WellFormedEmployee(n, rows[k])
  }

  /** A successful parse keeps one well-formed row for each line, in order, with distinct codes. */
  lemma {:induction false} ParsedRowsAreGood(n: Numerals, lines: seq<string>, rows: seq<Employee>, seen: set<string>)
    returns (all: set<string>)
    requires Lawful(n) && |rows| <= |lines| && ParseEmployees(EmployeeParser(n), lines, rows, seen).Ok?
    requires GoodRows(n, rows, seen)
    requires forall i :: 0 <= i < |lines| ==> CleanLine(lines[i])
    ensures |ParseEmployees(EmployeeParser(n), lines, rows, seen).value| == |lines|
    ensures GoodRows(n, ParseEmployees(EmployeeParser(n), lines, rows, seen).value, all)
    decreases |lines| - |rows|
  {
    all := seen;
    if |rows| < |lines| {
      var x := ParseEmployeeLine(n, lines[|rows|], |rows|, seen).value;
      ParsedEmployeeIsWellFormed(n, lines[|rows|], |rows|, seen);
      all := ParsedRowsAreGood(n, lines, rows + [x], seen + {x.code});
    }
  }

  lemma ParsedEmployeesAreGood(n: Numerals, text: string) returns (all: set<string>)
    requires Lawful(n) && ParsedEmployees(n, text).Ok?
    ensures GoodRows(n, ParsedEmployees(n, text).value, all)
  {
    var lines := NonEmptyLines(text);
    NonEmptyLinesAreClean(text);
    forall i | 0 <= i < |lines| ensures CleanLine(lines[i]) {
      assert lines[i] in lines;
    }
    all := ParsedRowsAreGood(n, lines, [], {});
  }

  lemma NumberedDone(es: seq<Employee>)
    requires forall k :: 0 <= k < |es| ==> es[k].rowNo == k + 1
    ensures Numbered(es) == es
  {
  }

  /** Whatever text parses, printing what it gave and parsing again gives the same. */
  lemma EmployeeDraftIsStable(n: Numerals, text: string)
    requires Lawful(n) && ParsedEmployees(n, text).Ok?
    ensures ParsedEmployees(n, FormatEmployeeDraft(n, ParsedEmployees(n, text).value)) == ParsedEmployees(n, text)
  {
    var parsed := ParsedEmployees(n, text);
    var all := ParsedEmployeesAreGood(n, text);
    PrintedGoodRows(n, parsed.value, all);
  }

  lemma PrintedGoodRows(n: Numerals, es: seq<Employee>, all: set<string>)
    requires GoodRows(n, es, all)
    ensures ParsedEmployees(n, FormatEmployeeDraft(n, es)) == Ok(es)
  {
    EmployeeDraftRoundTrip(n, es);
    NumberedDone(es);
  }

  // ----- plain decimal notation is lawful -----

  predicate AllDigits(s: string) { s != "" && forall i :: 0 <= i < |s| ==> IsDigit(s[i]) }

  function Digit(d: nat): char
    requires d < 10
  {
    '0' + d as char
  }

  function ShowDigits(x: nat): string
  {
    if x < 10 then [Digit(x)] else ShowDigits(x / 10) + [Digit(x % 10)]
  }

  function ReadDigits(s: string): int
  {
    if s == "" then 0 else ReadDigits(s[..|s| - 1]) * 10 + (s[|s| - 1] as int - '0' as int)
  }

  function Decimal(): Numerals
  {
    Numerals((s: string) => if AllDigits(s) then Some(ReadDigits(s)) else None,
             (x: int) => if x < 0 then "" else ShowDigits(x))
  }

  lemma {:induction false} DigitsRoundTrip(x: nat)
    ensures AllDigits(ShowDigits(x)) && ReadDigits(ShowDigits(x)) == x
  {
    if x >= 10 {
      DigitsRoundTrip(x / 10);
      assert ShowDigits(x)[..|ShowDigits(x)| - 1] == ShowDigits(x / 10);
    } else {
      assert ShowDigits(x)[..0] == "";
    }
  }

  lemma {:induction false} ReadIsNatural(s: string)
    requires forall i :: 0 <= i < |s| ==> IsDigit(s[i])
    ensures ReadDigits(s) >= 0
  {
    if s != "" {
      ReadIsNatural(s[..|s| - 1]);
      assert IsDigit(s[|s| - 1]);
    }
  }

  lemma DecimalIsLawful()
    ensures Lawful(Decimal())
  {
    forall x: nat ensures Survives(Decimal(), x) {
      DigitsRoundTrip(x);
      var s := ShowDigits(x);
      assert IsDigit(s[0]) && IsDigit(s[|s| - 1]);
    }
    forall text: string | Decimal().read(text).Some? ensures Survives(Decimal(), Decimal().read(text).value) {
      ReadIsNatural(text);
      var x: nat := ReadDigits(text);
      assert Survives(Decimal(), x);
    }
  }
}
