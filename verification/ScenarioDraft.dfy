/** The scenario drafts: employees, vacations and pairs as comma-separated lines. Printing
    and parsing undo each other. */
module ScenarioDraft {
  import opened Options
  import opened DraftText

  datatype Result<T> = Ok(value: T) | Err(error: Error)

  /** What a parser complains about; rows count from 1. */
  datatype Error =
    | InvalidCode(row: nat) | DuplicateCode(code: string) | MissingName(row: nat) | MissingRoles(row: nat)
    | InvalidNumber(row: nat) | InvalidStartDate(row: nat) | EndBeforeStart(row: nat) | SameEmployee(row: nat)
    | InvalidBoolean(row: nat)

  datatype Employee = Employee(rowNo: nat, code: string, name: string, roleNames: seq<string>, maxShiftsPerWeek: int)

  datatype Vacation = Vacation(code: string, startDate: string, endDate: string, kind: string, overrideAllowed: bool)

  datatype Pair = Pair(codeA: string, codeB: string, severity: string, overrideAllowed: bool)

  /** How the language reads and shows integral numbers. `read` gives nothing for a text that
      is not the numeral of an integer. */
  datatype Numerals = Numerals(read: string -> Option<int>, show: int -> string)

  predicate PlainText(s: string)
  {
    s != "" && Trimmed(s) && ',' !in s && '\n' !in s
  }

  /** Showing a number that reading can give, and reading it back, gives that number. */
  ghost predicate Lawful(n: Numerals)
  {
    && (forall text: string :: n.read(text).Some? ==> Survives(n, n.read(text).value))
    && Survives(n, 5)
  }

  predicate Survives(n: Numerals, x: int)
  {
    n.read(n.show(x)) == Some(x) && PlainText(n.show(x))
  }

  // ----- lists of lines -----

  /** Parses line by line; the first complaint is the result. */
  function ParseAll<T>(parse: (string, nat) -> Result<T>, lines: seq<string>, from: nat): Result<seq<T>>
    requires from <= |lines|
    decreases |lines| - from
  {
    if from == |lines| then Ok([])
    else
      match parse(lines[from], from)
      case Err(e) => Err(e)
      case Ok(x) =>
        match ParseAll(parse, lines, from + 1)
        case Err(e) => Err(e)
        case Ok(rest) => Ok([x] + rest)
  }

  lemma {:induction false} ParseAllGives<T>(parse: (string, nat) -> Result<T>, lines: seq<string>, xs: seq<T>,
                                            from: nat)
    requires from <= |lines| == |xs|
    requires forall i :: 0 <= i < |lines| ==> parse(lines[i], i) == Ok(xs[i])
    ensures ParseAll(parse, lines, from) == Ok(xs[from..])
    decreases |lines| - from
  {
    if from < |lines| {
      ParseAllGives(parse, lines, xs, from + 1);
      assert xs[from..] == [xs[from]] + xs[from + 1..];
    }
  }

  lemma {:induction false} ParseAllGave<T>(parse: (string, nat) -> Result<T>, lines: seq<string>, from: nat)
    requires from <= |lines| && ParseAll(parse, lines, from).Ok?
    ensures |ParseAll(parse, lines, from).value| == |lines| - from
    ensures forall k :: 0 <= k < |lines| - from ==>
      parse(lines[from + k], from + k) == Ok(ParseAll(parse, lines, from).value[k])
    decreases |lines| - from
  {
    if from < |lines| {
      ParseAllGave(parse, lines, from + 1);
      var xs, rest := ParseAll(parse, lines, from).value, ParseAll(parse, lines, from + 1).value;
      forall k | 0 <= k < |lines| - from ensures parse(lines[from + k], from + k) == Ok(xs[k]) {
        if k > 0 {
          assert xs[k] == rest[k - 1];
          assert parse(lines[from + 1 + (k - 1)], from + 1 + (k - 1)) == Ok(rest[k - 1]);
        }
      }
    }
  }

  // ----- fields -----

  function Fields(line: string): seq<string> { TrimAll(Split(line, ',')) }

  /** A missing field is undefined. */
  function Field(fields: seq<string>, i: nat): Option<string>
  {
    if i < |fields| then Some(fields[i]) else None
  }

  predicate Falsy(field: Option<string>) { field == None || field.value == "" }

  function OrElse(field: Option<string>, default: string): string { if Falsy(field) then default else field.value }

  predicate IsDigit(c: char) { '0' <= c <= '9' }

  predicate IsEmployeeCode(s: string)
  {
    |s| == 4 && s[0] == 'E' && IsDigit(s[1]) && IsDigit(s[2]) && IsDigit(s[3])
  }

  predicate IsIsoDate(s: string)
  {
    && |s| == 10 && s[4] == '-' && s[7] == '-'
    && forall i :: 0 <= i < 10 && i != 4 && i != 7 ==> IsDigit(s[i])
  }

  predicate IsDateField(field: Option<string>) { field.Some? && IsIsoDate(field.value) }

  /** Text comparison, character by character. */
  predicate Before(a: string, b: string)
  {
    if b == "" then false
    else if a == "" then true
    else a[0] < b[0] || (a[0] == b[0] && Before(a[1..], b[1..]))
  }

  function LowerCase(c: char): char { if 'A' <= c <= 'Z' then c - 'A' + 'a' else c }

  function ToLower(s: string): string { seq(|s|, i requires 0 <= i < |s| => LowerCase(s[i])) }

  function ParseBoolean(field: Option<string>, default: bool): Option<bool>
  {
    if Falsy(field) then Some(default)
    else if ToLower(field.value) in ["true", "yes", "1"] then Some(true)
    else if ToLower(field.value) in ["false", "no", "0"] then Some(false)
    else None
  }

  function ShowBoolean(b: bool): string { if b then "true" else "false" }

  function ParsePositiveInteger(n: Numerals, field: Option<string>, default: int): Option<int>
  {
    if Falsy(field) then Some(default)
    else if n.read(field.value).Some? && n.read(field.value).value > 0 then n.read(field.value)
    else None
  }

  lemma BooleanRoundTrip(b: bool)
    ensures ParseBoolean(Some(ShowBoolean(b)), true) == Some(b)
    ensures PlainText(ShowBoolean(b))
  {
    if b {
      assert ToLower("true") == "true";
    } else {
      assert ToLower("false") == "false";
      assert "false"[0] != "true"[0] && "false"[0] != "yes"[0] && "false"[0] != "1"[0];
    }
  }

  predicate AllPlain(fields: seq<string>) { forall i :: 0 <= i < |fields| ==> PlainText(fields[i]) }

  /** Printing plain fields gives one clean line, and the fields come back. */
  lemma FieldsRoundTrip(fields: seq<string>)
    requires fields != [] && AllPlain(fields)
    ensures Fields(Join(fields, ',')) == fields
  {
    SplitJoin(fields, ',');
    TrimAllTrims(fields);
  }

  lemma {:induction false} JoinedEnds(fields: seq<string>, sep: char)
    requires fields != [] && Filled(fields)
    ensures Join(fields, sep) != "" && Join(fields, sep)[0] == fields[0][0]
    ensures
      var line, last := Join(fields, sep), fields[|fields| - 1];
      line[|line| - 1] == last[|last| - 1]
  {
    if |fields| > 1 {
      JoinedEnds(fields[1..], sep);
    }
  }

  lemma JoinedLineIsClean(fields: seq<string>)
    requires fields != [] && AllPlain(fields)
    ensures CleanLine(Join(fields, ','))
  {
    JoinedEnds(fields, ',');
    JoinMembers(fields, ',');
  }

  /** A field that parsing reads is trimmed and free of separators. */
  lemma FieldIsClean(line: string, i: nat)
    requires i < |Fields(line)| && '\n' !in line
    ensures Trimmed(Fields(line)[i]) && ',' !in Fields(line)[i] && '\n' !in Fields(line)[i]
  {
    var parts := Split(line, ',');
    SplitParts(line, ',');
    assert parts[i] in parts;
    TrimTrims(parts[i]);
  }

  // ----- pairs -----

  function ParsePairLine(line: string, index: nat): Result<Pair>
  {
    var fields := Fields(line);
    var a, b, allowed := Field(fields, 0), Field(fields, 1), ParseBoolean(Field(fields, 3), true);
    if Falsy(a) || !IsEmployeeCode(a.value) then Err(InvalidCode(index + 1))
    else if Falsy(b) || !IsEmployeeCode(b.value) then Err(InvalidCode(index + 1))
    else if a == b then Err(SameEmployee(index + 1))
    else if allowed == None then Err(InvalidBoolean(index + 1))
    else Ok(Pair(a.value, b.value, OrElse(Field(fields, 2), "high"), allowed.value))
  }

  function PairParser(): (string, nat) -> Result<Pair> { (line: string, index: nat) => ParsePairLine(line, index) }

  function ParsePairDraft(text: string): Result<seq<Pair>> { ParseAll(PairParser(), NonEmptyLines(text), 0) }

  function PairFields(p: Pair): seq<string>
  {
    [p.codeA, p.codeB, if p.severity == "" then "high" else p.severity, ShowBoolean(p.overrideAllowed)]
  }

  function PairLines(ps: seq<Pair>): seq<string>
  {
    seq(|ps|, i requires 0 <= i < |ps| => Join(PairFields(ps[i]), ','))
  }

  function FormatPairDraft(ps: seq<Pair>): string { Join(PairLines(ps), '\n') }

  predicate WellFormedPair(p: Pair)
  {
    && IsEmployeeCode(p.codeA) && IsEmployeeCode(p.codeB) && p.codeA != p.codeB
    && (p.severity == "" || PlainText(p.severity))
  }

  function WithSeverity(p: Pair): Pair { if p.severity == "" then p.(severity := "high") else p }

  lemma CodeIsPlain(code: string)
    requires IsEmployeeCode(code)
    ensures PlainText(code)
  {
  }

  lemma PairFieldsArePlain(p: Pair)
    requires WellFormedPair(p)
    ensures AllPlain(PairFields(p))
  {
    CodeIsPlain(p.codeA);
    CodeIsPlain(p.codeB);
    BooleanRoundTrip(p.overrideAllowed);
  }

  lemma PairLineRoundTrip(p: Pair, index: nat)
    requires WellFormedPair(p)
    ensures CleanLine(Join(PairFields(p), ','))
    ensures ParsePairLine(Join(PairFields(p), ','), index) == Ok(WithSeverity(p))
  {
    PairFieldsArePlain(p);
    FieldsRoundTrip(PairFields(p));
    JoinedLineIsClean(PairFields(p));
    PairFromFields(p, Join(PairFields(p), ','), index);
  }

  lemma PairFromFields(p: Pair, line: string, index: nat)
    requires WellFormedPair(p) && Fields(line) == PairFields(p)
    ensures ParsePairLine(line, index) == Ok(WithSeverity(p))
  {
    var fields := Fields(line);
    assert fields[0] == p.codeA && fields[1] == p.codeB && fields[3] == ShowBoolean(p.overrideAllowed);
    BooleanRoundTrip(p.overrideAllowed);
  }

  function WithSeverities(ps: seq<Pair>): seq<Pair>
  {
    seq(|ps|, i requires 0 <= i < |ps| => WithSeverity(ps[i]))
  }

  /** Parsing printed pairs gives them back, with the default severity filled in. */
  lemma PairDraftRoundTrip(ps: seq<Pair>)
    requires forall i :: 0 <= i < |ps| ==> WellFormedPair(ps[i])
    ensures ParsePairDraft(FormatPairDraft(ps)) == Ok(WithSeverities(ps))
  {
    var lines := PairLines(ps);
    forall i | 0 <= i < |ps| ensures CleanLine(lines[i]) && PairParser()(lines[i], i) == Ok(WithSeverities(ps)[i]) {
      PairLineRoundTrip(ps[i], i);
    }
    LinesOfJoined(lines);
    ParseAllGives(PairParser(), lines, WithSeverities(ps), 0);
  }

  lemma ParsedPairIsWellFormed(line: string, index: nat)
    requires CleanLine(line) && ParsePairLine(line, index).Ok?
    ensures WellFormedPair(ParsePairLine(line, index).value)
    ensures ParsePairLine(line, index).value.severity != ""
  {
    if 2 < |Fields(line)| {
      FieldIsClean(line, 2);
    }
  }

  lemma ParsedPairAt(text: string, i: nat)
    requires ParsePairDraft(text).Ok? && i < |ParsePairDraft(text).value|
    ensures WellFormedPair(ParsePairDraft(text).value[i])
    ensures WithSeverity(ParsePairDraft(text).value[i]) == ParsePairDraft(text).value[i]
  {
    var lines := NonEmptyLines(text);
    NonEmptyLinesAreClean(text);
    ParseAllGave(PairParser(), lines, 0);
    assert lines[i] in lines;
    assert PairParser()(lines[0 + i], 0 + i) == Ok(ParsePairDraft(text).value[i]);
    ParsedPairIsWellFormed(lines[i], i);
  }

  lemma WithSeveritiesDone(ps: seq<Pair>)
    requires forall i :: 0 <= i < |ps| ==> WithSeverity(ps[i]) == ps[i]
    ensures WithSeverities(ps) == ps
  {
  }

  /** Whatever text parses, printing what it gave and parsing again gives the same. */
  lemma PairDraftIsStable(text: string)
    requires ParsePairDraft(text).Ok?
    ensures ParsePairDraft(FormatPairDraft(ParsePairDraft(text).value)) == ParsePairDraft(text)
  {
    var ps := ParsePairDraft(text).value;
    forall i | 0 <= i < |ps| ensures WellFormedPair(ps[i]) && WithSeverity(ps[i]) == ps[i] {
      ParsedPairAt(text, i);
    }
    PairDraftRoundTrip(ps);
    WithSeveritiesDone(ps);
  }

  // ----- vacations -----

  /** A row with a date in its third field is a range; otherwise it is one day, and the fields
      after the start date move up by one. */
  function ParseVacationLine(line: string, index: nat): Result<Vacation>
  {
    var fields := Fields(line);
    var code, startDate, third := Field(fields, 0), Field(fields, 1), Field(fields, 2);
    if Falsy(code) || !IsEmployeeCode(code.value) then Err(InvalidCode(index + 1))
    else if !IsDateField(startDate) then Err(InvalidStartDate(index + 1))
    else
      var range := IsDateField(third);
      var endDate := if range then third.value else startDate.value;
      var kind := if range then Field(fields, 3) else third;
      var allowed := ParseBoolean(if range then Field(fields, 4) else Field(fields, 3), true);
      if Before(endDate, startDate.value) then Err(EndBeforeStart(index + 1))
      else if allowed == None then Err(InvalidBoolean(index + 1))
      else Ok(Vacation(code.value, startDate.value, endDate, OrElse(kind, "vacation"), allowed.value))
  }

  function VacationParser(): (string, nat) -> Result<Vacation>
  {
    (line: string, index: nat) => ParseVacationLine(line, index)
  }

  function ParseVacationDraft(text: string): Result<seq<Vacation>>
  {
    ParseAll(VacationParser(), NonEmptyLines(text), 0)
  }

  function VacationFields(v: Vacation): seq<string>
  {
    [v.code, v.startDate, v.endDate, if v.kind == "" then "vacation" else v.kind, ShowBoolean(v.overrideAllowed)]
  }

  function VacationLines(vs: seq<Vacation>): seq<string>
  {
    seq(|vs|, i requires 0 <= i < |vs| => Join(VacationFields(vs[i]), ','))
  }

  function FormatVacationDraft(vs: seq<Vacation>): string { Join(VacationLines(vs), '\n') }

  predicate WellFormedVacation(v: Vacation)
  {
    && IsEmployeeCode(v.code) && IsIsoDate(v.startDate) && IsIsoDate(v.endDate)
    && !Before(v.endDate, v.startDate)
    && (v.kind == "" || PlainText(v.kind))
  }

  function WithKind(v: Vacation): Vacation { if v.kind == "" then v.(kind := "vacation") else v }

  function WithKinds(vs: seq<Vacation>): seq<Vacation>
  {
    seq(|vs|, i requires 0 <= i < |vs| => WithKind(vs[i]))
  }

  lemma DateIsPlain(date: string)
    requires IsIsoDate(date)
    ensures PlainText(date)
  {
    assert IsDigit(date[0]) && IsDigit(date[9]);
    forall i | 0 <= i < |date| ensures date[i] != ',' && date[i] != '\n' {
      assert i == 4 || i == 7 || IsDigit(date[i]);
    }
  }

  lemma VacationFieldsArePlain(v: Vacation)
    requires WellFormedVacation(v)
    ensures AllPlain(VacationFields(v))
  {
    CodeIsPlain(v.code);
    DateIsPlain(v.startDate);
    DateIsPlain(v.endDate);
    BooleanRoundTrip(v.overrideAllowed);
  }

  lemma VacationLineRoundTrip(v: Vacation, index: nat)
    requires WellFormedVacation(v)
    ensures CleanLine(Join(VacationFields(v), ','))
    ensures ParseVacationLine(Join(VacationFields(v), ','), index) == Ok(WithKind(v))
  {
    VacationFieldsArePlain(v);
    FieldsRoundTrip(VacationFields(v));
    JoinedLineIsClean(VacationFields(v));
    VacationFromFields(v, Join(VacationFields(v), ','), index);
  }

  lemma VacationFromFields(v: Vacation, line: string, index: nat)
    requires WellFormedVacation(v) && Fields(line) == VacationFields(v)
    ensures ParseVacationLine(line, index) == Ok(WithKind(v))
  {
    var fields := Fields(line);
    assert fields[0] == v.code && fields[1] == v.startDate && fields[2] == v.endDate;
    assert fields[4] == ShowBoolean(v.overrideAllowed);
    BooleanRoundTrip(v.overrideAllowed);
  }

  /** Parsing printed vacations gives them back, with the default kind filled in. */
  lemma VacationDraftRoundTrip(vs: seq<Vacation>)
    requires forall i :: 0 <= i < |vs| ==> WellFormedVacation(vs[i])
    ensures ParseVacationDraft(FormatVacationDraft(vs)) == Ok(WithKinds(vs))
  {
    var lines := VacationLines(vs);
    forall i | 0 <= i < |vs| ensures CleanLine(lines[i]) && VacationParser()(lines[i], i) == Ok(WithKinds(vs)[i]) {
      VacationLineRoundTrip(vs[i], i);
    }
    LinesOfJoined(lines);
    ParseAllGives(VacationParser(), lines, WithKinds(vs), 0);
  }

  lemma ParsedVacationIsWellFormed(line: string, index: nat)
    requires CleanLine(line) && ParseVacationLine(line, index).Ok?
    ensures WellFormedVacation(ParseVacationLine(line, index).value)
    ensures ParseVacationLine(line, index).value.kind != ""
  {
    if 2 < |Fields(line)| {
      FieldIsClean(line, 2);
    }
    if 3 < |Fields(line)| {
      FieldIsClean(line, 3);
    }
  }

  lemma ParsedVacationAt(text: string, i: nat)
    requires ParseVacationDraft(text).Ok? && i < |ParseVacationDraft(text).value|
    ensures WellFormedVacation(ParseVacationDraft(text).value[i])
    ensures WithKind(ParseVacationDraft(text).value[i]) == ParseVacationDraft(text).value[i]
  {
    var lines := NonEmptyLines(text);
    NonEmptyLinesAreClean(text);
    ParseAllGave(VacationParser(), lines, 0);
    assert lines[i] in lines;
    assert VacationParser()(lines[0 + i], 0 + i) == Ok(ParseVacationDraft(text).value[i]);
    ParsedVacationIsWellFormed(lines[i], i);
  }

  lemma WithKindsDone(vs: seq<Vacation>)
    requires forall i :: 0 <= i < |vs| ==> WithKind(vs[i]) == vs[i]
    ensures WithKinds(vs) == vs
  {
  }

  /** Whatever text parses, printing what it gave and parsing again gives the same; one-day
      rows come back as ranges of one day. */
  lemma VacationDraftIsStable(text: string)
    requires ParseVacationDraft(text).Ok?
    ensures ParseVacationDraft(FormatVacationDraft(ParseVacationDraft(text).value)) == ParseVacationDraft(text)
  {
    var vs := ParseVacationDraft(text).value;
    forall i | 0 <= i < |vs| ensures WellFormedVacation(vs[i]) && WithKind(vs[i]) == vs[i] {
      ParsedVacationAt(text, i);
    }
    VacationDraftRoundTrip(vs);
    WithKindsDone(vs);
  }
}
