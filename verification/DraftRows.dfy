/** What a line of a draft means, field by field, and which complaint a draft that does not parse
    gives. */
module DraftRows {
  import opened Options
  import opened Sequences
  import opened DraftText
  import opened ScenarioDraft
  import opened EmployeeDraft

  // ----- text -----

  /** Joining undoes splitting, for every text. */
  lemma {:induction false} JoinSplit(text: string, sep: char)
    ensures Join(Split(text, sep), sep) == text
  {
    if text != "" {
      var rest := Split(text[1..], sep);
      JoinSplit(text[1..], sep);
      assert text == [text[0]] + text[1..];
      if text[0] == sep {
        assert ([""] + rest)[1..] == rest;
      } else {
        assert ([[text[0]] + rest[0]] + rest[1..])[1..] == rest[1..];
      }
    }
  }

  /** Of the ASCII characters, white space is the blank, the tab and the line terminators. */
  lemma AsciiSpaceIs(c: char)
    requires c as int < 128
    ensures IsSpace(c) <==> c as int == 32 || 9 <= c as int <= 13
  {
  }

  predicate AllSpace(s: string) { forall i :: 0 <= i < |s| ==> IsSpace(s[i]) }

  lemma {:induction false} TrimStartTakesSpace(s: string) returns (a: string)
    ensures s == a + TrimStart(s) && AllSpace(a)
  {
    if s != "" && IsSpace(s[0]) {
      var b := TrimStartTakesSpace(s[1..]);
      a := [s[0]] + b;
    } else {
      a := "";
    }
  }

  lemma {:induction false} TrimEndTakesSpace(s: string) returns (b: string)
    ensures s == TrimEnd(s) + b && AllSpace(b)
  {
    if s != "" && IsSpace(s[|s| - 1]) {
      var a := TrimEndTakesSpace(s[..|s| - 1]);
      b := a + [s[|s| - 1]];
      assert s == s[..|s| - 1] + [s[|s| - 1]];
    } else {
      b := "";
    }
  }

  /** Trimming takes white space, all of it and nothing else, off the two ends. */
  lemma TrimTakesSpace(s: string) returns (a: string, b: string)
    ensures s == a + Trim(s) + b && AllSpace(a) && AllSpace(b) && Trimmed(Trim(s))
  {
    a := TrimStartTakesSpace(s);
    b := TrimEndTakesSpace(TrimStart(s));
    TrimTrims(s);
  }

  lemma KeepNonEmptyStep(first: string, rest: seq<string>)
    ensures KeepNonEmpty([first] + rest) == (if first != "" then [first] else []) + KeepNonEmpty(rest)
  {
    assert ([first] + rest)[1..] == rest;
  }

  lemma {:induction false} KeepNonEmptyConcat(a: seq<string>, b: seq<string>)
    ensures KeepNonEmpty(a + b) == KeepNonEmpty(a) + KeepNonEmpty(b)
  {
    if a == [] {
      assert a + b == b;
    } else {
      var rest := a[1..];
      KeepNonEmptyConcat(rest, b);
      ConcatAssociative([a[0]], rest, b);
      KeepNonEmptyStep(a[0], rest + b);
      KeepNonEmptyStep(a[0], rest);
      assert a == [a[0]] + rest;
      ConcatAssociative(if a[0] != "" then [a[0]] else [], KeepNonEmpty(rest), KeepNonEmpty(b));
    }
  }

  lemma KeepOne(s: string)
    ensures KeepNonEmpty([s]) == if s == "" then [] else [s]
  {
    assert KeepNonEmpty([s][1..]) == [];
  }

  lemma {:induction false} TrimEndOfSpaced(s: string, c: char)
    requires IsSpace(c)
    ensures Trim(s + [c]) == Trim(s)
    decreases |s|
  {
    if s != "" && IsSpace(s[0]) {
      assert (s + [c])[1..] == s[1..] + [c];
      TrimEndOfSpaced(s[1..], c);
    } else {
      assert (s + [c])[..|s|] == s;
      assert s == "" ==> s + [c] == [c] && [c][1..] == "";
    }
  }

  lemma TrimDropsReturn(s: string)
    ensures Trim(DropReturn(s)) == Trim(s)
  {
    if s != "" && s[|s| - 1] == '\r' {
      TrimEndOfSpaced(s[..|s| - 1], '\r');
      assert s == s[..|s| - 1] + ['\r'];
    }
  }

  /** Lines may end in a line feed alone or after a carriage return: what is read is each piece
      between line feeds, trimmed, but for the blank ones. */
  lemma LinesArePieces(text: string)
    ensures NonEmptyLines(text) == KeepNonEmpty(TrimAll(Split(text, '\n')))
  {
    var parts := Split(text, '\n');
    forall i | 0 <= i < |parts| ensures Trim(SplitLines(text)[i]) == Trim(parts[i]) {
      TrimDropsReturn(parts[i]);
    }
    assert TrimAll(SplitLines(text)) == TrimAll(parts);
  }

  /** A blank line between two texts is not read, and neither text reads otherwise for it. */
  lemma BlankLinesAreIgnored(a: seq<string>, blank: string, b: seq<string>)
    requires Trim(blank) == ""
    ensures KeepNonEmpty(TrimAll(a + [blank] + b)) == KeepNonEmpty(TrimAll(a + b))
  {
    assert TrimAll(a + [blank] + b) == TrimAll(a) + [""] + TrimAll(b);
    assert TrimAll(a + b) == TrimAll(a) + TrimAll(b);
    KeepNonEmptyConcat(TrimAll(a) + [""], TrimAll(b));
    KeepNonEmptyConcat(TrimAll(a), [""]);
    KeepOne("");
    KeepNonEmptyConcat(TrimAll(a), TrimAll(b));
  }

  // ----- dates and codes -----

  function Digits(s: string, i: nat, n: nat): int
    requires i + n <= |s|
  {
    if n == 0 then 0 else 10 * Digits(s, i, n - 1) + (s[i + n - 1] as int - '0' as int)
  }

  /** The number whose digits are those of the date. */
  function DateNumber(s: string): int
    requires IsIsoDate(s)
  {
    10000 * Digits(s, 0, 4) + 100 * Digits(s, 5, 2) + Digits(s, 8, 2)
  }

  /** The first place where two texts of one length differ decides their order. */
  lemma {:induction false} BeforeAt(a: string, b: string, k: nat)
    requires |a| == |b| && k < |a| && a[k] != b[k]
    requires forall i :: 0 <= i < k ==> a[i] == b[i]
    ensures Before(a, b) <==> a[k] < b[k]
  {
    if k > 0 {
      BeforeAt(a[1..], b[1..], k - 1);
    }
  }

  lemma {:induction false} NotBeforeItself(a: string)
    ensures !Before(a, a)
  {
    if a != "" {
      NotBeforeItself(a[1..]);
    }
  }

  lemma {:induction false} FirstDifference(a: string, b: string) returns (k: nat)
    requires |a| == |b| && a != b
    ensures k < |a| && a[k] != b[k] && forall i :: 0 <= i < k ==> a[i] == b[i]
  {
    if a[0] != b[0] {
      k := 0;
    } else {
      assert a == [a[0]] + a[1..] && b == [b[0]] + b[1..];
      var j := FirstDifference(a[1..], b[1..]);
      k := j + 1;
      forall i | 0 <= i < k ensures a[i] == b[i] {
        assert i > 0 ==> a[1..][i - 1] == b[1..][i - 1];
      }
    }
  }

  lemma DateNumberIs(s: string)
    requires IsIsoDate(s)
    ensures
      var d := (i: int) requires 0 <= i < 10 => s[i] as int - '0' as int;
      && DateNumber(s) == 10000000 * d(0) + 1000000 * d(1) + 100000 * d(2) + 10000 * d(3)
           + 1000 * d(5) + 100 * d(6) + 10 * d(8) + d(9)
      && 0 <= d(0) <= 9 && 0 <= d(1) <= 9 && 0 <= d(2) <= 9 && 0 <= d(3) <= 9
      && 0 <= d(5) <= 9 && 0 <= d(6) <= 9 && 0 <= d(8) <= 9 && 0 <= d(9) <= 9
  {
    assert IsDigit(s[0]) && IsDigit(s[1]) && IsDigit(s[2]) && IsDigit(s[3]);
    assert IsDigit(s[5]) && IsDigit(s[6]) && IsDigit(s[8]) && IsDigit(s[9]);
    assert Digits(s, 5, 2) == 10 * (10 * Digits(s, 5, 0) + (s[5] as int - '0' as int)) + (s[6] as int - '0' as int);
    assert Digits(s, 8, 2) == 10 * (10 * Digits(s, 8, 0) + (s[8] as int - '0' as int)) + (s[9] as int - '0' as int);
    YearDigits(s);
  }

  lemma YearDigits(s: string)
    requires |s| == 10
    ensures Digits(s, 0, 4) == 1000 * (s[0] as int - '0' as int) + 100 * (s[1] as int - '0' as int)
      + 10 * (s[2] as int - '0' as int) + (s[3] as int - '0' as int)
  {
    assert Digits(s, 0, 1) == s[0] as int - '0' as int;
    assert Digits(s, 0, 2) == 10 * Digits(s, 0, 1) + (s[1] as int - '0' as int);
    assert Digits(s, 0, 3) == 10 * Digits(s, 0, 2) + (s[2] as int - '0' as int);
  }

  /** Dates compare as text the way they compare as years, months and days. */
  lemma DatesCompareAsNumbers(a: string, b: string)
    requires IsIsoDate(a) && IsIsoDate(b)
    ensures Before(a, b) <==> DateNumber(a) < DateNumber(b)
  {
    DateNumberIs(a);
    DateNumberIs(b);
    if a == b {
      NotBeforeItself(a);
    } else {
      var k := FirstDifference(a, b);
      BeforeAt(a, b, k);
      assert k != 4 && k != 7;
    }
  }

  function CodeText(n: int): string
    requires 0 <= n < 1000
  {
    ['E', Digit(n / 100), Digit(n / 10 % 10), Digit(n % 10)]
  }

  lemma CodeTextIsCode(n: int)
    requires 0 <= n < 1000
    ensures IsEmployeeCode(CodeText(n))
  {
  }

  lemma CodeIsText(s: string) returns (n: int)
    requires IsEmployeeCode(s)
    ensures 0 <= n < 1000 && s == CodeText(n)
  {
    var a, b, c := s[1] as int - '0' as int, s[2] as int - '0' as int, s[3] as int - '0' as int;
    n := 100 * a + 10 * b + c;
    assert n / 100 == a && n / 10 == 10 * a + b && n / 10 % 10 == b && n % 10 == c;
    assert Digit(a) == s[1] && Digit(b) == s[2] && Digit(c) == s[3];
  }

  /** The employee codes are exactly E000 to E999. */
  lemma CodesAre(s: string)
    ensures IsEmployeeCode(s) <==> exists n :: 0 <= n < 1000 && s == CodeText(n)
  {
    if IsEmployeeCode(s) {
      var n := CodeIsText(s);
    }
    if n :| 0 <= n < 1000 && s == CodeText(n) {
      CodeTextIsCode(n);
    }
  }

  // ----- fields -----

  predicate HasCode(fields: seq<string>, i: nat) { i < |fields| && IsEmployeeCode(fields[i]) }

  predicate HasDate(fields: seq<string>, i: nat) { i < |fields| && IsIsoDate(fields[i]) }

  predicate IsBlank(fields: seq<string>, i: nat) { i >= |fields| || fields[i] == "" }

  /** The text of a field, or what stands for a missing or blank one. */
  function TextAt(fields: seq<string>, i: nat, default: string): string
  {
    if i < |fields| && fields[i] != "" then fields[i] else default
  }

  /** The field says yes or no, in any case; a missing or blank one says yes. */
  predicate SaysFlag(fields: seq<string>, i: nat, flag: bool)
  {
    if IsBlank(fields, i) then flag
    else if flag then ToLower(fields[i]) == "true" || ToLower(fields[i]) == "yes" || ToLower(fields[i]) == "1"
    else ToLower(fields[i]) == "false" || ToLower(fields[i]) == "no" || ToLower(fields[i]) == "0"
  }

  /** Case is that of the ASCII letters, character by character. */
  lemma CaseIsIgnored(s: string, t: string)
    requires |s| == |t|
    requires forall i :: 0 <= i < |s| ==>
      s[i] == t[i] || ('A' <= s[i] <= 'Z' && t[i] as int == s[i] as int + 32)
    ensures ToLower(s) == ToLower(t)
  {
  }

  lemma FlagWords(w: string)
    ensures w in ["true", "yes", "1"] <==> w == "true" || w == "yes" || w == "1"
    ensures w in ["false", "no", "0"] <==> w == "false" || w == "no" || w == "0"
    ensures !((w == "true" || w == "yes" || w == "1") && (w == "false" || w == "no" || w == "0"))
  {
    var yes, no := ["true", "yes", "1"], ["false", "no", "0"];
    assert yes[0] == "true" && yes[1] == "yes" && yes[2] == "1";
    assert no[0] == "false" && no[1] == "no" && no[2] == "0";
    assert w == "true" || w == "yes" || w == "1" ==> w[0] == 't' || w[0] == 'y' || w[0] == '1';
    assert w == "false" || w == "no" || w == "0" ==> w[0] == 'f' || w[0] == 'n' || w[0] == '0';
  }

  lemma FlagIsRead(fields: seq<string>, i: nat, flag: bool)
    ensures ParseBoolean(Field(fields, i), true) == Some(flag) <==> SaysFlag(fields, i, flag)
    ensures ParseBoolean(Field(fields, i), true) == None <==>
      !SaysFlag(fields, i, true) && !SaysFlag(fields, i, false)
  {
    if i < |fields| {
      FlagWords(ToLower(fields[i]));
    }
  }

  // ----- pairs -----

  ghost predicate PairMeans(fields: seq<string>, p: Pair)
  {
    && HasCode(fields, 0) && HasCode(fields, 1) && fields[0] != fields[1]
    && p.codeA == fields[0] && p.codeB == fields[1]
    && p.severity == TextAt(fields, 2, "high")
    && SaysFlag(fields, 3, p.overrideAllowed)
  }

  /** A pair row gives a pair exactly when it says that pair: two different codes, a severity that is
      high unless given, and a flag that is yes unless given. */
  lemma PairLineIff(line: string, index: nat, p: Pair)
    ensures ParsePairLine(line, index) == Ok(p) <==> PairMeans(Fields(line), p)
  {
    FlagIsRead(Fields(line), 3, p.overrideAllowed);
  }

  /** The complaint about a pair row names its place, counted from one, and the first thing wrong. */
  lemma PairComplaintIff(line: string, index: nat, e: Error)
    ensures ParsePairLine(line, index) == Err(e) <==>
      var fields := Fields(line);
      var codes := HasCode(fields, 0) && HasCode(fields, 1);
      || (!codes && e == InvalidCode(index + 1))
      || (codes && fields[0] == fields[1] && e == SameEmployee(index + 1))
      || (codes && fields[0] != fields[1] && !SaysFlag(fields, 3, true) && !SaysFlag(fields, 3, false)
            && e == InvalidBoolean(index + 1))
  {
    FlagIsRead(Fields(line), 3, true);
  }

  // ----- vacations -----

  ghost predicate VacationMeans(fields: seq<string>, v: Vacation)
  {
    && HasCode(fields, 0) && HasDate(fields, 1) && v.code == fields[0] && v.startDate == fields[1]
    && (if HasDate(fields, 2)
        then v.endDate == fields[2] && v.kind == TextAt(fields, 3, "vacation") && SaysFlag(fields, 4, v.overrideAllowed)
        else v.endDate == v.startDate && v.kind == TextAt(fields, 2, "vacation")
             && SaysFlag(fields, 3, v.overrideAllowed))
    && IsIsoDate(v.endDate) && DateNumber(v.startDate) <= DateNumber(v.endDate)
  }

  /** A vacation row gives a vacation exactly when it says that vacation: a range when its third field
      is a date, and otherwise one day, whose kind and flag then come one field earlier. */
  lemma VacationLineIff(line: string, index: nat, v: Vacation)
    ensures ParseVacationLine(line, index) == Ok(v) <==> VacationMeans(Fields(line), v)
  {
    var fields := Fields(line);
    if HasDate(fields, 1) {
      var endDate := if HasDate(fields, 2) then fields[2] else fields[1];
      DatesCompareAsNumbers(endDate, fields[1]);
      FlagIsRead(fields, if HasDate(fields, 2) then 4 else 3, v.overrideAllowed);
    }
  }

  lemma VacationComplaintIff(line: string, index: nat, e: Error)
    ensures ParseVacationLine(line, index) == Err(e) <==>
      var fields := Fields(line);
      var range := HasDate(fields, 2);
      var flagAt := if range then 4 else 3;
      || (!HasCode(fields, 0) && e == InvalidCode(index + 1))
      || (HasCode(fields, 0) && !HasDate(fields, 1) && e == InvalidStartDate(index + 1))
      || (HasCode(fields, 0) && HasDate(fields, 1) && (
            var backwards := range && DateNumber(fields[2]) < DateNumber(fields[1]);
            || (backwards && e == EndBeforeStart(index + 1))
            || (!backwards && !SaysFlag(fields, flagAt, true) && !SaysFlag(fields, flagAt, false)
                  && e == InvalidBoolean(index + 1))))
  {
    var fields := Fields(line);
    if HasDate(fields, 1) {
      var endDate := if HasDate(fields, 2) then fields[2] else fields[1];
      DatesCompareAsNumbers(endDate, fields[1]);
      FlagIsRead(fields, if HasDate(fields, 2) then 4 else 3, true);
    }
  }

  // ----- employees -----

  /** The field holds a positive number; a missing or blank one holds five. */
  predicate SaysShifts(n: Numerals, fields: seq<string>, i: nat, shifts: int)
  {
    0 < shifts && if IsBlank(fields, i) then shifts == 5 else n.read(fields[i]) == Some(shifts)
  }

  ghost predicate EmployeeMeans(n: Numerals, fields: seq<string>, e: Employee)
  {
    && HasCode(fields, 0) && e.code == fields[0]
    && !IsBlank(fields, 1) && e.name == fields[1]
    && !IsBlank(fields, 2) && e.roleNames == KeepNonEmpty(TrimAll(Split(fields[2], '|'))) && e.roleNames != []
    && SaysShifts(n, fields, 3, e.maxShiftsPerWeek)
  }

  /** An employee row gives an employee exactly when it says that employee, with a code that no
      earlier row has, under the row's number. */
  lemma EmployeeLineIff(n: Numerals, line: string, index: nat, seen: set<string>, e: Employee)
    ensures ParseEmployeeLine(n, line, index, seen) == Ok(e) <==>
      EmployeeMeans(n, Fields(line), e) && e.code !in seen && e.rowNo == index + 1
  {
  }

  function RolesIn(fields: seq<string>): seq<string>
  {
    if IsBlank(fields, 2) then [] else KeepNonEmpty(TrimAll(Split(fields[2], '|')))
  }

  lemma NoShifts(n: Numerals, fields: seq<string>, i: nat)
    ensures ParsePositiveInteger(n, Field(fields, i), 5) == None <==> forall shifts :: !SaysShifts(n, fields, i, shifts)
  {
    if IsBlank(fields, i) {
      assert SaysShifts(n, fields, i, 5);
    } else if n.read(fields[i]).Some? {
      assert SaysShifts(n, fields, i, n.read(fields[i]).value) <==> n.read(fields[i]).value > 0;
    }
  }

  lemma EmployeeComplaintIff(n: Numerals, line: string, index: nat, seen: set<string>, e: Error)
    ensures ParseEmployeeLine(n, line, index, seen) == Err(e) <==>
      var fields := Fields(line);
      || (!HasCode(fields, 0) && e == InvalidCode(index + 1))
      || (HasCode(fields, 0) && fields[0] in seen && e == DuplicateCode(fields[0]))
      || (HasCode(fields, 0) && fields[0] !in seen && (
            || (IsBlank(fields, 1) && e == MissingName(index + 1))
            || (!IsBlank(fields, 1) && RolesIn(fields) == [] && e == MissingRoles(index + 1))
            || (!IsBlank(fields, 1) && RolesIn(fields) != [] && (forall shifts :: !SaysShifts(n, fields, 3, shifts))
                  && e == InvalidNumber(index + 1))))
  {
    var fields := Fields(line);
    NoShifts(n, fields, 3);
    assert RolesOf(Field(fields, 2)) == RolesIn(fields);
  }

  // ----- the first complaint -----

  /** The line at `i` is the first that does not parse, and this is the complaint about it. */
  ghost predicate FirstComplaint<T>(parse: (string, nat) -> Result<T>, lines: seq<string>, from: nat, i: nat, e: Error)
  {
    && from <= i < |lines| && parse(lines[i], i) == Err(e)
    && forall j :: from <= j < i ==> parse(lines[j], j).Ok?
  }

  /** A draft that does not parse gives the complaint about its first line that does not. */
  lemma {:induction false} FirstComplaintIsGiven<T>(parse: (string, nat) -> Result<T>, lines: seq<string>, from: nat,
                                                    e: Error)
    requires from <= |lines|
    ensures ParseAll(parse, lines, from) == Err(e) <==> exists i: nat :: FirstComplaint(parse, lines, from, i, e)
    decreases |lines| - from
  {
    if from < |lines| {
      var next := from + 1;
      FirstComplaintIsGiven(parse, lines, next, e);
      if parse(lines[from], from).Err? {
        assert parse(lines[from], from) == Err(e) ==> FirstComplaint(parse, lines, from, from, e);
      } else {
        if i: nat :| FirstComplaint(parse, lines, from, i, e) {
          assert FirstComplaint(parse, lines, next, i, e);
        }
        if i: nat :| FirstComplaint(parse, lines, next, i, e) {
          assert FirstComplaint(parse, lines, from, i, e);
        }
      }
    }
  }

  /** The line at `i` is the first that does not parse after the lines before it, whose codes are
      those that `codes` gives. */
  ghost predicate ComplaintAt(parse: LineParser, lines: seq<string>, codes: nat -> set<string>, from: nat, i: nat,
                              e: Error)
  {
    && from <= i < |lines| && parse(lines[i], i, codes(i)) == Err(e)
    && forall j: nat :: from <= j < i ==> parse(lines[j], j, codes(j)).Ok?
  }

  ghost predicate GathersCodes(parse: LineParser, lines: seq<string>, codes: nat -> set<string>)
  {
    forall i: nat :: i < |lines| && parse(lines[i], i, codes(i)).Ok? ==>
      codes(i + 1) == codes(i) + {parse(lines[i], i, codes(i)).value.code}
  }

  lemma {:induction false} ComplaintFrom(parse: LineParser, lines: seq<string>, codes: nat -> set<string>,
                                         rows: seq<Employee>, e: Error)
    requires |rows| <= |lines| && GathersCodes(parse, lines, codes)
    ensures ParseEmployees(parse, lines, rows, codes(|rows|)) == Err(e) <==>
      exists i: nat :: ComplaintAt(parse, lines, codes, |rows|, i, e)
    decreases |lines| - |rows|
  {
    var from := |rows|;
    if from < |lines| {
      var row, next := parse(lines[from], from, codes(from)), from + 1;
      if row.Err? {
        assert row == Err(e) ==> ComplaintAt(parse, lines, codes, from, from, e);
      } else {
        ComplaintFrom(parse, lines, codes, rows + [row.value], e);
        if i: nat :| ComplaintAt(parse, lines, codes, from, i, e) {
          assert ComplaintAt(parse, lines, codes, next, i, e);
        }
        if i: nat :| ComplaintAt(parse, lines, codes, next, i, e) {
          assert ComplaintAt(parse, lines, codes, from, i, e);
        }
      }
    }
  }

  /** The first fields of the lines before `i`. */
  ghost function CodesOf(lines: seq<string>): nat -> set<string>
  {
    (i: nat) => set j | 0 <= j < i && j < |lines| && Fields(lines[j]) != [] :: Fields(lines[j])[0]
  }

  lemma CodesStep(lines: seq<string>, i: nat)
    requires i < |lines| && Fields(lines[i]) != []
    ensures CodesOf(lines)(i + 1) == CodesOf(lines)(i) + {Fields(lines[i])[0]}
  {
  }

  lemma ParsedCode(n: Numerals, line: string, i: nat, seen: set<string>)
    requires ParseEmployeeLine(n, line, i, seen).Ok?
    ensures Fields(line) != [] && ParseEmployeeLine(n, line, i, seen).value.code == Fields(line)[0]
  {
  }

  lemma LinesGatherCodes(n: Numerals, lines: seq<string>)
    ensures GathersCodes(EmployeeParser(n), lines, CodesOf(lines))
  {
    var parse, codes := EmployeeParser(n), CodesOf(lines);
    forall i: nat | i < |lines| && parse(lines[i], i, codes(i)).Ok?
      ensures codes(i + 1) == codes(i) + {parse(lines[i], i, codes(i)).value.code}
    {
      ParsedCode(n, lines[i], i, codes(i));
      CodesStep(lines, i);
    }
  }

  /** The same for the employee draft, in which a line may also repeat the code of an earlier one. */
  lemma EmployeeFirstComplaint(n: Numerals, text: string, e: Error)
    ensures
      var lines := NonEmptyLines(text);
      ParsedEmployees(n, text) == Err(e) <==>
        exists i: nat :: ComplaintAt(EmployeeParser(n), lines, CodesOf(lines), 0, i, e)
  {
    var lines := NonEmptyLines(text);
    LinesGatherCodes(n, lines);
    assert CodesOf(lines)(0) == {};
    ComplaintFrom(EmployeeParser(n), lines, CodesOf(lines), [], e);
  }
}
