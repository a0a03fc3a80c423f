/** The shift-type batch import: row checks, batch checks, and applying an accepted batch. */
module ShiftImport {
  import opened Options
  import opened Sequences
  import opened Sorting
  import opened DraftText

  /** The language's text operations: stripping, lower-casing, reading an integer, and the
      value of a decimal digit. */
  datatype Reader = Reader(
    strip: string -> string,
    lower: string -> string,
    integer: string -> Option<int>,
    digit: char -> Option<int>)

  /** One row of the file; a missing value is the empty text. */
  datatype RowText = RowText(
    shiftType: string,
    startTime: string,
    endTime: string,
    timezone: string,
    crossesMidnight: string,
    activeWeekdays: string,
    active: string,
    roleName: string,
    requiredCount: string,
    unfilledWeight: string)

  datatype Field =
    | ShiftTypeName | StartTime | EndTime | Timezone | CrossesMidnight | ActiveWeekdays | Active
    | RoleName | RequiredCount | UnfilledWeight

  datatype Code =
    | Required | UnknownRole | InvalidTime | InvalidTimeRange | InvalidBoolean | InvalidWeekdays
    | InvalidInteger | InvalidRange | ConflictingDefinition | DuplicateRequirement

  datatype RowError = RowError(rowNo: int, field: Field, code: Code)

  // ----- values -----

  const TRUE_WORDS: seq<string> := ["true", "1", "yes", "y", "\U{d5c8}\U{c6a9}"]

  const FALSE_WORDS: seq<string> := ["false", "0", "no", "n", "\U{bd88}\U{ac00}"]

  function ParseBool(r: Reader, raw: string): Option<bool>
  {
    var normalized := r.lower(r.strip(raw));
    if normalized in TRUE_WORDS then Some(true)
    else if normalized in FALSE_WORDS then Some(false)
    else None
  }

  function Delimiter(raw: string): char { if '|' in raw then '|' else if ';' in raw then ';' else ',' }

  /** Reads the parts one after the other; a part that is no weekday, or a repeated one,
      spoils the list. */
  function CollectDays(r: Reader, parts: seq<string>, days: seq<int>): Option<seq<int>>
    decreases |parts|
  {
    if parts == [] then Some(days)
    else
      var day := r.integer(r.strip(parts[0]));
      if day == None || day.value < 0 || day.value > 6 || day.value in days then None
      else CollectDays(r, parts[1..], days + [day.value])
  }

  function ParseActiveWeekdays(r: Reader, raw: string): Option<seq<int>>
  {
    var days := CollectDays(r, Split(raw, Delimiter(raw)), []);
    if days == None || days.value == [] then None else Some(SortedSet(days.value))
  }

  /** The loop that reads them. */
  method ReadActiveWeekdays(r: Reader, raw: string) returns (weekdays: Option<seq<int>>)
    ensures weekdays == ParseActiveWeekdays(r, raw)
  {
    var parts := Split(raw, Delimiter(raw));
    var days: seq<int> := [];
    for i := 0 to |parts|
      invariant CollectDays(r, parts[i..], days) == CollectDays(r, parts, [])
    {
      assert parts[i..][0] == parts[i] && parts[i..][1..] == parts[i + 1..];
      var value := r.integer(r.strip(parts[i]));
      if value == None || value.value < 0 || value.value > 6 || value.value in days {
        return None;
      }
      days := days + [value.value];
    }
    weekdays := if days == [] then None else Some(SortedSet(days));
  }

  /** Weekdays have one digit. */
  function DayText(day: int): string { if 0 <= day <= 9 then ['0' + day as char] else "" }

  function DayTexts(days: seq<int>): seq<string>
  {
    seq(|days|, i requires 0 <= i < |days| => DayText(days[i]))
  }

  function SerializeActiveWeekdays(days: seq<int>): string { Join(DayTexts(SortedSet(days)), ',') }

  function DaysOrNone(days: Option<seq<int>>): seq<int> { if days == None then [] else days.value }

  function ValidLocalTime(r: Reader, raw: string): bool
  {
    && |raw| == 5 && raw[2] == ':'
    && r.digit(raw[0]).Some? && r.digit(raw[1]).Some? && r.digit(raw[3]).Some? && r.digit(raw[4]).Some?
    && 10 * r.digit(raw[0]).value + r.digit(raw[1]).value <= 23
    && 10 * r.digit(raw[3]).value + r.digit(raw[4]).value <= 59
  }

  // ----- the weekday text -----

  predicate AreWeekdays(days: seq<int>) { days != [] && forall i :: 0 <= i < |days| ==> 0 <= days[i] <= 6 }

  /** The reader reads a single digit as its value. */
  ghost predicate ReadsDigits(r: Reader)
  {
    forall d :: 0 <= d <= 9 ==> r.integer(r.strip(DayText(d))) == Some(d)
  }

  lemma {:induction false} CollectsDistinctDays(r: Reader, days: seq<int>, done: nat)
    requires ReadsDigits(r) && done <= |days| && AreWeekdays(days) && NoDuplicates(days)
    ensures CollectDays(r, DayTexts(days)[done..], days[..done]) == Some(days)
    decreases |days| - done
  {
    var rest := DayTexts(days)[done..];
    if done < |days| {
      assert rest[0] == DayText(days[done]) && rest[1..] == DayTexts(days)[done + 1..];
      assert days[..done] + [days[done]] == days[..done + 1];
      CollectsDistinctDays(r, days, done + 1);
    } else {
      assert days[..done] == days;
    }
  }

  lemma DayTextsAreDigits(days: seq<int>, sep: char)
    requires AreWeekdays(days) && sep in [',', ';', '|']
    ensures forall p :: p in DayTexts(days) ==> sep !in p
  {
  }

  lemma SortedWeekdays(days: seq<int>)
    requires AreWeekdays(days)
    ensures AreWeekdays(SortedSet(days)) && Increasing(SortedSet(days))
    ensures SortedSet(SortedSet(days)) == SortedSet(days)
  {
    var sorted := SortedSet(days);
    SortedSetIncreasing(days);
    SortedSetIncreasing(sorted);
    IncreasingIsUnique(sorted, SortedSet(sorted));
    var first := days[0];
    assert first in days && first in sorted;
    forall i | 0 <= i < |sorted| ensures 0 <= sorted[i] <= 6 {
      var day := sorted[i];
      assert day in sorted && day in days;
    }
  }

  lemma DayTextSplits(days: seq<int>, sep: char)
    requires AreWeekdays(days) && sep in [',', ';', '|']
    ensures |days| > 1 ==> Delimiter(Join(DayTexts(days), sep)) == sep
    ensures |days| == 1 ==> Delimiter(Join(DayTexts(days), sep)) == ','
    ensures Split(Join(DayTexts(days), sep), sep) == DayTexts(days)
  {
    var texts := DayTexts(days);
    DayTextsAreDigits(days, ',');
    DayTextsAreDigits(days, ';');
    DayTextsAreDigits(days, '|');
    JoinMembers(texts, sep);
    SplitJoin(texts, sep);
    assert |days| > 1 ==> Join(texts, sep)[|texts[0]|] == sep;
  }

  lemma DayTextOfOne(days: seq<int>, sep: char)
    requires |days| == 1
    ensures Join(DayTexts(days), sep) == Join(DayTexts(days), ',')
  {
  }

  /** Different weekdays in any order, joined by any of the three delimiters, are read as those
      days in increasing order. */
  lemma DelimitedDaysAreRead(r: Reader, days: seq<int>, sep: char)
    requires ReadsDigits(r) && AreWeekdays(days) && NoDuplicates(days) && sep in [',', ';', '|']
    ensures ParseActiveWeekdays(r, Join(DayTexts(days), sep)) == Some(SortedSet(days))
  {
    DayTextSplits(days, sep);
    if |days| == 1 {
      DayTextOfOne(days, sep);
      DayTextSplits(days, ',');
    }
    CollectsDistinctDays(r, days, 0);
    assert DayTexts(days)[0..] == DayTexts(days) && days[..0] == [];
    SortedWeekdays(days);
  }

  lemma IncreasingIsDistinct(days: seq<int>)
    requires Increasing(days)
    ensures NoDuplicates(days)
  {
  }

  /** Reading back a stored weekday text gives the stored days, in increasing order. */
  lemma WeekdaysRoundTrip(r: Reader, days: seq<int>)
    requires ReadsDigits(r) && AreWeekdays(days)
    ensures ParseActiveWeekdays(r, SerializeActiveWeekdays(days)) == Some(SortedSet(days))
  {
    SortedWeekdays(days);
    IncreasingIsDistinct(SortedSet(days));
    DelimitedDaysAreRead(r, SortedSet(days), ',');
  }

  lemma {:induction false} CollectedDays(r: Reader, parts: seq<string>, days: seq<int>)
    requires CollectDays(r, parts, days).Some?
    ensures forall d :: d in CollectDays(r, parts, days).value <==>
      d in days || exists p :: p in parts && r.integer(r.strip(p)) == Some(d)
    ensures |CollectDays(r, parts, days).value| == |days| + |parts|
    ensures NoDuplicates(days) ==> NoDuplicates(CollectDays(r, parts, days).value)
    decreases |parts|
  {
    if parts != [] {
      var day := r.integer(r.strip(parts[0]));
      CollectedDays(r, parts[1..], days + [day.value]);
      assert parts == [parts[0]] + parts[1..];
    }
  }

  /** Two weekday texts that list the same days in different orders, or with different
      delimiters, are read alike. */
  lemma WeekdayOrderIsIgnored(r: Reader, a: string, b: string)
    requires ParseActiveWeekdays(r, a).Some? && ParseActiveWeekdays(r, b).Some?
    requires forall d ::
      (exists p :: p in Split(a, Delimiter(a)) && r.integer(r.strip(p)) == Some(d)) <==>
      (exists p :: p in Split(b, Delimiter(b)) && r.integer(r.strip(p)) == Some(d))
    ensures ParseActiveWeekdays(r, a) == ParseActiveWeekdays(r, b)
  {
    var x := CollectDays(r, Split(a, Delimiter(a)), []).value;
    var y := CollectDays(r, Split(b, Delimiter(b)), []).value;
    CollectedDays(r, Split(a, Delimiter(a)), []);
    CollectedDays(r, Split(b, Delimiter(b)), []);
    SortedSetIncreasing(x);
    SortedSetIncreasing(y);
    IncreasingIsUnique(SortedSet(x), SortedSet(y));
  }

  // ----- one row -----

  function Value(row: RowText, f: Field): string
  {
    match f
    case ShiftTypeName => row.shiftType
    case StartTime => row.startTime
    case EndTime => row.endTime
    case Timezone => row.timezone
    case CrossesMidnight => row.crossesMidnight
    case ActiveWeekdays => row.activeWeekdays
    case Active => row.active
    case RoleName => row.roleName
    case RequiredCount => row.requiredCount
    case UnfilledWeight => row.unfilledWeight
  }

  const REQUIRED_FIELDS: seq<Field> :=
    [ShiftTypeName, StartTime, EndTime, Timezone, CrossesMidnight, ActiveWeekdays, Active, RoleName, RequiredCount]

  function MissingValues(rowNo: int, row: RowText, fields: seq<Field>): seq<RowError>
  {
    if fields == [] then []
    else
      (if Value(row, fields[0]) == "" then [RowError(rowNo, fields[0], Required)] else [])
      + MissingValues(rowNo, row, fields[1..])
  }

  function When(condition: bool, e: RowError): seq<RowError> { if condition then [e] else [] }

  function IntegerRangeErrors(r: Reader, rowNo: int, f: Field, raw: string, lo: int, hi: int): seq<RowError>
  {
    if r.integer(raw) == None then [RowError(rowNo, f, InvalidInteger)]
    else When(r.integer(raw).value < lo || r.integer(raw).value > hi, RowError(rowNo, f, InvalidRange))
  }

  function TimeErrors(r: Reader, rowNo: int, row: RowText): seq<RowError>
  {
    When(row.startTime != "" && !ValidLocalTime(r, row.startTime), RowError(rowNo, StartTime, InvalidTime))
    + When(row.endTime != "" && !ValidLocalTime(r, row.endTime), RowError(rowNo, EndTime, InvalidTime))
    + When(row.startTime != "" && row.endTime != "" && row.startTime == row.endTime,
           RowError(rowNo, EndTime, InvalidTimeRange))
  }

  function WordErrors(r: Reader, rowNo: int, row: RowText): seq<RowError>
  {
    When(row.crossesMidnight != "" && ParseBool(r, row.crossesMidnight) == None,
         RowError(rowNo, CrossesMidnight, InvalidBoolean))
    + When(row.active != "" && ParseBool(r, row.active) == None, RowError(rowNo, Active, InvalidBoolean))
    + When(row.activeWeekdays != "" && ParseActiveWeekdays(r, row.activeWeekdays) == None,
           RowError(rowNo, ActiveWeekdays, InvalidWeekdays))
  }

  function NumberErrors(r: Reader, rowNo: int, row: RowText): seq<RowError>
  {
    (if row.requiredCount == "" then []
     else IntegerRangeErrors(r, rowNo, RequiredCount, row.requiredCount, 1, 20))
    + (if row.unfilledWeight == "" then []
       else IntegerRangeErrors(r, rowNo, UnfilledWeight, row.unfilledWeight, 0, 10000))
  }

  function RowErrors(r: Reader, roles: map<string, Id>, rowNo: int, row: RowText): seq<RowError>
  {
    MissingValues(rowNo, row, REQUIRED_FIELDS)
    + When(row.roleName != "" && row.roleName !in roles, RowError(rowNo, RoleName, UnknownRole))
    + TimeErrors(r, rowNo, row)
    + WordErrors(r, rowNo, row)
    + NumberErrors(r, rowNo, row)
  }

  predicate InRange(r: Reader, raw: string, lo: int, hi: int)
  {
    r.integer(raw).Some? && lo <= r.integer(raw).value <= hi
  }

  /** What an accepted row is. */
  predicate ValidRow(r: Reader, roles: map<string, Id>, row: RowText)
  {
    && row.shiftType != "" && row.timezone != ""
    && row.startTime != row.endTime && ValidLocalTime(r, row.startTime) && ValidLocalTime(r, row.endTime)
    && row.crossesMidnight != "" && ParseBool(r, row.crossesMidnight).Some?
    && row.active != "" && ParseBool(r, row.active).Some?
    && row.activeWeekdays != "" && ParseActiveWeekdays(r, row.activeWeekdays).Some?
    && row.roleName != "" && row.roleName in roles
    && row.requiredCount != "" && InRange(r, row.requiredCount, 1, 20)
    && (row.unfilledWeight != "" ==> InRange(r, row.unfilledWeight, 0, 10000))
  }

  lemma {:induction false} NothingMissing(rowNo: int, row: RowText, fields: seq<Field>)
    ensures MissingValues(rowNo, row, fields) == [] <==> forall i :: 0 <= i < |fields| ==> Value(row, fields[i]) != ""
  {
    if fields != [] {
      NothingMissing(rowNo, row, fields[1..]);
      assert forall i :: 1 <= i < |fields| ==> fields[1..][i - 1] == fields[i];
    }
  }

  lemma RequiredFieldsAre(row: RowText)
    ensures (forall i :: 0 <= i < |REQUIRED_FIELDS| ==> Value(row, REQUIRED_FIELDS[i]) != "") <==>
      && row.shiftType != "" && row.startTime != "" && row.endTime != "" && row.timezone != ""
      && row.crossesMidnight != "" && row.activeWeekdays != "" && row.active != "" && row.roleName != ""
      && row.requiredCount != ""
  {
    var fs := REQUIRED_FIELDS;
    assert fs[0] == ShiftTypeName && fs[1] == StartTime && fs[2] == EndTime && fs[3] == Timezone;
    assert fs[4] == CrossesMidnight && fs[5] == ActiveWeekdays && fs[6] == Active && fs[7] == RoleName;
    assert fs[8] == RequiredCount;
  }

  lemma TimesAreAcceptedIff(r: Reader, rowNo: int, row: RowText)
    requires row.startTime != "" && row.endTime != ""
    ensures TimeErrors(r, rowNo, row) == [] <==>
      row.startTime != row.endTime && ValidLocalTime(r, row.startTime) && ValidLocalTime(r, row.endTime)
  {
  }

  lemma WordsAreAcceptedIff(r: Reader, rowNo: int, row: RowText)
    requires row.crossesMidnight != "" && row.active != "" && row.activeWeekdays != ""
    ensures WordErrors(r, rowNo, row) == [] <==>
      && ParseBool(r, row.crossesMidnight).Some? && ParseBool(r, row.active).Some?
      && ParseActiveWeekdays(r, row.activeWeekdays).Some?
  {
  }

  lemma NumbersAreAcceptedIff(r: Reader, rowNo: int, row: RowText)
    requires row.requiredCount != ""
    ensures NumberErrors(r, rowNo, row) == [] <==>
      && InRange(r, row.requiredCount, 1, 20)
      && (row.unfilledWeight != "" ==> InRange(r, row.unfilledWeight, 0, 10000))
  {
  }

  lemma NothingConcatenated<T>(a: seq<T>, b: seq<T>, c: seq<T>, d: seq<T>, e: seq<T>)
    ensures a + b + c + d + e == [] <==> a == [] && b == [] && c == [] && d == [] && e == []
  {
    assert |a + b + c + d + e| == |a| + |b| + |c| + |d| + |e|;
  }

  /** The row check finds nothing exactly when the row is one the import can apply. */
  lemma RowIsAcceptedIff(r: Reader, roles: map<string, Id>, rowNo: int, row: RowText)
    ensures RowErrors(r, roles, rowNo, row) == [] <==> ValidRow(r, roles, row)
  {
    NothingMissing(rowNo, row, REQUIRED_FIELDS);
    RequiredFieldsAre(row);
    NothingConcatenated(MissingValues(rowNo, row, REQUIRED_FIELDS),
                        When(row.roleName != "" && row.roleName !in roles, RowError(rowNo, RoleName, UnknownRole)),
                        TimeErrors(r, rowNo, row), WordErrors(r, rowNo, row), NumberErrors(r, rowNo, row));
    if MissingValues(rowNo, row, REQUIRED_FIELDS) == [] {
      TimesAreAcceptedIff(r, rowNo, row);
      WordsAreAcceptedIff(r, rowNo, row);
      NumbersAreAcceptedIff(r, rowNo, row);
    }
  }
}
