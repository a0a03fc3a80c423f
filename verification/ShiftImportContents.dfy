/** What an accepted shift-type import stores, said of the rows' own texts, and which errors the
    checks report. */
module ShiftImportContents {
  import opened Options
  import opened Sequences
  import opened Sorting
  import opened DraftText
  import opened ShiftImport
  import opened ShiftBatch
  import opened ShiftApply
  import opened ShiftImportOrder
  import ShiftTable

  // ----- words and times -----

  predicate SaysYes(w: string)
  {
    w == "true" || w == "1" || w == "yes" || w == "y" || w == "\U{d5c8}\U{c6a9}"
  }

  predicate SaysNo(w: string)
  {
    w == "false" || w == "0" || w == "no" || w == "n" || w == "\U{bd88}\U{ac00}"
  }

  lemma WordsAre(w: string)
    ensures w in TRUE_WORDS <==> SaysYes(w)
    ensures w in FALSE_WORDS <==> SaysNo(w)
  {
    var yes, no := TRUE_WORDS, FALSE_WORDS;
    assert yes[0] == "true" && yes[1] == "1" && yes[2] == "yes" && yes[3] == "y" && yes[4] == "\U{d5c8}\U{c6a9}";
    assert no[0] == "false" && no[1] == "0" && no[2] == "no" && no[3] == "n" && no[4] == "\U{bd88}\U{ac00}";
  }

  lemma YesIsNotNo(w: string)
    ensures !(SaysYes(w) && SaysNo(w))
  {
    assert SaysYes(w) ==> w[0] == 't' || w[0] == '1' || w[0] == 'y' || w[0] == '\U{d5c8}';
    assert SaysNo(w) ==> w[0] == 'f' || w[0] == '0' || w[0] == 'n' || w[0] == '\U{bd88}';
  }

  /** A flag is read as true or as false exactly for the words that say so, stripped and in any
      case. */
  lemma FlagIsReadIff(r: Reader, raw: string)
    ensures ParseBool(r, raw) == Some(true) <==> SaysYes(r.lower(r.strip(raw)))
    ensures ParseBool(r, raw) == Some(false) <==> SaysNo(r.lower(r.strip(raw)))
  {
    WordsAre(r.lower(r.strip(raw)));
    YesIsNotNo(r.lower(r.strip(raw)));
  }

  /** A reader that knows the ten ASCII digits and no others. */
  ghost predicate AsciiDigits(r: Reader)
  {
    forall c :: r.digit(c) == if '0' <= c <= '9' then Some(c as int - '0' as int) else None
  }

  function TwoDigits(x: int): string
    requires 0 <= x < 100
  {
    ['0' + (x / 10) as char, '0' + (x % 10) as char]
  }

  predicate IsDigitsText(raw: string, hour: int, minute: int)
  {
    0 <= hour < 100 && 0 <= minute < 100 && raw == TwoDigits(hour) + ":" + TwoDigits(minute)
  }

  predicate IsClockText(raw: string, hour: int, minute: int)
  {
    0 <= hour < 24 && 0 <= minute < 60 && raw == TwoDigits(hour) + ":" + TwoDigits(minute)
  }

  lemma TwoDigitsRead(r: Reader, a: char, b: char, x: int)
    requires AsciiDigits(r) && 0 <= x < 100
    ensures r.digit(a).Some? && r.digit(b).Some? && 10 * r.digit(a).value + r.digit(b).value == x <==>
      [a, b] == TwoDigits(x)
  {
    var t := TwoDigits(x);
    assert r.digit(t[0]) == Some(x / 10) && r.digit(t[1]) == Some(x % 10);
    if r.digit(a).Some? && r.digit(b).Some? && 10 * r.digit(a).value + r.digit(b).value == x {
      assert a == t[0] && b == t[1];
    }
    if [a, b] == t {
      assert a == [a, b][0] && b == [a, b][1];
    }
  }

  lemma ClockTextParts(raw: string, hour: int, minute: int)
    requires 0 <= hour < 24 && 0 <= minute < 60
    ensures IsClockText(raw, hour, minute) <==>
      |raw| == 5 && raw[2] == ':' && [raw[0], raw[1]] == TwoDigits(hour) && [raw[3], raw[4]] == TwoDigits(minute)
  {
    var text := TwoDigits(hour) + ":" + TwoDigits(minute);
    assert |text| == 5 && [text[0], text[1]] == TwoDigits(hour) && [text[3], text[4]] == TwoDigits(minute);
    if |raw| == 5 && raw[2] == ':' && [raw[0], raw[1]] == TwoDigits(hour) && [raw[3], raw[4]] == TwoDigits(minute) {
      assert raw == [raw[0], raw[1]] + ":" + [raw[3], raw[4]];
    }
  }

  /** The valid times are exactly the two-digit hours 00 to 23 and minutes 00 to 59 with a colon
      between them. */
  lemma TimeIsValidIff(r: Reader, raw: string)
    requires AsciiDigits(r)
    ensures ValidLocalTime(r, raw) <==> exists hour, minute :: IsClockText(raw, hour, minute)
  {
    if ValidLocalTime(r, raw) {
      var hour := 10 * r.digit(raw[0]).value + r.digit(raw[1]).value;
      var minute := 10 * r.digit(raw[3]).value + r.digit(raw[4]).value;
      TwoDigitsRead(r, raw[0], raw[1], hour);
      TwoDigitsRead(r, raw[3], raw[4], minute);
      ClockTextParts(raw, hour, minute);
    }
    if hour, minute :| IsClockText(raw, hour, minute) {
      ClockTextParts(raw, hour, minute);
      TwoDigitsRead(r, raw[0], raw[1], hour);
      TwoDigitsRead(r, raw[3], raw[4], minute);
    }
  }

  /** The API's pattern admits any two digits on either side of the colon; the import admits those of
      these times that are times of day. */
  lemma ImportTimesAreApiTimes(r: Reader, raw: string)
    requires AsciiDigits(r)
    ensures ShiftTable.IsTime(raw) <==> exists hour, minute :: IsDigitsText(raw, hour, minute)
    ensures ValidLocalTime(r, raw) <==>
      exists hour, minute :: IsDigitsText(raw, hour, minute) && hour < 24 && minute < 60
  {
    if ShiftTable.IsTime(raw) {
      var hour := 10 * r.digit(raw[0]).value + r.digit(raw[1]).value;
      var minute := 10 * r.digit(raw[3]).value + r.digit(raw[4]).value;
      TwoDigitsRead(r, raw[0], raw[1], hour);
      TwoDigitsRead(r, raw[3], raw[4], minute);
      assert raw == [raw[0], raw[1]] + ":" + [raw[3], raw[4]];
      assert IsDigitsText(raw, hour, minute);
    }
    TimeIsValidIff(r, raw);
    if hour, minute :| IsClockText(raw, hour, minute) {
      assert IsDigitsText(raw, hour, minute);
    }
    if hour, minute :| IsDigitsText(raw, hour, minute) && hour < 24 && minute < 60 {
      assert IsClockText(raw, hour, minute);
    }
  }

  // ----- what is stored -----

  /** The stored definition says what the row says: its texts, its flags, and its days. */
  ghost predicate SaysDefinition(r: Reader, def: Stored, row: RowText)
  {
    && def.startTime == row.startTime && def.endTime == row.endTime && def.timezone == row.timezone
    && (def.crossesMidnight <==> SaysYes(r.lower(r.strip(row.crossesMidnight))))
    && (def.active <==> SaysYes(r.lower(r.strip(row.active))))
    && ParseActiveWeekdays(r, def.weekdays) == ParseActiveWeekdays(r, row.activeWeekdays)
  }

  /** The requirement says what the row says: its role, its count and its weight, if any. */
  predicate SaysNeed(r: Reader, roles: map<string, Id>, n: Need, row: RowText)
  {
    && row.roleName in roles && n.roleId == roles[row.roleName]
    && r.integer(row.requiredCount) == Some(n.requiredCount) && 1 <= n.requiredCount <= 20
    && n.unfilledWeight == (if row.unfilledWeight == "" then None else r.integer(row.unfilledWeight))
    && (n.unfilledWeight.Some? ==> 0 <= n.unfilledWeight.value <= 10000)
  }

  lemma {:induction false} CollectedAreDays(r: Reader, parts: seq<string>, days: seq<int>)
    requires CollectDays(r, parts, days).Some?
    requires forall i :: 0 <= i < |days| ==> 0 <= days[i] <= 6
    ensures forall i :: 0 <= i < |CollectDays(r, parts, days).value| ==> 0 <= CollectDays(r, parts, days).value[i] <= 6
    decreases |parts|
  {
    if parts != [] {
      CollectedAreDays(r, parts[1..], days + [r.integer(r.strip(parts[0])).value]);
    }
  }

  /** Storing the days of a row and reading them back gives the days of the row. */
  lemma StoredDaysAreRead(r: Reader, raw: string)
    requires ReadsDigits(r) && ParseActiveWeekdays(r, raw).Some?
    ensures ParseActiveWeekdays(r, SerializeActiveWeekdays(ParseActiveWeekdays(r, raw).value))
      == ParseActiveWeekdays(r, raw)
  {
    var days := CollectDays(r, Split(raw, Delimiter(raw)), []).value;
    CollectedAreDays(r, Split(raw, Delimiter(raw)), []);
    SortedWeekdays(days);
    WeekdaysRoundTrip(r, SortedSet(days));
  }

  lemma KeySaysRow(r: Reader, roles: map<string, Id>, row: RowText)
    requires ReadsDigits(r) && ValidRow(r, roles, row)
    ensures SaysDefinition(r, StoredAs(KeyOf(r)(row)), row)
  {
    FlagIsReadIff(r, row.crossesMidnight);
    FlagIsReadIff(r, row.active);
    StoredDaysAreRead(r, row.activeWeekdays);
  }

  lemma NeedSaysRow(r: Reader, roles: map<string, Id>, row: RowText)
    requires r.integer("") == None && ValidRow(r, roles, row)
    ensures SaysNeed(r, roles, NeedFrom(r, roles)(row), row)
  {
  }

  lemma AcceptedIsValid(r: Reader, roles: map<string, Id>, rows: seq<RowText>, row: RowText)
    requires Accepted(r, roles, rows) && row in rows
    ensures ValidRow(r, roles, row)
  {
    AcceptedMember(r, roles, rows, row);
    RowIsAcceptedIff(r, roles, 1, row);
  }

  /** The requirements of a group are those of its rows. */
  lemma NeedsHaveRows(need: NeedOfRow, group: seq<RowText>, n: Need)
    ensures n in multiset(Map(need, group)) <==> exists row :: row in group && need(row) == n
  {
    var needs := Map(need, group);
    assert n in multiset(needs) <==> n in needs;
    if n in needs {
      var i :| 0 <= i < |needs| && needs[i] == n;
      assert group[i] in group;
    }
    if row :| row in group && need(row) == n {
      var i :| 0 <= i < |group| && group[i] == row;
      assert needs[i] == n;
    }
  }

  lemma NamedContent(key: DefinitionOf, need: NeedOfRow, rows: seq<RowText>, before: map<string, Content>,
                     after: map<string, Content>, name: string)
    requires BecomesBy(key, need, before, rows, after) && Named(rows, name)
    ensures name in after && exists row :: row in rows && row.shiftType == name && after[name].def == StoredAs(key(row))
    ensures forall n :: n in after[name].needs <==> exists row :: row in rows && row.shiftType == name && need(row) == n
  {
    var group := Group(rows, name);
    GroupMembers(rows, name);
    assert group[0] in group;
    forall n ensures n in after[name].needs <==> exists row :: row in rows && row.shiftType == name && need(row) == n {
      NeedsHaveRows(need, group, n);
    }
  }

  lemma RowIsNamed(rows: seq<RowText>, row: RowText)
    requires row in rows
    ensures Named(rows, row.shiftType)
  {
    GroupMembers(rows, row.shiftType);
    assert row in Group(rows, row.shiftType);
  }

  lemma RowIsStored(key: DefinitionOf, need: NeedOfRow, rows: seq<RowText>, before: map<string, Content>,
                    after: map<string, Content>, row: RowText)
    requires Consistent(key, rows) && AllKeyed(rows) && row in rows
    requires BecomesBy(key, need, before, rows, after)
    ensures row.shiftType in after && after[row.shiftType].def == StoredAs(key(row))
    ensures need(row) in after[row.shiftType].needs
  {
    var name := row.shiftType;
    RowIsNamed(rows, row);
    NamedContent(key, need, rows, before, after, name);
    var first :| first in rows && first.shiftType == name && after[name].def == StoredAs(key(first));
    ConsistentMembers(key, rows, first, row);
    assert need(row) in after[name].needs;
  }

  lemma RowSays(r: Reader, roles: map<string, Id>, rows: seq<RowText>, row: RowText)
    requires ReadsDigits(r) && r.integer("") == None && Accepted(r, roles, rows) && row in rows
    ensures SaysDefinition(r, StoredAs(KeyOf(r)(row)), row)
    ensures SaysNeed(r, roles, NeedFrom(r, roles)(row), row)
  {
    AcceptedIsValid(r, roles, rows, row);
    KeySaysRow(r, roles, row);
    NeedSaysRow(r, roles, row);
  }

  /** After an accepted import every row finds its shift type saying what the row says, with the
      row's requirement among its requirements. */
  lemma ImportedTypeSaysRow(r: Reader, roles: map<string, Id>, rows: seq<RowText>,
                            before: map<string, Content>, after: map<string, Content>, row: RowText)
    requires ReadsDigits(r) && r.integer("") == None && Accepted(r, roles, rows) && row in rows
    requires BecomesBy(KeyOf(r), NeedFrom(r, roles), before, rows, after)
    ensures row.shiftType in after && SaysDefinition(r, after[row.shiftType].def, row)
    ensures exists n :: n in after[row.shiftType].needs && SaysNeed(r, roles, n, row)
  {
    AcceptedRowsAreKeyed(r, roles, rows);
    RowIsStored(KeyOf(r), NeedFrom(r, roles), rows, before, after, row);
    RowSays(r, roles, rows, row);
  }

  /** And every requirement of a named shift type is that of one of its rows. */
  lemma ImportedNeedHasRow(r: Reader, roles: map<string, Id>, rows: seq<RowText>,
                           before: map<string, Content>, after: map<string, Content>, name: string, n: Need)
    requires r.integer("") == None && Accepted(r, roles, rows) && Named(rows, name)
    requires BecomesBy(KeyOf(r), NeedFrom(r, roles), before, rows, after)
    requires n in after[name].needs
    ensures exists row :: row in rows && row.shiftType == name && SaysNeed(r, roles, n, row)
  {
    NamedContent(KeyOf(r), NeedFrom(r, roles), rows, before, after, name);
    var row :| row in rows && row.shiftType == name && NeedFrom(r, roles)(row) == n;
    AcceptedIsValid(r, roles, rows, row);
    NeedSaysRow(r, roles, row);
  }
}
