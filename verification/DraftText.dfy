/** The string operations that the scenario drafts are read with: splitting, joining and
    trimming. */
module DraftText {

  /** The characters that `trim` removes: white space and line terminators. */
  predicate IsSpace(c: char)
  {
    || '\U{9}' <= c <= '\U{d}' || c == ' ' || c == '\U{a0}' || c == '\U{1680}'
    || '\U{2000}' <= c <= '\U{200a}' || c == '\U{2028}' || c == '\U{2029}'
    || c == '\U{202f}' || c == '\U{205f}' || c == '\U{3000}' || c == '\U{feff}'
  }

  function Split(text: string, sep: char): (parts: seq<string>)
    ensures parts != []
  {
    if text == "" then [""]
    else
      var rest := Split(text[1..], sep);
      if text[0] == sep then [""] + rest else [[text[0]] + rest[0]] + rest[1..]
  }

  function Join(parts: seq<string>, sep: char): string
  {
    if parts == [] then "" else if |parts| == 1 then parts[0] else parts[0] + [sep] + Join(parts[1..], sep)
  }

  lemma {:induction false} SplitWhole(text: string, sep: char)
    requires sep !in text
    ensures Split(text, sep) == [text]
  {
    if text != "" {
      SplitWhole(text[1..], sep);
      assert text == [text[0]] + text[1..];
    }
  }

  lemma {:induction false} SplitFirst(a: string, sep: char, b: string)
    requires sep !in a
    ensures Split(a + [sep] + b, sep) == [a] + Split(b, sep)
  {
    var text := a + [sep] + b;
    if a == "" {
      assert text[1..] == b;
    } else {
      SplitFirst(a[1..], sep, b);
      assert text[1..] == a[1..] + [sep] + b;
      assert text[0] == a[0];
      assert a == [a[0]] + a[1..];
    }
  }

  /** Splitting undoes joining, for parts free of the separator. */
  lemma {:induction false} SplitJoin(parts: seq<string>, sep: char)
    requires parts != [] && forall p :: p in parts ==> sep !in p
    ensures Split(Join(parts, sep), sep) == parts
  {
    assert parts[0] in parts;
    if |parts| == 1 {
      SplitWhole(parts[0], sep);
    } else {
      SplitJoin(parts[1..], sep);
      SplitFirst(parts[0], sep, Join(parts[1..], sep));
    }
  }

  /** Every part is free of the separator, and made of characters of the text. */
  lemma {:induction false} SplitParts(text: string, sep: char)
    ensures forall p :: p in Split(text, sep) ==> sep !in p && forall c :: c in p ==> c in text
  {
    if text != "" {
      var rest := Split(text[1..], sep);
      SplitParts(text[1..], sep);
      forall p | p in Split(text, sep) ensures sep !in p && forall c :: c in p ==> c in text {
        if p !in rest && p != "" {
          assert p == [text[0]] + rest[0];
          assert rest[0] in rest;
        }
      }
    }
  }

  lemma {:induction false} JoinMembers(parts: seq<string>, sep: char)
    ensures forall c :: c in Join(parts, sep) ==> c == sep || exists p :: p in parts && c in p
  {
    if |parts| > 1 {
      JoinMembers(parts[1..], sep);
      forall c | c in Join(parts, sep) ensures c == sep || exists p :: p in parts && c in p {
        if c in parts[0] {
          assert parts[0] in parts;
        } else if c != sep {
          assert c in Join(parts[1..], sep);
          var p :| p in parts[1..] && c in p;
          assert p in parts;
        }
      }
    } else if |parts| == 1 {
      assert parts[0] in parts;
    }
  }

  // ----- trimming -----

  function TrimStart(s: string): string { if s != "" && IsSpace(s[0]) then TrimStart(s[1..]) else s }

  function TrimEnd(s: string): string
  {
    if s != "" && IsSpace(s[|s| - 1]) then TrimEnd(s[..|s| - 1]) else s
  }

  function Trim(s: string): string { TrimEnd(TrimStart(s)) }

  predicate Trimmed(s: string) { s == "" || (!IsSpace(s[0]) && !IsSpace(s[|s| - 1])) }

  lemma {:induction false} TrimStartTrims(s: string)
    ensures TrimStart(s) == "" || !IsSpace(TrimStart(s)[0])
    ensures forall c :: c in TrimStart(s) ==> c in s
  {
    if s != "" && IsSpace(s[0]) {
      TrimStartTrims(s[1..]);
    }
  }

  lemma {:induction false} TrimEndTrims(s: string)
    ensures TrimEnd(s) == "" || !IsSpace(TrimEnd(s)[|TrimEnd(s)| - 1])
    ensures TrimEnd(s) <= s
  {
    if s != "" && IsSpace(s[|s| - 1]) {
      TrimEndTrims(s[..|s| - 1]);
    }
  }

  lemma TrimTrims(s: string)
    ensures Trimmed(Trim(s))
    ensures forall c :: c in Trim(s) ==> c in s
    ensures Trimmed(s) ==> Trim(s) == s
  {
    TrimStartTrims(s);
    TrimEndTrims(TrimStart(s));
  }

  function TrimAll(parts: seq<string>): seq<string>
  {
    seq(|parts|, i requires 0 <= i < |parts| => Trim(parts[i]))
  }

  lemma TrimAllTrims(parts: seq<string>)
    ensures forall p :: p in TrimAll(parts) ==> Trimmed(p) && exists q :: q in parts && p == Trim(q)
    ensures (forall i :: 0 <= i < |parts| ==> Trimmed(parts[i])) ==> TrimAll(parts) == parts
  {
    forall i | 0 <= i < |parts|
      ensures Trimmed(TrimAll(parts)[i]) && (Trimmed(parts[i]) ==> TrimAll(parts)[i] == parts[i])
    {
      TrimTrims(parts[i]);
    }
  }

  function KeepNonEmpty(parts: seq<string>): seq<string>
  {
    if parts == [] then []
    else (if parts[0] != "" then [parts[0]] else []) + KeepNonEmpty(parts[1..])
  }

  predicate Filled(parts: seq<string>) { forall i :: 0 <= i < |parts| ==> parts[i] != "" }

  lemma {:induction false} KeepNonEmptyKeeps(parts: seq<string>)
    ensures Filled(KeepNonEmpty(parts))
    ensures forall p :: p in KeepNonEmpty(parts) ==> p in parts
    ensures Filled(parts) ==> KeepNonEmpty(parts) == parts
  {
    if parts != [] {
      assert parts == [parts[0]] + parts[1..];
      KeepNonEmptyKeeps(parts[1..]);
      assert Filled(parts) ==> Filled(parts[1..]);
    }
  }

  // ----- lines -----

  function DropReturn(s: string): string { if s != "" && s[|s| - 1] == '\r' then s[..|s| - 1] else s }

  /** A line ends at a line feed, or at a carriage return followed by one. */
  function SplitLines(text: string): seq<string>
  {
    var parts := Split(text, '\n');
    seq(|parts|, i requires 0 <= i < |parts| => if i < |parts| - 1 then DropReturn(parts[i]) else parts[i])
  }

  function NonEmptyLines(text: string): seq<string> { KeepNonEmpty(TrimAll(SplitLines(text))) }

  /** A line as the drafts print it. */
  predicate CleanLine(line: string) { line != "" && Trimmed(line) && '\n' !in line }

  lemma LinesOfJoined(lines: seq<string>)
    requires forall line :: line in lines ==> CleanLine(line)
    ensures NonEmptyLines(Join(lines, '\n')) == lines
  {
    if lines == [] {
      assert Split("", '\n') == [""];
      assert TrimAll([""]) == [""];
      assert SplitLines("") == [""];
    } else {
      SplitJoin(lines, '\n');
      forall i | 0 <= i < |lines| ensures DropReturn(lines[i]) == lines[i] {
        assert lines[i] in lines;
      }
      assert SplitLines(Join(lines, '\n')) == lines;
      assert forall i :: 0 <= i < |lines| ==> lines[i] in lines && CleanLine(lines[i]);
      TrimAllTrims(lines);
      KeepNonEmptyKeeps(lines);
    }
  }

  lemma LinesAreOneLine(text: string, i: nat)
    requires i < |SplitLines(text)|
    ensures '\n' !in Trim(SplitLines(text)[i])
  {
    var parts := Split(text, '\n');
    SplitParts(text, '\n');
    assert parts[i] in parts;
    TrimTrims(SplitLines(text)[i]);
  }

  lemma NonEmptyLinesAreClean(text: string)
    ensures forall line :: line in NonEmptyLines(text) ==> CleanLine(line)
  {
    var parts := SplitLines(text);
    TrimAllTrims(parts);
    KeepNonEmptyKeeps(TrimAll(parts));
    var lines := NonEmptyLines(text);
    forall k | 0 <= k < |lines| ensures CleanLine(lines[k]) {
      var line := lines[k];
      assert line in lines;
      var i :| 0 <= i < |parts| && TrimAll(parts)[i] == line;
      LinesAreOneLine(text, i);
    }
  }
}
