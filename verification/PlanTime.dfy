/** The Time section of a plan file: which lines are headings and fields, reading the fields and setting one. */
module PlanTime {
  import opened Text
  import opened Kanban
  import opened TimeSection

  // ---------- lines ----------

  function HashRun(s: string): (n: nat)
    ensures n <= |s|
  {
    if s == "" || s[0] != '#' then 0 else 1 + HashRun(s[1..])
  }

  /** `/^#{1,6}\s/` on the trimmed line. */
  predicate IsHeading(line: string) {
    var t := Trim(line);
    1 <= HashRun(t) <= 6 && HashRun(t) < |t| && IsSpace(t[HashRun(t)])
  }

  predicate SameLetters(s: string, word: string) {
    |s| == |word| && forall k :: 0 <= k < |s| ==> LowerChar(s[k]) == word[k]
  }

  /** HEADING_RE on the trimmed line. */
  predicate IsTimeHeading(line: string) {
    IsHeading(line) && SameLetters(TrimStart(Trim(line)[HashRun(Trim(line))..]), "time")
  }

  function AfterBullet(t: string): string {
    if |t| >= 2 && (t[0] == '-' || t[0] == '*') && IsSpace(t[1]) then TrimStart(t[1..]) else t
  }

  function AfterStars(t: string): string {
    if |t| >= 2 && t[0] == '*' && t[1] == '*' then t[2..] else t
  }

  function FieldName(field: Field): string {
    if field == Planned then "Planned" else "Estimated"
  }

  function FieldWord(field: Field): string {
    if field == Planned then "planned" else "estimated"
  }

  predicate StartsWithField(t: string, field: Field) {
    var n := |FieldWord(field)|;
    |t| >= n && SameLetters(t[..n], FieldWord(field))
  }

  /** What follows the field name: optional stars, a colon, and a value on one line. */
  function FieldText(t: string): Option<string> {
    var u := TrimStart(AfterStars(t));
    if u != "" && u[0] == ':' && OneLine(Trim(u[1..])) then Some(Trim(u[1..])) else None
  }

  /** FIELD_RE: the raw value, if the line is a line of this field. */
  function FieldOf(line: string, field: Field): Option<string> {
    var t := AfterStars(AfterBullet(TrimStart(line)));
    if StartsWithField(t, field) then FieldText(t[|FieldWord(field)|..]) else None
  }

  function WithoutTicks(s: string): string {
    if s == "" then "" else (if s[0] == '`' then "" else [s[0]]) + WithoutTicks(s[1..])
  }

  /** fieldValue. */
  function FieldValue(raw: string): Option<string> {
    var v := Trim(WithoutTicks(raw));
    if v == "" || v == SENTINEL || v[0] == '<' then None else Some(v)
  }

  function KindOf(line: string): Line {
    if IsTimeHeading(line) then TimeHeading
    else if IsHeading(line) then Heading
    else if FieldOf(line, Planned).Some? then FieldLine(Planned, FieldValue(FieldOf(line, Planned).value))
    else if FieldOf(line, Estimated).Some? then FieldLine(Estimated, FieldValue(FieldOf(line, Estimated).value))
    else Other(Trim(line) == "")
  }

  lemma BlankIsNoField(line: string, field: Field)
    requires Trim(line) == ""
    ensures FieldOf(line, field).None?
  {
    if TrimStart(line) != "" { TrimEndHead(TrimStart(line)); }
  }

  lemma OneFieldPerLine(line: string)
    ensures FieldOf(line, Estimated).Some? ==> FieldOf(line, Planned).None?
  {
    var t := AfterStars(AfterBullet(TrimStart(line)));
    if StartsWithField(t, Estimated) {
      assert LowerChar(t[..9][0]) == FieldWord(Estimated)[0] == 'e' && t[..9][0] == t[0];
    }
    if StartsWithField(t, Planned) {
      assert LowerChar(t[..7][0]) == FieldWord(Planned)[0] == 'p' && t[..7][0] == t[0];
    }
  }

  lemma KindIsHeading(line: string)
    ensures KindOf(line).TimeHeading? <==> IsTimeHeading(line)
    ensures EndsSection(KindOf(line)) <==> IsHeading(line)
  {
  }

  lemma KindIsField(line: string, field: Field)
    requires !EndsSection(KindOf(line))
    ensures IsField(KindOf(line), field) <==> FieldOf(line, field).Some?
    ensures FieldOf(line, field).Some? ==> KindOf(line).value == FieldValue(FieldOf(line, field).value)
  {
    OneFieldPerLine(line);
  }

  lemma KindIsBlank(line: string)
    requires !EndsSection(KindOf(line))
    ensures KindOf(line) == Other(true) <==> Trim(line) == ""
  {
    if Trim(line) == "" {
      BlankIsNoField(line, Planned);
      BlankIsNoField(line, Estimated);
    }
  }

  // ---------- the two operations ----------

  const TIME_HEADING := "## Time"

  function Kinds(text: string): seq<Line> {
    Map(Split(text, '\n'), KindOf)
  }

  function ParsePlanTime(text: string): Times {
    TimesIn(Kinds(text))
  }

  function NewLine(field: Field, value: string): string {
    FieldName(field) + ": " + value
  }

  predicate EndsLine(text: string) {
    text == "" || text[|text| - 1] == '\n'
  }

  /** The text with a section at its end. */
  function WithSection(text: string, line: string): string {
    (if EndsLine(text) then text else text + "\n") + "\n" + TIME_HEADING + "\n\n" + line + "\n"
  }

  /** The text with the line set, given what its lines are. */
  function WithLine(text: string, kinds: seq<Line>, field: Field, line: string): string
    requires |kinds| == |Split(text, '\n')|
  {
    if HasSection(kinds) then Join(Edit(Split(text, '\n'), kinds, field, line), '\n') else WithSection(text, line)
  }

  function SetPlanTimeField(text: string, field: Field, value: string): string {
    WithLine(text, Kinds(text), field, NewLine(field, value))
  }

  /** What the code below finds out about each line of the text. */
  ghost predicate Recognised(lines: seq<string>, kinds: seq<Line>) {
    && |kinds| == |lines|
    && (forall k :: 0 <= k < |lines| ==> (kinds[k].TimeHeading? <==> IsTimeHeading(lines[k])))
    && (forall k :: 0 <= k < |lines| ==> (EndsSection(kinds[k]) <==> IsHeading(lines[k])))
  }

  lemma AllRecognised(lines: seq<string>)
    ensures Recognised(lines, Map(lines, KindOf))
  {
    forall k | 0 <= k < |lines|
      ensures Map(lines, KindOf)[k] == KindOf(lines[k])
      ensures KindOf(lines[k]).TimeHeading? <==> IsTimeHeading(lines[k])
      ensures EndsSection(KindOf(lines[k])) <==> IsHeading(lines[k])
    {
      MapAt(lines, KindOf, k);
      KindIsHeading(lines[k]);
    }
  }

  lemma BodyLine(lines: seq<string>, k: nat, field: Field)
    requires k < |lines| && !EndsSection(Map(lines, KindOf)[k])
    ensures var kind := Map(lines, KindOf)[k];
            && (IsField(kind, field) <==> FieldOf(lines[k], field).Some?)
            && (FieldOf(lines[k], field).Some? ==> kind.value == FieldValue(FieldOf(lines[k], field).value))
            && (kind == Other(true) <==> Trim(lines[k]) == "")
  {
    MapAt(lines, KindOf, k);
    KindIsField(lines[k], field);
    KindIsBlank(lines[k]);
  }

  /** sectionRange: the lines of the section after its heading. */
  method SectionRange(lines: seq<string>, ghost kinds: seq<Line>) returns (range: Option<(nat, nat)>)
    requires Recognised(lines, kinds)
    ensures range == if HasSection(kinds) then Some((BodyStart(kinds), BodyEnd(kinds))) else None
  {
    var start := 0;
    while start < |lines| && !IsTimeHeading(lines[start])
      invariant 0 <= start <= |lines|
      invariant SectionStart(kinds, start) == SectionStart(kinds, 0)
    {
      start := start + 1;
    }
    if start == |lines| { return None; }
    var end := start + 1;
    while end < |lines| && !IsHeading(lines[end])
      invariant start < end <= |lines|
      invariant SectionEnd(kinds, end) == SectionEnd(kinds, start + 1)
    {
      end := end + 1;
    }
    range := Some((start + 1, end));
  }

  /** The fields between two lines of a section; a later line of a field overrides an earlier one. */
  method ReadFields(lines: seq<string>, lo: nat, hi: nat, ghost kinds: seq<Line>) returns (out: Times)
    requires kinds == Map(lines, KindOf) && lo <= hi <= |lines| && forall k :: lo <= k < hi ==> !EndsSection(kinds[k])
    ensures out == Times(true, LastValue(kinds, Planned, lo, hi), LastValue(kinds, Estimated, lo, hi))
  {
    out := Times(true, None, None);
    var i := lo;
    while i < hi
      invariant lo <= i <= hi
      invariant out == Times(true, LastValue(kinds, Planned, lo, i), LastValue(kinds, Estimated, lo, i))
    {
      BodyLine(lines, i, Planned);
      BodyLine(lines, i, Estimated);
      var planned, estimated := FieldOf(lines[i], Planned), FieldOf(lines[i], Estimated);
      if planned.Some? {
        out := out.(planned := FieldValue(planned.value));
      } else if estimated.Some? {
        out := out.(estimated := FieldValue(estimated.value));
      }
      i := i + 1;
    }
  }

  lemma SectionTimes(kinds: seq<Line>)
    requires HasSection(kinds)
    ensures var lo, hi := BodyStart(kinds), BodyEnd(kinds);
            TimesIn(kinds) == Times(true, LastValue(kinds, Planned, lo, hi), LastValue(kinds, Estimated, lo, hi))
  {
  }

  /** parsePlanTime. */
  method Parse(text: string) returns (out: Times)
    ensures out == ParsePlanTime(text)
  {
    var lines := Split(text, '\n');
    ghost var kinds := Map(lines, KindOf);
    AllRecognised(lines);
    var range := SectionRange(lines, kinds);
    out := Times(false, None, None);
    if range.Some? {
      SectionTimes(kinds);
      out := ReadFields(lines, range.value.0, range.value.1, kinds);
    }
  }

  method FindField(lines: seq<string>, field: Field, lo: nat, hi: nat, ghost kinds: seq<Line>) returns (i: nat)
    requires kinds == Map(lines, KindOf) && lo <= hi <= |lines| && forall k :: lo <= k < hi ==> !EndsSection(kinds[k])
    ensures i == FirstLine(kinds, field, lo, hi)
  {
    i := lo;
    while i < hi && FieldOf(lines[i], field).None?
      invariant lo <= i <= hi
      invariant FirstLine(kinds, field, i, hi) == FirstLine(kinds, field, lo, hi)
    {
      BodyLine(lines, i, field);
      i := i + 1;
    }
    if i < hi { BodyLine(lines, i, field); }
  }

  method EndOfText(lines: seq<string>, lo: nat, hi: nat, ghost kinds: seq<Line>) returns (at: nat)
    requires kinds == Map(lines, KindOf) && lo <= hi <= |lines| && forall k :: lo <= k < hi ==> !EndsSection(kinds[k])
    ensures at == AfterLastText(kinds, lo, hi)
  {
    at := lo;
    var i := lo;
    while i < hi
      invariant lo <= i <= hi
      invariant at == AfterLastText(kinds, lo, i)
    {
      BodyLine(lines, i, Planned);
      if Trim(lines[i]) != "" { at := i + 1; }
      i := i + 1;
    }
  }

  /** setPlanTimeField: replace the field's first line in the section, or insert one, or add a section. */
  method SetField(text: string, field: Field, value: string) returns (out: string)
    ensures out == SetPlanTimeField(text, field, value)
  {
    var lines := Split(text, '\n');
    ghost var kinds := Map(lines, KindOf);
    AllRecognised(lines);
    var range := SectionRange(lines, kinds);
    var line := NewLine(field, value);
    if range.None? {
      var base := if EndsLine(text) then text else text + "\n";
      return base + "\n" + TIME_HEADING + "\n\n" + line + "\n";
    }
    var lo, hi := range.value.0, range.value.1;
    var i := FindField(lines, field, lo, hi, kinds);
    if i < hi {
      lines := lines[i := line];
    } else {
      var at := EndOfText(lines, lo, hi, kinds);
      lines := InsertAt(lines, at, line);
    }
    out := Join(lines, '\n');
  }

  // ---------- the line that is written ----------

  /** A value that is written on one line and read as a field. */
  predicate WritableValue(value: string) {
    '\n' !in value && OneLine(Trim(value))
  }

  lemma FieldNameIsWord(field: Field)
    ensures var n := |FieldWord(field)|; |FieldName(field)| == n && SameLetters(FieldName(field), FieldWord(field))
    ensures var c := FieldName(field)[0]; !IsSpace(c) && c != '#' && c != '-' && c != '*'
    ensures '\n' !in FieldName(field)
  {
  }

  lemma SpaceBefore(value: string)
    ensures Trim(" " + value) == Trim(value)
  {
    assert (" " + value)[1..] == value;
  }

  lemma FieldTextOf(value: string)
    requires OneLine(Trim(value))
    ensures FieldText(": " + value) == Some(Trim(value))
  {
    SpaceBefore(value);
    assert (": " + value)[1..] == " " + value;
  }

  lemma NewLineParts(field: Field, value: string)
    ensures var line, n := NewLine(field, value), |FieldWord(field)|;
            line[..n] == FieldName(field) && line[n..] == ": " + value
  {
    FieldNameIsWord(field);
    assert NewLine(field, value) == FieldName(field) + (": " + value);
  }

  lemma NewLineIsField(field: Field, value: string)
    requires OneLine(Trim(value))
    ensures FieldOf(NewLine(field, value), field) == Some(Trim(value))
  {
    var line := NewLine(field, value);
    FieldNameIsWord(field);
    NewLineParts(field, value);
    assert line[0] == line[..|FieldWord(field)|][0];
    FieldTextOf(value);
  }

  lemma NewLineIsNoHeading(field: Field, value: string)
    ensures !IsHeading(NewLine(field, value))
  {
    var line := NewLine(field, value);
    FieldNameIsWord(field);
    assert line[0] == FieldName(field)[0];
    TrimEndHead(line);
  }

  /** The written line is a line of the field, with the value. */
  lemma NewLineKind(field: Field, value: string)
    requires WritableValue(value)
    ensures KindOf(NewLine(field, value)) == FieldLine(field, FieldValue(Trim(value)))
    ensures '\n' !in NewLine(field, value)
  {
    var line := NewLine(field, value);
    NewLineIsField(field, value);
    NewLineIsNoHeading(field, value);
    OneFieldPerLine(line);
    FieldNameIsWord(field);
  }

  /** A value that is read back as itself. */
  predicate PlainValue(value: string) {
    Solid(value) && '`' !in value && value != "-" && value[0] != '<'
  }

  lemma {:induction false} WithoutTicksPlain(s: string)
    ensures '`' !in WithoutTicks(s) && ('`' !in s ==> WithoutTicks(s) == s)
  {
    if s != "" { WithoutTicksPlain(s[1..]); }
  }

  /** A value is read back as itself exactly when it is plain. */
  lemma PlainValueReads(value: string)
    ensures FieldValue(Trim(value)) == Some(value) <==> PlainValue(value)
  {
    var raw := WithoutTicks(Trim(value));
    WithoutTicksPlain(Trim(value));
    TrimChars(raw);
    TrimTwice(raw);
    if Solid(value) { TrimPlain(value); }
    if Trim(raw) == value && value != "" { TrimEnds(value); }
  }
}
