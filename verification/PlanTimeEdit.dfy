/** Setting a field of a plan's Time section and reading the plan again. */
module PlanTimeEdit {
  import opened Text
  import opened TimeSection
  import opened PlanTime
  import Duration

  predicate NoBreaks(lines: seq<string>) {
    forall k :: 0 <= k < |lines| ==> '\n' !in lines[k]
  }

  // ---------- editing an existing section ----------

  lemma EditNoBreaks(lines: seq<string>, kinds: seq<Line>, field: Field, line: string)
    requires |lines| == |kinds| && HasSection(kinds) && NoBreaks(lines) && '\n' !in line
    ensures NoBreaks(Edit(lines, kinds, field, line))
  {
  }

  /** How lines are recognised is a parameter of the next lemmas, which hold for any recogniser. */
  lemma SetInSection(text: string, f: string -> Line, field: Field, line: string, value: Option<string>)
    requires '\n' !in line && f(line) == FieldLine(field, value) && HasSection(Map(Split(text, '\n'), f))
    ensures var kinds := Map(Split(text, '\n'), f);
            var lines := Split(WithLine(text, kinds, field, line), '\n');
            Reads(kinds, Map(lines, f), field, value) && Holds(lines, Map(lines, f), field, line)
  {
    var lines := Split(text, '\n');
    var kinds := Map(lines, f);
    EditCommutes(lines, f, field, line);
    EditReads(kinds, field, value);
    EditHolds(lines, kinds, field, line, value);
    EditNoBreaks(lines, kinds, field, line);
    SplitJoin(Edit(lines, kinds, field, line), '\n');
  }

  // ---------- adding a section ----------

  /** The lines of a new section, after the end of the line before it. */
  function NewSection(line: string): seq<string> {
    ["", TIME_HEADING, "", line, ""]
  }

  lemma JoinCons(head: string, rest: seq<string>)
    requires rest != []
    ensures Join([head] + rest, '\n') == head + "\n" + Join(rest, '\n')
  {
    assert ([head] + rest)[1..] == rest;
  }

  lemma SectionText(heading: string, line: string)
    ensures Join(["", heading, "", line, ""], '\n') == "\n" + heading + "\n\n" + line + "\n"
  {
    JoinCons(line, [""]);
    JoinCons("", [line, ""]);
    JoinCons(heading, ["", line, ""]);
    JoinCons("", [heading, "", line, ""]);
    assert [line] + [""] == [line, ""];
    assert [""] + [line, ""] == ["", line, ""];
    assert [heading] + ["", line, ""] == [heading, "", line, ""];
    assert [""] + [heading, "", line, ""] == ["", heading, "", line, ""];
    Breaks(heading, line);
  }

  lemma Breaks(heading: string, line: string)
    ensures "" + "\n" + (heading + "\n" + ("" + "\n" + (line + "\n" + ""))) == "\n" + heading + "\n\n" + line + "\n"
  {
  }

  lemma NewSectionText(line: string)
    ensures Join(NewSection(line), '\n') == "\n" + TIME_HEADING + "\n\n" + line + "\n"
  {
    SectionText(TIME_HEADING, line);
  }

  lemma SplitNewSection(line: string)
    requires '\n' !in line
    ensures Split("\n" + TIME_HEADING + "\n\n" + line + "\n", '\n') == NewSection(line)
  {
    NewSectionText(line);
    SplitJoin(NewSection(line), '\n');
  }

  lemma HeadingKind()
    ensures KindOf(TIME_HEADING) == TimeHeading
  {
    var h := TIME_HEADING;
    TrimPlain(h);
    assert h[1..][0] == '#' && h[2..][0] == ' ' && h[1..][1..] == h[2..];
    assert HashRun(h[2..]) == 0 && HashRun(h[1..]) == 1 && HashRun(h) == 2;
    assert h[2..][1..] == h[3..];
    assert TrimStart(h[3..]) == h[3..];
    assert TrimStart(h[2..]) == h[3..];
  }

  lemma EmptyKind()
    ensures KindOf("") == Other(true)
  {
  }

  /** Text that ends a line, cut there: its lines before the cut, and the empty rest. */
  lemma SplitEnded(text: string) returns (lines: seq<string>)
    requires EndsLine(text)
    ensures Split(text, '\n') == lines + [""]
  {
    if text == "" {
      lines := [];
    } else {
      lines := Split(text[..|text| - 1], '\n');
      assert text == text[..|text| - 1] + "\n";
      SplitBreak(text[..|text| - 1]);
    }
  }

  predicate RecognisesSections(f: string -> Line) {
    f(TIME_HEADING) == TimeHeading && f("") == Other(true)
  }

  lemma {:induction false} MapIs(lines: seq<string>, f: string -> Line, kinds: seq<Line>)
    requires |lines| == |kinds| && forall k :: 0 <= k < |lines| ==> f(lines[k]) == kinds[k]
    ensures Map(lines, f) == kinds
  {
    if lines != [] { MapIs(lines[1..], f, kinds[1..]); }
  }

  lemma NewSectionReads(lines: seq<string>, f: string -> Line, field: Field, line: string, value: Option<string>)
    requires RecognisesSections(f) && NoTimeHeading(Map(lines, f)) && f(line) == FieldLine(field, value)
    ensures var all := lines + NewSection(line);
            var times := TimesIn(Map(all, f));
            && times.hasSection && times.Get(field) == value && times.Get(OtherField(field)) == None
            && Holds(all, Map(all, f), field, line)
  {
    MapIs(NewSection(line), f, SectionKinds(field, value));
    MapConcat(lines, NewSection(line), f);
    NewSectionTimes(Map(lines, f), field, value);
  }

  lemma GlueEnded(lines: seq<string>, rest: seq<string>)
    requires rest != [] && rest[0] == ""
    ensures Glue(lines + [""], rest) == lines + rest
  {
    assert (lines + [""])[..|lines|] == lines;
    assert "" + rest[0] == rest[0];
    assert rest == [rest[0]] + rest[1..];
  }

  lemma {:induction false} NoHeadingFound(kinds: seq<Line>)
    requires !HasSection(kinds)
    ensures NoTimeHeading(kinds)
  {
  }

  /** The lines of a text that gets a new section, without the empty rest after its last line break. */
  lemma EndedLines(text: string) returns (lines: seq<string>)
    ensures var base := if EndsLine(text) then text else text + "\n"; Split(base, '\n') == lines + [""]
    ensures Split(text, '\n') == if EndsLine(text) then lines + [""] else lines
  {
    if EndsLine(text) {
      lines := SplitEnded(text);
    } else {
      lines := Split(text, '\n');
      SplitBreak(text);
    }
  }

  lemma SplitBreak(text: string)
    ensures Split(text + "\n", '\n') == Split(text, '\n') + [""]
  {
    SplitAtSeparator(text, "", '\n');
    assert text + ['\n'] + "" == text + "\n";
  }

  lemma AddedSection(text: string, line: string) returns (lines: seq<string>)
    requires '\n' !in line
    ensures Split(WithSection(text, line), '\n') == lines + NewSection(line)
    ensures Split(text, '\n') == if EndsLine(text) then lines + [""] else lines
  {
    var base := if EndsLine(text) then text else text + "\n";
    var tail := "\n" + TIME_HEADING + "\n\n" + line + "\n";
    lines := EndedLines(text);
    SplitNewSection(line);
    SplitConcat(base, tail, '\n');
    GlueEnded(lines, NewSection(line));
    WithSectionIs(text, line, base, tail);
  }

  lemma WithSectionIs(text: string, line: string, base: string, tail: string)
    requires base == if EndsLine(text) then text else text + "\n"
    requires tail == "\n" + TIME_HEADING + "\n\n" + line + "\n"
    ensures WithSection(text, line) == base + tail
  {
  }

  lemma SetAddsSection(text: string, f: string -> Line, field: Field, line: string, value: Option<string>)
    requires RecognisesSections(f) && '\n' !in line && f(line) == FieldLine(field, value)
    requires !HasSection(Map(Split(text, '\n'), f))
    ensures var lines := Split(WithLine(text, Map(Split(text, '\n'), f), field, line), '\n');
            var times := TimesIn(Map(lines, f));
            && times.hasSection && times.Get(field) == value && times.Get(OtherField(field)) == None
            && Holds(lines, Map(lines, f), field, line)
  {
    var first := AddedSection(text, line);
    NoHeadingFound(Map(Split(text, '\n'), f));
    MapConcat(first, [""], f);
    assert forall k :: 0 <= k < |first| ==> Map(first, f)[k] == Map(Split(text, '\n'), f)[k];
    NewSectionReads(first, f, field, line, value);
  }

  // ---------- the two promises ----------

  lemma SetThenParseWith(text: string, f: string -> Line, field: Field, line: string, value: Option<string>)
    requires RecognisesSections(f) && '\n' !in line && f(line) == FieldLine(field, value)
    ensures var kinds := Map(Split(text, '\n'), f);
            var lines := Split(WithLine(text, kinds, field, line), '\n');
            Reads(kinds, Map(lines, f), field, value) && Holds(lines, Map(lines, f), field, line)
  {
    if HasSection(Map(Split(text, '\n'), f)) {
      SetInSection(text, f, field, line, value);
    } else {
      SetAddsSection(text, f, field, line, value);
    }
  }

  lemma SetTwiceWith(text: string, f: string -> Line, field: Field, line: string)
    requires var lines := Split(text, '\n'); Holds(lines, Map(lines, f), field, line)
    ensures WithLine(text, Map(Split(text, '\n'), f), field, line) == text
  {
    var lines := Split(text, '\n');
    EditHeld(lines, Map(lines, f), field, line);
    JoinSplit(text, '\n');
  }

  /** The value reading gives for a value that was written. */
  function Written(value: string): Option<string> {
    FieldValue(Trim(value))
  }

  lemma Recognisers(field: Field, value: string)
    requires WritableValue(value)
    ensures RecognisesSections(KindOf)
    ensures '\n' !in NewLine(field, value) && KindOf(NewLine(field, value)) == FieldLine(field, Written(value))
  {
    HeadingKind();
    EmptyKind();
    NewLineKind(field, value);
  }

  /**
   Reading after setting gives the value that was set, exactly when the section did not have several lines of the
   field or its last one already gave that value. The other field reads as before.
   */
  lemma SetThenParse(text: string, field: Field, value: string)
    requires WritableValue(value)
    ensures var before, after := ParsePlanTime(text), ParsePlanTime(SetPlanTimeField(text, field, value));
            && after.hasSection && after.Get(OtherField(field)) == before.Get(OtherField(field))
            && (after.Get(field) == Written(value) <==>
                !Repeated(Kinds(text), field) || before.Get(field) == Written(value))
  {
    Recognisers(field, value);
    SetThenParseWith(text, KindOf, field, NewLine(field, value), Written(value));
  }

  lemma PlainLine(value: string)
    requires PlainValue(value) && WritableValue(value)
    ensures KindOf(NewLine(Planned, value)) == FieldLine(Planned, Some(value)) && '\n' !in NewLine(Planned, value)
  {
    NewLineKind(Planned, value);
    PlainValueReads(value);
  }

  lemma JoinedKinds(f: string -> Line, lines: seq<string>, kinds: seq<Line>)
    requires lines != [] && |lines| == |kinds| && NoBreaks(lines)
    requires forall k :: 0 <= k < |lines| ==> f(lines[k]) == kinds[k]
    ensures Map(Split(Join(lines, '\n'), '\n'), f) == kinds
  {
    SplitJoin(lines, '\n');
    MapIs(lines, f, kinds);
  }

  lemma ThreeLines(f: string -> Line, a: string, b: string, c: string)
    requires '\n' !in a && '\n' !in b && '\n' !in c
    ensures Map(Split(Join([a, b, c], '\n'), '\n'), f) == [f(a), f(b), f(c)]
  {
    JoinedKinds(f, [a, b, c], [f(a), f(b), f(c)]);
  }

  lemma TwoLinesKinds(one: string, two: string)
    requires PlainValue(one) && WritableValue(one) && PlainValue(two) && WritableValue(two)
    ensures Kinds(Join([TIME_HEADING, NewLine(Planned, one), NewLine(Planned, two)], '\n')) ==
            [TimeHeading, FieldLine(Planned, Some(one)), FieldLine(Planned, Some(two))]
  {
    HeadingKind();
    PlainLine(one);
    PlainLine(two);
    ThreeLines(KindOf, TIME_HEADING, NewLine(Planned, one), NewLine(Planned, two));
  }

  lemma LastOfTwo(kinds: seq<Line>, one: string, two: string)
    requires kinds == [TimeHeading, FieldLine(Planned, Some(one)), FieldLine(Planned, Some(two))]
    ensures TimesIn(kinds) == Times(true, Some(two), None) && Repeated(kinds, Planned)
  {
    assert SectionStart(kinds, 0) == 0 && SectionEnd(kinds, 1) == 3;
    assert LastValue(kinds, Estimated, 1, 1) == LastValue(kinds, Estimated, 1, 2) == LastValue(kinds, Estimated, 1, 3);
  }

  /** A section that says twice how long the task takes: setting replaces the first line, reading goes by the second. */
  lemma TwoLinesDisagree(text: string, one: string, two: string, value: string)
    requires PlainValue(one) && WritableValue(one) && PlainValue(two) && WritableValue(two)
    requires PlainValue(value) && WritableValue(value) && value != two
    requires text == Join([TIME_HEADING, NewLine(Planned, one), NewLine(Planned, two)], '\n')
    ensures ParsePlanTime(SetPlanTimeField(text, Planned, value)).Get(Planned) != Some(value)
  {
    TwoLinesKinds(one, two);
    LastOfTwo(Kinds(text), one, two);
    PlainValueReads(value);
    SetThenParse(text, Planned, value);
  }

  /** Setting the same value again changes nothing. */
  lemma SetTwice(text: string, field: Field, value: string)
    requires WritableValue(value)
    ensures var once := SetPlanTimeField(text, field, value); SetPlanTimeField(once, field, value) == once
  {
    Recognisers(field, value);
    SetThenParseWith(text, KindOf, field, NewLine(field, value), Written(value));
    SetTwiceWith(SetPlanTimeField(text, field, value), KindOf, field, NewLine(field, value));
  }

  /** A plain value comes back as it is. */
  lemma PlainValueComesBack(text: string, field: Field, value: string)
    requires PlainValue(value) && WritableValue(value) && !Repeated(Kinds(text), field)
    ensures ParsePlanTime(SetPlanTimeField(text, field, value)).Get(field) == Some(value)
  {
    PlainValueReads(value);
    SetThenParse(text, field, value);
  }

  lemma DurationTextIsPlain(ms: real)
    ensures PlainValue(Duration.DurationText(ms)) && WritableValue(Duration.DurationText(ms))
  {
    var s := Duration.PrintedSeconds(ms);
    var text := Duration.DurationText(ms);
    Duration.ReadsBack(s, 0);
    Duration.PrintedIsPlain(s, 0);
    PlainCharacters(text);
  }

  lemma PlainCharacters(text: string)
    requires Duration.Plain(text) && text != ""
    ensures PlainValue(text) && WritableValue(text)
  {
    assert text[0] in text && text[|text| - 1] in text;
    assert '-' !in text;
    TrimPlain(text);
    forall k | 0 <= k < |text|
      ensures !IsLineTerminator(text[k])
    {
      assert text[k] in text;
    }
  }

  /** An estimate written into a plan that had at most one is read back, as a duration, as its whole seconds. */
  lemma EstimateComesBack(text: string, ms: real)
    requires !Repeated(Kinds(text), Estimated)
    ensures var value := ParsePlanTime(SetPlanTimeField(text, Estimated, Duration.DurationText(ms))).Get(Estimated);
            Duration.DurationMs(value) == Some(1000 * Duration.PrintedSeconds(ms))
  {
    DurationTextIsPlain(ms);
    PlainValueComesBack(text, Estimated, Duration.DurationText(ms));
    Duration.PrintedReadsBack(ms);
  }
}
