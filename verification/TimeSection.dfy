/** The Time section of a plan, given what each of its lines is: where it is, what it says, and how a field is set. */
module TimeSection {
  import opened Text

  datatype Field = Planned | Estimated

  /** What a plan says about time; a field is absent when it is missing, `-` or a placeholder. */
  datatype Times = Times(hasSection: bool, planned: Option<string>, estimated: Option<string>) {
    function Get(field: Field): Option<string> {
      if field == Planned then planned else estimated
    }
  }

  /** What a line is to the section code. */
  datatype Line = TimeHeading | Heading | FieldLine(field: Field, value: Option<string>) | Other(blank: bool)

  /** The first Time heading at or after a line, or the end. */
  function SectionStart(kinds: seq<Line>, i: nat): (start: nat)
    requires i <= |kinds|
    ensures i <= start <= |kinds|
    ensures start < |kinds| ==> kinds[start].TimeHeading?
    ensures forall k :: i <= k < start ==> !kinds[k].TimeHeading?
    decreases |kinds| - i
  {
    if i == |kinds| || kinds[i].TimeHeading? then i else SectionStart(kinds, i + 1)
  }

  predicate EndsSection(line: Line) {
    line.TimeHeading? || line.Heading?
  }

  /** The first heading at or after a line, or the end. */
  function SectionEnd(kinds: seq<Line>, i: nat): (end: nat)
    requires i <= |kinds|
    ensures i <= end <= |kinds|
    ensures end < |kinds| ==> EndsSection(kinds[end])
    ensures forall k :: i <= k < end ==> !EndsSection(kinds[k])
    decreases |kinds| - i
  {
    if i == |kinds| || EndsSection(kinds[i]) then i else SectionEnd(kinds, i + 1)
  }

  predicate IsField(line: Line, field: Field) {
    line.FieldLine? && line.field == field
  }

  /** The value of the last line of a field before `hi`. */
  function LastValue(kinds: seq<Line>, field: Field, lo: nat, hi: nat): Option<string>
    requires lo <= hi <= |kinds|
  {
    if lo == hi then None
    else if IsField(kinds[hi - 1], field) then kinds[hi - 1].value
    else LastValue(kinds, field, lo, hi - 1)
  }

  /** The first line of a field from `lo` on, or `hi`. */
  function FirstLine(kinds: seq<Line>, field: Field, lo: nat, hi: nat): (i: nat)
    requires lo <= hi <= |kinds|
    ensures lo <= i <= hi && (i < hi ==> IsField(kinds[i], field))
    ensures forall k :: lo <= k < i ==> !IsField(kinds[k], field)
    decreases hi - lo
  {
    if lo == hi || IsField(kinds[lo], field) then lo else FirstLine(kinds, field, lo + 1, hi)
  }

  /** After the last line before `hi` that is not blank. */
  function AfterLastText(kinds: seq<Line>, lo: nat, hi: nat): (at: nat)
    requires lo <= hi <= |kinds|
    ensures lo <= at <= hi && (lo < at ==> kinds[at - 1] != Other(true))
    ensures forall k :: at <= k < hi ==> kinds[k] == Other(true)
  {
    if lo == hi then lo else if kinds[hi - 1] != Other(true) then hi else AfterLastText(kinds, lo, hi - 1)
  }

  function TimesIn(kinds: seq<Line>): Times {
    var start := SectionStart(kinds, 0);
    if start == |kinds| then Times(false, None, None)
    else
      var end := SectionEnd(kinds, start + 1);
      Times(true, LastValue(kinds, Planned, start + 1, end), LastValue(kinds, Estimated, start + 1, end))
  }

  predicate HasSection(kinds: seq<Line>) {
    SectionStart(kinds, 0) < |kinds|
  }

  function BodyStart(kinds: seq<Line>): nat {
    SectionStart(kinds, 0) + 1
  }

  function BodyEnd(kinds: seq<Line>): (end: nat)
    requires HasSection(kinds)
    ensures BodyStart(kinds) <= end <= |kinds|
  {
    SectionEnd(kinds, BodyStart(kinds))
  }

  function FieldPlace(kinds: seq<Line>, field: Field): (i: nat)
    requires HasSection(kinds)
    ensures BodyStart(kinds) <= i <= BodyEnd(kinds)
    ensures i < BodyEnd(kinds) ==> IsField(kinds[i], field)
    ensures forall k :: BodyStart(kinds) <= k < i ==> !IsField(kinds[k], field)
  {
    FirstLine(kinds, field, BodyStart(kinds), BodyEnd(kinds))
  }

  /** Put a line in the section: over the first line of the field, or after the last text of the section. */
  function Edit<T>(lines: seq<T>, kinds: seq<Line>, field: Field, line: T): (out: seq<T>)
    requires |lines| == |kinds| && HasSection(kinds)
    ensures out != []
  {
    var i := FieldPlace(kinds, field);
    if i < BodyEnd(kinds) then lines[i := line]
    else InsertAt(lines, AfterLastText(kinds, BodyStart(kinds), BodyEnd(kinds)), line)
  }

  /** The first line of the field in the section is this one. */
  predicate Holds<T(==)>(lines: seq<T>, kinds: seq<Line>, field: Field, line: T)
    requires |lines| == |kinds|
  {
    HasSection(kinds) && FieldPlace(kinds, field) < BodyEnd(kinds) && lines[FieldPlace(kinds, field)] == line
  }

  /** The section has two lines of the field. */
  predicate Repeated(kinds: seq<Line>, field: Field) {
    HasSection(kinds)
    && exists i, j :: BodyStart(kinds) <= i < j < BodyEnd(kinds) && IsField(kinds[i], field) && IsField(kinds[j], field)
  }

  function OtherField(field: Field): Field {
    if field == Planned then Estimated else Planned
  }

  /** What reading gives after setting: the value in its field, unless a later line of the field has the last word. */
  predicate Reads(before: seq<Line>, after: seq<Line>, field: Field, value: Option<string>) {
    && TimesIn(after).hasSection
    && TimesIn(after).Get(OtherField(field)) == TimesIn(before).Get(OtherField(field))
    && TimesIn(after).Get(field) == if Repeated(before, field) then TimesIn(before).Get(field) else value
  }

  predicate SectionIs(kinds: seq<Line>, lo: nat, hi: nat) {
    HasSection(kinds) && BodyStart(kinds) == lo && BodyEnd(kinds) == hi
  }

  // ---------- the section after an edit ----------

  lemma {:induction false} SectionStartIs(kinds: seq<Line>, i: nat, start: nat)
    requires i <= start < |kinds| && kinds[start].TimeHeading? && forall k :: i <= k < start ==> !kinds[k].TimeHeading?
    ensures SectionStart(kinds, i) == start
    decreases start - i
  {
    if i < start { SectionStartIs(kinds, i + 1, start); }
  }

  lemma {:induction false} SectionEndIs(kinds: seq<Line>, i: nat, end: nat)
    requires i <= end <= |kinds| && (end < |kinds| ==> EndsSection(kinds[end]))
    requires forall k :: i <= k < end ==> !EndsSection(kinds[k])
    ensures SectionEnd(kinds, i) == end
    decreases end - i
  {
    if i < end { SectionEndIs(kinds, i + 1, end); }
  }

  lemma {:induction false} FirstLineIs(kinds: seq<Line>, field: Field, lo: nat, hi: nat, i: nat)
    requires lo <= i < hi <= |kinds| && IsField(kinds[i], field)
    requires forall k :: lo <= k < i ==> !IsField(kinds[k], field)
    ensures FirstLine(kinds, field, lo, hi) == i
    decreases i - lo
  {
    if lo < i { FirstLineIs(kinds, field, lo + 1, hi, i); }
  }

  lemma {:induction false} LastValueIs(kinds: seq<Line>, field: Field, lo: nat, hi: nat, j: nat)
    requires lo <= j < hi <= |kinds| && IsField(kinds[j], field) && forall k :: j < k < hi ==> !IsField(kinds[k], field)
    ensures LastValue(kinds, field, lo, hi) == kinds[j].value
  {
    if j < hi - 1 { LastValueIs(kinds, field, lo, hi - 1, j); }
  }

  lemma {:induction false} LastValueNone(kinds: seq<Line>, field: Field, lo: nat, hi: nat)
    requires lo <= hi <= |kinds| && forall k :: lo <= k < hi ==> !IsField(kinds[k], field)
    ensures LastValue(kinds, field, lo, hi) == None
  {
    if lo < hi { LastValueNone(kinds, field, lo, hi - 1); }
  }

  /** The last line of a field, if there is one. */
  lemma {:induction false} LastLine(kinds: seq<Line>, field: Field, lo: nat, hi: nat) returns (j: Option<nat>)
    requires lo <= hi <= |kinds|
    ensures j.None? ==> forall k :: lo <= k < hi ==> !IsField(kinds[k], field)
    ensures j.Some? ==> lo <= j.value < hi && IsField(kinds[j.value], field)
                        && forall k :: j.value < k < hi ==> !IsField(kinds[k], field)
  {
    if lo == hi {
      j := None;
    } else if IsField(kinds[hi - 1], field) {
      j := Some(hi - 1);
    } else {
      j := LastLine(kinds, field, lo, hi - 1);
    }
  }

  /** Replacing one line of a stretch leaves the last value of a field alone when the line is not its last. */
  lemma ReplaceKeepsValue(kinds: seq<Line>, i: nat, line: Line, field: Field, lo: nat, hi: nat)
    requires lo <= i < hi <= |kinds|
    requires (!IsField(kinds[i], field) && !IsField(line, field)) || exists k :: i < k < hi && IsField(kinds[k], field)
    ensures LastValue(kinds[i := line], field, lo, hi) == LastValue(kinds, field, lo, hi)
  {
    var j := LastLine(kinds, field, lo, hi);
    if j.Some? {
      LastValueIs(kinds, field, lo, hi, j.value);
      LastValueIs(kinds[i := line], field, lo, hi, j.value);
    } else {
      LastValueNone(kinds, field, lo, hi);
      LastValueNone(kinds[i := line], field, lo, hi);
    }
  }

  /** So does inserting a line that is not of the field. */
  lemma InsertKeepsValue(kinds: seq<Line>, at: nat, line: Line, field: Field, lo: nat, hi: nat)
    requires lo <= at <= hi <= |kinds| && !IsField(line, field)
    ensures LastValue(InsertAt(kinds, at, line), field, lo, hi + 1) == LastValue(kinds, field, lo, hi)
  {
    var out := InsertAt(kinds, at, line);
    var j := LastLine(kinds, field, lo, hi);
    if j.Some? {
      LastValueIs(kinds, field, lo, hi, j.value);
      LastValueIs(out, field, lo, hi + 1, if j.value < at then j.value else j.value + 1);
    } else {
      LastValueNone(kinds, field, lo, hi);
      LastValueNone(out, field, lo, hi + 1);
    }
  }

  lemma ReplacedSection(kinds: seq<Line>, i: nat, line: Line)
    requires HasSection(kinds) && BodyStart(kinds) <= i < BodyEnd(kinds) && line.FieldLine?
    ensures SectionIs(kinds[i := line], BodyStart(kinds), BodyEnd(kinds))
  {
    SectionStartIs(kinds[i := line], 0, BodyStart(kinds) - 1);
    SectionEndIs(kinds[i := line], BodyStart(kinds), BodyEnd(kinds));
  }

  lemma InsertedSection(kinds: seq<Line>, at: nat, line: Line)
    requires HasSection(kinds) && BodyStart(kinds) <= at <= BodyEnd(kinds) && line.FieldLine?
    ensures SectionIs(InsertAt(kinds, at, line), BodyStart(kinds), BodyEnd(kinds) + 1)
  {
    SectionStartIs(InsertAt(kinds, at, line), 0, BodyStart(kinds) - 1);
    SectionEndIs(InsertAt(kinds, at, line), BodyStart(kinds), BodyEnd(kinds) + 1);
  }

  lemma ReplaceReads(kinds: seq<Line>, field: Field, value: Option<string>, i: nat)
    requires HasSection(kinds) && i == FieldPlace(kinds, field) < BodyEnd(kinds)
    ensures Reads(kinds, kinds[i := FieldLine(field, value)], field, value)
    ensures SectionIs(kinds[i := FieldLine(field, value)], BodyStart(kinds), BodyEnd(kinds))
    ensures FieldPlace(kinds[i := FieldLine(field, value)], field) == i
  {
    var lo, hi := BodyStart(kinds), BodyEnd(kinds);
    var out := kinds[i := FieldLine(field, value)];
    ReplacedSection(kinds, i, FieldLine(field, value));
    FirstLineIs(out, field, lo, hi, i);
    ReplaceKeepsValue(kinds, i, out[i], OtherField(field), lo, hi);
    if Repeated(kinds, field) {
      var a, b :| lo <= a < b < hi && IsField(kinds[a], field) && IsField(kinds[b], field);
      ReplaceKeepsValue(kinds, i, out[i], field, lo, hi);
    } else {
      LastValueIs(out, field, lo, hi, i);
    }
  }

  lemma InsertReads(kinds: seq<Line>, field: Field, value: Option<string>, at: nat)
    requires HasSection(kinds) && FieldPlace(kinds, field) == BodyEnd(kinds) && BodyStart(kinds) <= at <= BodyEnd(kinds)
    ensures Reads(kinds, InsertAt(kinds, at, FieldLine(field, value)), field, value)
    ensures SectionIs(InsertAt(kinds, at, FieldLine(field, value)), BodyStart(kinds), BodyEnd(kinds) + 1)
    ensures FieldPlace(InsertAt(kinds, at, FieldLine(field, value)), field) == at
  {
    var lo, hi := BodyStart(kinds), BodyEnd(kinds);
    var out := InsertAt(kinds, at, FieldLine(field, value));
    InsertedSection(kinds, at, FieldLine(field, value));
    InsertKeepsValue(kinds, at, FieldLine(field, value), OtherField(field), lo, hi);
    LastValueIs(out, field, lo, hi + 1, at);
    FirstLineIs(out, field, lo, hi + 1, at);
  }

  /** Editing lines and looking at what they are, or editing what they are: the same. */
  lemma EditCommutes(lines: seq<string>, f: string -> Line, field: Field, line: string)
    requires HasSection(Map(lines, f))
    ensures Map(Edit(lines, Map(lines, f), field, line), f) == Edit(Map(lines, f), Map(lines, f), field, f(line))
  {
    var kinds := Map(lines, f);
    var i := FieldPlace(kinds, field);
    if i < BodyEnd(kinds) {
      MapUpdate(lines, f, i, line);
    } else {
      MapInsert(lines, f, AfterLastText(kinds, BodyStart(kinds), BodyEnd(kinds)), line);
    }
  }

  lemma EditReads(kinds: seq<Line>, field: Field, value: Option<string>)
    requires HasSection(kinds)
    ensures Reads(kinds, Edit(kinds, kinds, field, FieldLine(field, value)), field, value)
  {
    var i := FieldPlace(kinds, field);
    if i < BodyEnd(kinds) {
      ReplaceReads(kinds, field, value, i);
    } else {
      InsertReads(kinds, field, value, AfterLastText(kinds, BodyStart(kinds), BodyEnd(kinds)));
    }
  }

  lemma EditHolds<T>(lines: seq<T>, kinds: seq<Line>, field: Field, line: T, value: Option<string>)
    requires |lines| == |kinds| && HasSection(kinds)
    ensures var after := Edit(kinds, kinds, field, FieldLine(field, value));
            |Edit(lines, kinds, field, line)| == |after| && Holds(Edit(lines, kinds, field, line), after, field, line)
  {
    var i := FieldPlace(kinds, field);
    if i < BodyEnd(kinds) {
      ReplaceReads(kinds, field, value, i);
    } else {
      InsertReads(kinds, field, value, AfterLastText(kinds, BodyStart(kinds), BodyEnd(kinds)));
    }
  }

  lemma EditHeld<T>(lines: seq<T>, kinds: seq<Line>, field: Field, line: T)
    requires |lines| == |kinds| && Holds(lines, kinds, field, line)
    ensures Edit(lines, kinds, field, line) == lines
  {
  }

  // ---------- a new section ----------

  predicate NoTimeHeading(kinds: seq<Line>) {
    forall k :: 0 <= k < |kinds| ==> !kinds[k].TimeHeading?
  }

  function SectionKinds(field: Field, value: Option<string>): seq<Line> {
    [Other(true), TimeHeading, Other(true), FieldLine(field, value), Other(true)]
  }

  lemma NewSectionTimes(kinds: seq<Line>, field: Field, value: Option<string>)
    requires NoTimeHeading(kinds)
    ensures var all := kinds + SectionKinds(field, value);
            && TimesIn(all).hasSection
            && TimesIn(all).Get(field) == value && TimesIn(all).Get(OtherField(field)) == None
            && SectionIs(all, |kinds| + 2, |kinds| + 5)
            && FieldPlace(all, field) == |kinds| + 3
  {
    var n := |kinds|;
    var all := kinds + SectionKinds(field, value);
    SectionStartIs(all, 0, n + 1);
    SectionEndIs(all, n + 2, n + 5);
    LastValueIs(all, field, n + 2, n + 5, n + 3);
    LastValueNone(all, OtherField(field), n + 2, n + 5);
    FirstLineIs(all, field, n + 2, n + 5, n + 3);
  }
}
