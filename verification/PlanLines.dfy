/** Which lines of a plan are headings and fields of the Time section, as a person would write them. */
module PlanLines {
  import opened Text
  import opened TimeSection
  import opened PlanTime

  // ---------- headings ----------

  predicate AllHashes(s: string) {
    forall k :: 0 <= k < |s| ==> s[k] == '#'
  }

  lemma {:induction false} HashRunOf(hashes: string, rest: string)
    requires AllHashes(hashes) && rest != "" && rest[0] != '#'
    ensures HashRun(hashes + rest) == |hashes|
  {
    if hashes == "" {
      assert hashes + rest == rest;
    } else {
      assert (hashes + rest)[1..] == hashes[1..] + rest;
      HashRunOf(hashes[1..], rest);
    }
  }

  lemma {:induction false} HashRunIs(s: string)
    ensures AllHashes(s[..HashRun(s)])
  {
    if s != "" && s[0] == '#' { HashRunIs(s[1..]); }
  }

  /** One to six number signs, white space and a text, perhaps with white space around it all. */
  predicate HeadingForm(line: string, lead: string, hashes: string, gap: string, text: string, tail: string) {
    && line == lead + ((hashes + (gap + text)) + tail)
    && AllSpace(lead) && AllHashes(hashes) && 1 <= |hashes| <= 6 && AllSpace(gap) && gap != "" && Solid(text)
    && AllSpace(tail)
  }

  lemma FormIsHeading(line: string, lead: string, hashes: string, gap: string, text: string, tail: string)
    requires HeadingForm(line, lead, hashes, gap, text, tail)
    ensures IsHeading(line) && (IsTimeHeading(line) <==> SameLetters(text, "time"))
  {
    var t := hashes + (gap + text);
    assert gap[0] in gap && t[|t| - 1] == text[|text| - 1] && t[0] == hashes[0];
    TrimOff(lead, t, tail);
    HashRunOf(hashes, gap + text);
    assert t[|hashes|..] == gap + text;
    TrimStartOff(gap, text);
  }

  lemma GapAndText(rest: string) returns (gap: string, text: string)
    requires rest != "" && IsSpace(rest[0]) && !IsSpace(rest[|rest| - 1])
    ensures rest == gap + text && AllSpace(gap) && gap != "" && Solid(text)
  {
    TrimStartCut(rest);
    text := TrimStart(rest);
    gap := rest[..|rest| - |text|];
    assert rest[|rest| - 1] in rest;
  }

  lemma HeadOf(t: string, n: nat) returns (hashes: string, gap: string, text: string)
    requires Solid(t) && n == HashRun(t) && n < |t| && IsSpace(t[n])
    ensures t == hashes + (gap + text) && |hashes| == n && AllHashes(hashes)
    ensures AllSpace(gap) && gap != "" && Solid(text)
  {
    HashRunIs(t);
    hashes := t[..n];
    var rest := t[n..];
    gap, text := GapAndText(rest);
    assert t == hashes + rest;
  }

  lemma HeadingHasForm(line: string) returns (lead: string, hashes: string, gap: string, text: string, tail: string)
    requires IsHeading(line)
    ensures HeadingForm(line, lead, hashes, gap, text, tail)
  {
    var t := Trim(line);
    lead, tail := TrimCuts(line);
    hashes, gap, text := HeadOf(t, HashRun(t));
    assert line == lead + (t + tail);
  }

  /** A line is a heading exactly if it has that form, and the Time heading if its text is `time` in any case. */
  lemma HeadingsExactly(line: string)
    ensures IsHeading(line) <==>
              exists lead, hashes, gap, text, tail :: HeadingForm(line, lead, hashes, gap, text, tail)
    ensures forall lead, hashes, gap, text, tail :: HeadingForm(line, lead, hashes, gap, text, tail) ==>
              (IsTimeHeading(line) <==> SameLetters(text, "time"))
  {
    if IsHeading(line) {
      var lead, hashes, gap, text, tail := HeadingHasForm(line);
    }
    forall lead, hashes, gap, text, tail | HeadingForm(line, lead, hashes, gap, text, tail)
      ensures IsHeading(line) && (IsTimeHeading(line) <==> SameLetters(text, "time"))
    {
      FormIsHeading(line, lead, hashes, gap, text, tail);
    }
  }

  // ---------- fields ----------

  /** A field line in its parts: a bullet, the name between stars, a colon and the value. */
  datatype Form = Form(
    lead: string,
    bullet: string,
    open: string,
    name: string,
    close: string,
    gap: string,
    rest: string
  )

  predicate IsBullet(s: string) {
    s == "" || (|s| >= 2 && (s[0] == '-' || s[0] == '*') && AllSpace(s[1..]))
  }

  predicate IsForm(f: Form, field: Field) {
    && AllSpace(f.lead) && IsBullet(f.bullet) && f.open in ["", "**"] && f.close in ["", "**"] && AllSpace(f.gap)
    && SameLetters(f.name, if field == Planned then "planned" else "estimated")
    && OneLine(Trim(f.rest))
  }

  function AfterName(f: Form): string {
    f.close + (f.gap + (":" + f.rest))
  }

  function Named(f: Form): string {
    f.open + (f.name + AfterName(f))
  }

  function TextOf(f: Form): string {
    f.lead + (f.bullet + Named(f))
  }

  lemma NameIsLetters(name: string, field: Field)
    requires SameLetters(name, FieldWord(field))
    ensures name != "" && !IsSpace(name[0]) && name[0] != '*' && name[0] != '-'
  {
    assert LowerChar(name[0]) == FieldWord(field)[0];
  }

  lemma ValueReads(close: string, gap: string, rest: string)
    requires close in ["", "**"] && AllSpace(gap) && OneLine(Trim(rest))
    ensures FieldText(close + (gap + (":" + rest))) == Some(Trim(rest))
  {
    var colon := ":" + rest;
    var u := gap + colon;
    assert gap != "" ==> gap[0] in gap;
    if close == "" {
      assert close + u == u;
    } else {
      assert (close + u)[2..] == u;
    }
    assert AfterStars(close + u) == u;
    TrimStartOff(gap, colon);
    assert colon[1..] == rest;
  }

  lemma BulletGoes(bullet: string, named: string)
    requires IsBullet(bullet) && named != "" && !IsSpace(named[0]) && named[0] != '-'
    requires named[0] == '*' ==> |named| >= 2 && named[1] == '*'
    ensures var t := bullet + named; !IsSpace(t[0]) && AfterBullet(t) == named
  {
    var t := bullet + named;
    if bullet == "" {
      assert t == named;
    } else {
      assert bullet[1] == bullet[1..][0] && bullet[1..][0] in bullet[1..];
      assert t[1..] == bullet[1..] + named;
      TrimStartOff(bullet[1..], named);
    }
  }

  lemma StarsGo(open: string, name: string, rest: string)
    requires open in ["", "**"] && name != "" && name[0] != '*'
    ensures AfterStars(open + (name + rest)) == name + rest
  {
    if open == "" {
      assert open + (name + rest) == name + rest;
    } else {
      assert (open + (name + rest))[2..] == name + rest;
    }
  }

  lemma NameReads(line: string, field: Field, name: string, after: string)
    requires AfterStars(AfterBullet(TrimStart(line))) == name + after && SameLetters(name, FieldWord(field))
    ensures FieldOf(line, field) == FieldText(after)
  {
    assert (name + after)[..|name|] == name && (name + after)[|name|..] == after;
  }

  lemma FormReads(f: Form, field: Field)
    requires IsForm(f, field)
    ensures FieldOf(TextOf(f), field) == Some(Trim(f.rest))
  {
    NameIsLetters(f.name, field);
    BulletGoes(f.bullet, Named(f));
    TrimStartOff(f.lead, f.bullet + Named(f));
    StarsGo(f.open, f.name, AfterName(f));
    NameReads(TextOf(f), field, f.name, AfterName(f));
    ValueReads(f.close, f.gap, f.rest);
  }

  lemma LeadOf(line: string) returns (lead: string)
    ensures AllSpace(lead) && line == lead + TrimStart(line)
  {
    TrimStartCut(line);
    lead := line[..|line| - |TrimStart(line)|];
  }

  lemma BulletOf(t: string) returns (bullet: string)
    ensures IsBullet(bullet) && t == bullet + AfterBullet(t)
  {
    if AfterBullet(t) == t {
      bullet := "";
      assert bullet + t == t;
    } else {
      var space := LeadOf(t[1..]);
      bullet := [t[0]] + space;
      assert t == [t[0]] + t[1..] && bullet[1..] == space;
    }
  }

  lemma StarsOf(t: string) returns (stars: string)
    ensures stars in ["", "**"] && t == stars + AfterStars(t)
  {
    stars := if AfterStars(t) == t then "" else "**";
  }

  lemma ColonHasForm(u: string) returns (gap: string, rest: string)
    requires var v := TrimStart(u); v != "" && v[0] == ':'
    ensures AllSpace(gap) && u == gap + (":" + rest) && rest == TrimStart(u)[1..]
  {
    gap := LeadOf(u);
    var v := TrimStart(u);
    rest := v[1..];
    assert v == ":" + rest;
  }

  lemma ValueHasForm(u: string) returns (close: string, gap: string, rest: string)
    requires FieldText(u).Some?
    ensures close in ["", "**"] && AllSpace(gap) && u == close + (gap + (":" + rest))
    ensures OneLine(Trim(rest)) && FieldText(u) == Some(Trim(rest))
  {
    close := StarsOf(u);
    gap, rest := ColonHasForm(AfterStars(u));
  }

  lemma NameOf(t: string, field: Field) returns (name: string, after: string)
    requires StartsWithField(t, field)
    ensures SameLetters(name, if field == Planned then "planned" else "estimated")
    ensures t == name + after && after == t[|FieldWord(field)|..]
  {
    name, after := t[..|FieldWord(field)|], t[|FieldWord(field)|..];
  }

  lemma FieldHasForm(line: string, field: Field) returns (f: Form)
    requires FieldOf(line, field).Some?
    ensures IsForm(f, field) && line == TextOf(f) && FieldOf(line, field) == Some(Trim(f.rest))
  {
    var start := TrimStart(line);
    var named := AfterBullet(start);
    var t := AfterStars(named);
    var lead := LeadOf(line);
    var bullet := BulletOf(start);
    var open := StarsOf(named);
    var name, after := NameOf(t, field);
    var close, gap, rest := ValueHasForm(after);
    f := Form(lead, bullet, open, name, close, gap, rest);
  }

  /**
   A line is a line of a field exactly if it is so written: perhaps a bullet, the name in any case, perhaps with two
   stars before and after it, a colon and a value on one line, with white space around. The value is what it says.
   */
  lemma FieldsExactly(line: string, field: Field, value: string)
    ensures FieldOf(line, field) == Some(value) <==>
            exists f :: IsForm(f, field) && line == TextOf(f) && value == Trim(f.rest)
  {
    if FieldOf(line, field) == Some(value) {
      var f := FieldHasForm(line, field);
    }
    if f :| IsForm(f, field) && line == TextOf(f) && value == Trim(f.rest) {
      FormReads(f, field);
    }
  }

  // ---------- values ----------

  /** Backticks are dropped and nothing else. */
  lemma {:induction false} TicksGo(s: string, c: char)
    ensures WithoutTicks("") == "" && WithoutTicks(s + [c]) == WithoutTicks(s) + if c == '`' then "" else [c]
  {
    var longer := s + [c];
    if s == "" {
      assert longer[1..] == "";
    } else {
      assert longer[0] == s[0] && longer[1..] == s[1..] + [c];
      TicksGo(s[1..], c);
    }
  }

  /** A plain value may stand between backticks. */
  lemma TickedReads(value: string)
    requires PlainValue(value)
    ensures FieldValue("`" + value + "`") == Some(value)
  {
    var ticked := "`" + value;
    TicksGo(ticked, '`');
    assert ticked + ['`'] == "`" + value + "`" && ticked[1..] == value;
    WithoutTicksPlain(value);
    assert WithoutTicks("`" + value + "`") == value + "" == value;
    TrimPlain(value);
  }
}
