/** Which texts are durations and what they are worth, part by part. */
module DurationForms {
  import opened Text
  import opened Kanban
  import opened Duration

  // ---------- parts ----------

  /** A whole number, perhaps a point and more digits, and a unit in either case. */
  datatype Written = Written(digits: string, fraction: string, unit: char)

  predicate IsWritten(w: Written) {
    && w.digits != "" && AllDigits(w.digits) && AllDigits(w.fraction)
    && w.unit in {'s', 'm', 'h', 'd', 'S', 'M', 'H', 'D'}
  }

  function Spell(w: Written): string {
    w.digits + ((if w.fraction == "" then "" else "." + w.fraction) + [w.unit])
  }

  function UnitMs(unit: char): real {
    match LowerChar(unit)
    case 's' => 1000.0
    case 'm' => 60.0 * 1000.0
    case 'h' => 60.0 * 60.0 * 1000.0
    case _ => 24.0 * 60.0 * 60.0 * 1000.0
  }

  function Worth(w: Written): real
    requires IsWritten(w)
  {
    (DigitsValue(w.digits) as real + Fraction(w.fraction)) * UnitMs(w.unit)
  }

  lemma UnitWorth(value: real, unit: char)
    requires unit in {'s', 'm', 'h', 'd', 'S', 'M', 'H', 'D'}
    ensures IsUnit(unit) && !IsDigit(unit) && unit != '.' && InMs(value, unit) == value * UnitMs(unit)
  {
  }

  lemma WholeReads(digits: string, tail: string)
    requires digits != "" && AllDigits(digits) && tail != "" && !IsDigit(tail[0])
    ensures ReadPart(digits + tail) == ReadUnit(DigitsValue(digits) as real, tail)
  {
    DigitRunOf(digits, tail);
    assert (digits + tail)[..|digits|] == digits && (digits + tail)[|digits|..] == tail;
  }

  lemma UnitReads(whole: real, unit: char, rest: string)
    requires IsUnit(unit)
    ensures ReadUnit(whole, [unit] + rest) == Some(Part(InMs(whole, unit), rest))
  {
    assert ([unit] + rest)[1..] == rest;
  }

  lemma WholePartReads(digits: string, unit: char, rest: string, value: real)
    requires digits != "" && AllDigits(digits) && IsUnit(unit) && value == DigitsValue(digits) as real
    ensures ReadPart(digits + ([unit] + rest)) == Some(Part(InMs(value, unit), rest))
  {
    WholeReads(digits, [unit] + rest);
    UnitReads(value, unit, rest);
  }

  lemma PointPartReads(digits: string, fraction: string, unit: char, rest: string, tail: string, value: real)
    requires digits != "" && AllDigits(digits) && fraction != "" && AllDigits(fraction) && IsUnit(unit)
    requires tail == ['.'] + (fraction + ([unit] + rest)) && value == DigitsValue(digits) as real
    ensures ReadPart(digits + tail) == Some(Part(InMs(value + Fraction(fraction), unit), rest))
  {
    WholeReads(digits, tail);
    ReadUnitDecimal(value, fraction, unit, rest, tail);
  }

  lemma SpelledPart(w: Written, rest: string)
    requires IsWritten(w)
    ensures var number := DigitsValue(w.digits) as real + Fraction(w.fraction);
            IsUnit(w.unit) && ReadPart(Spell(w) + rest) == Some(Part(InMs(number, w.unit), rest))
  {
    var value := DigitsValue(w.digits) as real;
    UnitWorth(value, w.unit);
    if w.fraction == "" {
      assert Spell(w) + rest == w.digits + ([w.unit] + rest);
      WholePartReads(w.digits, w.unit, rest, value);
    } else {
      var tail := ['.'] + (w.fraction + ([w.unit] + rest));
      assert Spell(w) + rest == w.digits + tail;
      PointPartReads(w.digits, w.fraction, w.unit, rest, tail, value);
    }
  }

  lemma WorthInMs(w: Written)
    requires IsWritten(w)
    ensures Worth(w) == InMs(DigitsValue(w.digits) as real + Fraction(w.fraction), w.unit)
  {
    UnitWorth(DigitsValue(w.digits) as real + Fraction(w.fraction), w.unit);
  }

  lemma PartReads(w: Written, rest: string)
    requires IsWritten(w)
    ensures ReadPart(Spell(w) + rest) == Some(Part(Worth(w), rest))
  {
    SpelledPart(w, rest);
    WorthInMs(w);
  }

  lemma UnitIsWritten(digits: string, tail: string) returns (w: Written)
    requires digits != "" && AllDigits(digits) && ReadUnit(DigitsValue(digits) as real, tail).Some?
    ensures IsWritten(w) && digits + tail == Spell(w) + ReadUnit(DigitsValue(digits) as real, tail).value.rest
  {
    if IsUnit(tail[0]) {
      w := Written(digits, "", tail[0]);
      assert tail == [tail[0]] + tail[1..];
    } else {
      var m := DigitRun(tail[1..]);
      var after := tail[1..][m..];
      w := Written(digits, tail[1..][..m], after[0]);
      assert tail == "." + w.fraction + [after[0]] + after[1..];
    }
  }

  lemma PartIsWritten(s: string) returns (w: Written)
    requires ReadPart(s).Some?
    ensures IsWritten(w) && s == Spell(w) + ReadPart(s).value.rest
  {
    var n := DigitRun(s);
    assert s == s[..n] + s[n..];
    w := UnitIsWritten(s[..n], s[n..]);
  }

  // ---------- several parts ----------

  predicate AllWritten(ws: seq<Written>) {
    forall k :: 0 <= k < |ws| ==> IsWritten(ws[k])
  }

  function SpellAll(ws: seq<Written>): string {
    if ws == [] then "" else Spell(ws[0]) + SpellAll(ws[1..])
  }

  function TotalWorth(ws: seq<Written>): real
    requires AllWritten(ws)
  {
    if ws == [] then 0.0 else Worth(ws[0]) + TotalWorth(ws[1..])
  }

  lemma {:induction false} SpelledReads(ws: seq<Written>)
    requires AllWritten(ws) && ws != []
    ensures IsDuration(SpellAll(ws)) && TotalMs(SpellAll(ws)) == TotalWorth(ws)
    decreases |ws|
  {
    PartReads(ws[0], SpellAll(ws[1..]));
    if ws[1..] != [] { SpelledReads(ws[1..]); }
  }

  lemma {:induction false} ReadIsSpelled(s: string) returns (ws: seq<Written>)
    requires IsDuration(s)
    ensures ws != [] && AllWritten(ws) && s == SpellAll(ws)
    decreases |s|
  {
    var w := PartIsWritten(s);
    var rest := ReadPart(s).value.rest;
    var more := [];
    if rest != "" { more := ReadIsSpelled(rest); }
    ws := [w] + more;
    assert ws[1..] == more;
  }

  // ---------- white space anywhere ----------

  /** The text with white space put in, at either end or between any two characters. */
  predicate Spaced(text: string, s: string)
    decreases |text|
  {
    if text == "" then s == ""
    else if IsSpace(text[0]) then Spaced(text[1..], s)
    else s != "" && s[0] == text[0] && Spaced(text[1..], s[1..])
  }

  lemma {:induction false} SpacedExactly(text: string, s: string)
    ensures Spaced(text, s) <==> WithoutSpaces(text) == s
    decreases |text|
  {
    if text != "" {
      if IsSpace(text[0]) {
        SpacedExactly(text[1..], s);
      } else {
        if s != "" {
          SpacedExactly(text[1..], s[1..]);
          assert s == [s[0]] + s[1..];
        }
        assert WithoutSpaces(text)[1..] == WithoutSpaces(text[1..]);
      }
    }
  }

  lemma {:induction false} SpacesGo(a: string, s: string)
    requires AllSpace(a)
    ensures WithoutSpaces(a + s) == WithoutSpaces(s)
  {
    if a == "" {
      assert a + s == s;
    } else {
      assert a[0] in a && (a + s)[1..] == a[1..] + s;
      SpacesGo(a[1..], s);
    }
  }

  lemma {:induction false} TrailingSpacesGo(s: string, b: string)
    requires AllSpace(b)
    ensures WithoutSpaces(s + b) == WithoutSpaces(s)
  {
    if s == "" {
      assert s + b == b + "";
      SpacesGo(b, "");
    } else {
      assert (s + b)[1..] == s[1..] + b;
      TrailingSpacesGo(s[1..], b);
    }
  }

  lemma TrimmingFirst(s: string)
    ensures WithoutSpaces(Trim(s)) == WithoutSpaces(s)
  {
    var a, b := TrimCuts(s);
    assert s == a + (Trim(s) + b);
    SpacesGo(a, Trim(s) + b);
    TrailingSpacesGo(Trim(s), b);
  }

  // ---------- reading ----------

  /** n is x to the nearest whole number, halves going up. */
  predicate IsNearest(n: int, x: real) {
    n as real - 0.5 <= x < n as real + 0.5
  }

  predicate Means(text: string, ws: seq<Written>, ms: int) {
    ws != [] && AllWritten(ws) && Spaced(text, SpellAll(ws)) && IsNearest(ms, TotalWorth(ws))
  }

  lemma StartsWithDigit(ws: seq<Written>)
    requires AllWritten(ws) && ws != []
    ensures var s := SpellAll(ws); s != "" && IsDigit(s[0])
  {
    assert SpellAll(ws)[0] == ws[0].digits[0];
  }

  lemma NotBlank(text: string, s: string)
    requires WithoutSpaces(Trim(text)) == s && s != "" && IsDigit(s[0])
    ensures !Blank(text)
  {
    assert SENTINEL[1..] == "" && WithoutSpaces(SENTINEL) == SENTINEL;
  }

  lemma NearestRounds(ms: int, x: real)
    ensures IsNearest(ms, x) <==> Round(x) == ms
  {
  }

  lemma SqueezedIsRead(text: string, s: string, total: real, ms: int)
    requires !Blank(text) && WithoutSpaces(Trim(text)) == s && IsDuration(s)
    requires TotalMs(s) == total && Round(total) == ms
    ensures DurationMs(Some(text)) == Some(ms)
  {
  }

  lemma SpelledIsRead(text: string, ws: seq<Written>, ms: int)
    requires Means(text, ws, ms)
    ensures DurationMs(Some(text)) == Some(ms)
  {
    SpelledReads(ws);
    SpacedExactly(text, SpellAll(ws));
    StartsWithDigit(ws);
    TrimmingFirst(text);
    NotBlank(text, SpellAll(ws));
    NearestRounds(ms, TotalWorth(ws));
    SqueezedIsRead(text, SpellAll(ws), TotalWorth(ws), ms);
  }

  /**
   A text is read as a number of milliseconds exactly if it is one or more parts, with white space anywhere, and the
   number is the nearest to the sum of what they are worth.
   */
  lemma ReadsExactly(text: string, ms: int)
    ensures DurationMs(Some(text)) == Some(ms) <==> exists ws :: Means(text, ws, ms)
    ensures DurationMs(None) == None
  {
    if DurationMs(Some(text)) == Some(ms) {
      TrimmingFirst(text);
      var ws := ReadIsSpelled(WithoutSpaces(text));
      SpelledReads(ws);
      SpacedExactly(text, SpellAll(ws));
      assert Means(text, ws, ms);
    }
    if ws :| Means(text, ws, ms) { SpelledIsRead(text, ws, ms); }
  }

  /** What is printed reads back as the nearest whole number of seconds, halves going up, or one if that is none. */
  lemma PrintedIsNearest(ms: real)
    ensures exists s: nat :: s >= 1 && (IsNearest(s, ms / 1000.0) || (s == 1 && ms < 500.0))
                             && DurationMs(Some(DurationText(ms))) == Some(1000 * s)
  {
    PrintedReadsBack(ms);
  }

  function Count(n: nat, unit: char): string {
    if n == 0 then "" else Decimal(n) + [unit]
  }

  lemma FourTexts(a: string, b: string, c: string, e: string)
    ensures a + (b + (c + (e + ""))) == a + b + c + e
  {
  }

  lemma FourUnits(total: nat, d: nat, h: nat, m: nat, s: nat)
    requires h < 24 && m < 60 && s < 60 && total == ((d * 24 + h) * 60 + m) * 60 + s
    ensures Whole(total, 0) == d && Whole(Left(total, 0), 1) == h
    ensures Whole(Left(Left(total, 0), 1), 2) == m && Left(Left(Left(total, 0), 1), 2) == s
  {
    assert Left(total, 0) == h * 3600 + m * 60 + s;
    assert Left(Left(total, 0), 1) == m * 60 + s;
  }

  lemma TextOfUnits(total: nat)
    ensures TextFrom(total, 0) ==
            PartText(Whole(total, 0), 'd') + (PartText(Whole(Left(total, 0), 1), 'h')
            + (PartText(Whole(Left(Left(total, 0), 1), 2), 'm')
               + (PartText(Left(Left(Left(total, 0), 1), 2), 's') + "")))
  {
    var a := Left(total, 0);
    var b := Left(a, 1);
    var c := Left(b, 2);
    assert TextFrom(c, 3) == PartText(Whole(c, 3), UNITS[3]) + TextFrom(Left(c, 3), 4);
    assert TextFrom(b, 2) == PartText(Whole(b, 2), UNITS[2]) + TextFrom(c, 3);
    assert TextFrom(a, 1) == PartText(Whole(a, 1), UNITS[1]) + TextFrom(b, 2);
  }

  /** Days, hours below 24, minutes and seconds below 60, in this order and without those that are none. */
  lemma PrintedForm(ms: real, d: nat, h: nat, m: nat, s: nat)
    requires h < 24 && m < 60 && s < 60 && PrintedSeconds(ms) == ((d * 24 + h) * 60 + m) * 60 + s
    ensures DurationText(ms) == Count(d, 'd') + Count(h, 'h') + Count(m, 'm') + Count(s, 's')
  {
    FourUnits(PrintedSeconds(ms), d, h, m, s);
    TextOfUnits(PrintedSeconds(ms));
    FourTexts(PartText(d, 'd'), PartText(h, 'h'), PartText(m, 'm'), PartText(s, 's'));
  }
}
