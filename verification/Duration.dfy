/** Durations as text, and the time estimates that are written and read back as durations. */
module Duration {
  import opened Text
  import opened Kanban

  /** `Math.round`: halves go up. */
  function Round(x: real): int {
    (x + 0.5).Floor
  }

  // ---------- printing ----------

  const UNITS := ['d', 'h', 'm', 's']
  const SIZES := [86_400, 3600, 60, 1]

  function Whole(s: nat, k: nat): nat {
    if k == 0 then s / 86_400 else if k == 1 then s / 3600 else if k == 2 then s / 60 else s
  }

  function Left(s: nat, k: nat): nat {
    if k == 0 then s % 86_400 else if k == 1 then s % 3600 else if k == 2 then s % 60 else 0
  }

  lemma TakeUnit(s: nat, k: nat, size: nat)
    requires k < |SIZES| && size == SIZES[k]
    ensures s / size == Whole(s, k) && s - s / size * size == Left(s, k)
  {
  }

  function PartText(n: nat, unit: char): string {
    if n > 0 then Decimal(n) + [unit] else ""
  }

  /** The parts from a unit on, largest unit first, for what the larger units left over. */
  function TextFrom(s: nat, k: nat): string
    requires k <= |UNITS|
    decreases |UNITS| - k
  {
    if k == |UNITS| then "" else PartText(Whole(s, k), UNITS[k]) + TextFrom(Left(s, k), k + 1)
  }

  /** The whole seconds a duration is printed as: at least one. */
  function PrintedSeconds(ms: real): (s: nat)
    ensures s >= 1
  {
    if Round(ms / 1000.0) > 1 then Round(ms / 1000.0) else 1
  }

  function DurationText(ms: real): string {
    TextFrom(PrintedSeconds(ms), 0)
  }

  method TakeUnits(s: nat, k: nat) returns (n: nat, left: nat)
    requires k < |SIZES|
    ensures n == Whole(s, k) && left == Left(s, k)
  {
    n := s / SIZES[k];
    TakeUnit(s, k, SIZES[k]);
    left := s - n * SIZES[k];
  }

  lemma ConcatAssociates(a: string, b: string, c: string)
    ensures a + (b + c) == (a + b) + c && a + "" == a
  {
  }

  lemma AddPart(text: string, s: nat, k: nat)
    requires k < |UNITS|
    ensures text + TextFrom(s, k) == (text + PartText(Whole(s, k), UNITS[k])) + TextFrom(Left(s, k), k + 1)
    ensures text + "" == text
  {
  }

  method ToDurationText(ms: real) returns (text: string)
    ensures text == DurationText(ms)
  {
    var s: nat := PrintedSeconds(ms);
    ghost var target := TextFrom(s, 0);
    text := "";
    var k := 0;
    while k < |UNITS|
      invariant 0 <= k <= |UNITS|
      invariant text + TextFrom(s, k) == target
    {
      AddPart(text, s, k);
      var n, left := TakeUnits(s, k);
      if n > 0 { text := text + PartText(n, UNITS[k]); }
      s := left;
      k := k + 1;
    }
  }

  // ---------- reading ----------

  /** `s.replace(/\s+/g, "")`. */
  function WithoutSpaces(s: string): string {
    if s == "" then "" else (if IsSpace(s[0]) then "" else [s[0]]) + WithoutSpaces(s[1..])
  }

  function DigitRun(s: string): (n: nat)
    ensures n <= |s| && AllDigits(s[..n]) && (n < |s| ==> !IsDigit(s[n]))
  {
    if s == "" || !IsDigit(s[0]) then 0
    else
      var n := DigitRun(s[1..]);
      assert s[1..][..n] == s[1..n + 1];
      1 + n
  }

  predicate IsUnit(c: char) {
    c in "smhdSMHD"
  }

  function InMs(value: real, unit: char): real {
    if unit in "sS" then value * 1000.0
    else if unit in "mM" then value * 60_000.0
    else if unit in "hH" then value * 3_600_000.0
    else value * 86_400_000.0
  }

  /** The value of the digits after a decimal point. */
  function Fraction(s: string): real
    requires AllDigits(s)
  {
    if s == "" then 0.0 else ((s[0] as int - '0' as int) as real + Fraction(s[1..])) / 10.0
  }

  /** The number with the decimal point moved n places to the right. */
  function Shifted(x: real, n: nat): real {
    if n == 0 then x else 10.0 * Shifted(x, n - 1)
  }

  lemma {:induction false} ShiftedSum(x: real, y: real, n: nat)
    ensures Shifted(x + y, n) == Shifted(x, n) + Shifted(y, n)
  {
    if n > 0 { ShiftedSum(x, y, n - 1); }
  }

  lemma {:induction false} ShiftedTenth(x: real, n: nat)
    ensures Shifted(x / 10.0, n + 1) == Shifted(x, n)
  {
    if n > 0 { ShiftedTenth(x, n - 1); }
  }

  function DigitAt(s: string, k: nat): real
    requires AllDigits(s) && k < |s|
  {
    (s[k] as int - '0' as int) as real
  }

  lemma {:induction false} FirstDigit(s: string)
    requires s != "" && AllDigits(s)
    ensures DigitsValue(s) as real == Shifted(DigitAt(s, 0), |s| - 1) + DigitsValue(s[1..]) as real
  {
    var init := s[..|s| - 1];
    if init == "" {
      assert s[1..] == "";
    } else {
      FirstDigit(init);
      assert s[1..][..|s[1..]| - 1] == init[1..];
    }
  }

  /** The digits after a point are worth their number, the point moved before them. */
  lemma {:induction false} FractionIsDecimal(s: string)
    requires AllDigits(s)
    ensures Shifted(Fraction(s), |s|) == DigitsValue(s) as real
  {
    if s != "" {
      var rest := s[1..];
      FractionIsDecimal(rest);
      FirstDigit(s);
      ShiftedTenth(DigitAt(s, 0) + Fraction(rest), |rest|);
      ShiftedSum(DigitAt(s, 0), Fraction(rest), |rest|);
    }
  }

  datatype Part = Part(ms: real, rest: string)

  /** One `\d+(\.\d+)?[smhd]` at the front of the text. */
  function ReadPart(s: string): (p: Option<Part>)
    ensures p.Some? ==> |p.value.rest| < |s|
  {
    var n := DigitRun(s);
    if n == 0 then None else ReadUnit(DigitsValue(s[..n]) as real, s[n..])
  }

  function ReadUnit(whole: real, tail: string): (p: Option<Part>)
    ensures p.Some? ==> |p.value.rest| < |tail|
  {
    if tail == "" then None
    else if IsUnit(tail[0]) then Some(Part(InMs(whole, tail[0]), tail[1..]))
    else if tail[0] != '.' then None
    else
      var m := DigitRun(tail[1..]);
      var after := tail[1..][m..];
      if m == 0 || after == "" || !IsUnit(after[0]) then None
      else Some(Part(InMs(whole + Fraction(tail[1..][..m]), after[0]), after[1..]))
  }

  /** DURATION_RE: one or more parts and nothing else. */
  predicate IsDuration(s: string)
    decreases |s|
  {
    ReadPart(s).Some? && (ReadPart(s).value.rest == "" || IsDuration(ReadPart(s).value.rest))
  }

  function TotalMs(s: string): real
    requires s == "" || IsDuration(s)
    decreases |s|
  {
    if s == "" then 0.0 else ReadPart(s).value.ms + TotalMs(ReadPart(s).value.rest)
  }

  /** The milliseconds a duration text stands for, if it is one. */
  function DurationMs(value: Option<string>): Option<int> {
    if value.None? || Blank(value.value) then None
    else
      var text := WithoutSpaces(Trim(value.value));
      if IsDuration(text) then Some(Round(TotalMs(text))) else None
  }

  method ParseDuration(value: Option<string>) returns (ms: Option<int>)
    ensures ms == DurationMs(value)
  {
    if value.None? || Blank(value.value) { return None; }
    var text := WithoutSpaces(Trim(value.value));
    if !IsDuration(text) { return None; }
    var total := 0.0;
    var rest := text;
    while rest != ""
      invariant rest == "" || IsDuration(rest)
      invariant total + TotalMs(rest) == TotalMs(text)
      decreases |rest|
    {
      var part := ReadPart(rest).value;
      total := total + part.ms;
      rest := part.rest;
    }
    ms := Some(Round(total));
  }

  /** A point, digits and a unit after a whole number: whole plus fraction, in the milliseconds of the unit. */
  lemma ReadUnitDecimal(whole: real, fraction: string, unit: char, rest: string, tail: string)
    requires fraction != "" && AllDigits(fraction) && IsUnit(unit) && tail == ['.'] + (fraction + ([unit] + rest))
    ensures ReadUnit(whole, tail) == Some(Part(InMs(whole + Fraction(fraction), unit), rest))
  {
    assert tail[1..] == fraction + ([unit] + rest);
    DigitRunOf(fraction, [unit] + rest);
    assert tail[1..][..|fraction|] == fraction && tail[1..][|fraction|..] == [unit] + rest;
    assert ([unit] + rest)[1..] == rest;
  }

  // ---------- what is printed is read back ----------

  lemma {:induction false} DigitRunOf(digits: string, rest: string)
    requires AllDigits(digits) && rest != "" && !IsDigit(rest[0])
    ensures DigitRun(digits + rest) == |digits|
  {
    if digits == "" {
      assert digits + rest == rest;
    } else {
      assert (digits + rest)[1..] == digits[1..] + rest;
      DigitRunOf(digits[1..], rest);
    }
  }

  /** Digits are read as far as they go. */
  lemma ReadDigits(digits: string, tail: string)
    requires digits != "" && AllDigits(digits) && tail != "" && !IsDigit(tail[0])
    ensures ReadPart(digits + tail) == ReadUnit(DigitsValue(digits) as real, tail)
  {
    DigitRunOf(digits, tail);
    assert (digits + tail)[..|digits|] == digits && (digits + tail)[|digits|..] == tail;
  }

  lemma ReadUnitPlain(whole: real, unit: char, rest: string)
    requires unit in UNITS
    ensures ReadUnit(whole, [unit] + rest) == Some(Part(InMs(whole, unit), rest))
  {
    assert ([unit] + rest)[1..] == rest;
  }

  lemma ReadPrintedPart(n: nat, unit: char, rest: string)
    requires unit in UNITS
    ensures ReadPart(Decimal(n) + [unit] + rest) == Some(Part(InMs(n as real, unit), rest))
  {
    ConcatAssociates(Decimal(n), [unit], rest);
    DecimalValue(n);
    ReadDigits(Decimal(n), [unit] + rest);
    ReadUnitPlain(n as real, unit, rest);
  }

  lemma UnitsAddUp(s: nat, k: nat)
    requires k < |UNITS|
    ensures InMs(Whole(s, k) as real, UNITS[k]) + 1000.0 * Left(s, k) as real == 1000.0 * s as real
    ensures Whole(s, k) <= s && (Whole(s, k) == 0 ==> Left(s, k) == s)
  {
  }

  predicate ReadsAs(text: string, s: nat) {
    if s == 0 then text == "" else IsDuration(text) && TotalMs(text) == 1000.0 * s as real
  }

  lemma ReadsAsCons(text: string, part: Part, left: nat, s: nat)
    requires ReadPart(text) == Some(part) && ReadsAs(part.rest, left)
    requires s > 0 && part.ms + 1000.0 * left as real == 1000.0 * s as real
    ensures ReadsAs(text, s)
  {
  }

  lemma PartThenRest(n: nat, unit: char, rest: string, left: nat, s: nat)
    requires unit in UNITS && ReadsAs(rest, left) && n <= s && (n == 0 ==> left == s)
    requires InMs(n as real, unit) + 1000.0 * left as real == 1000.0 * s as real
    ensures ReadsAs(PartText(n, unit) + rest, s)
  {
    if n > 0 {
      ReadPrintedPart(n, unit, rest);
      ReadsAsCons(PartText(n, unit) + rest, Part(InMs(n as real, unit), rest), left, s);
    } else {
      assert PartText(n, unit) + rest == rest;
    }
  }

  lemma UnitThenRest(s: nat, k: nat, text: string, rest: string)
    requires k < |UNITS| && text == PartText(Whole(s, k), UNITS[k]) + rest && ReadsAs(rest, Left(s, k))
    ensures ReadsAs(text, s)
  {
    UnitsAddUp(s, k);
    PartThenRest(Whole(s, k), UNITS[k], rest, Left(s, k), s);
  }

  lemma {:induction false} ReadsBack(s: nat, k: nat)
    requires k <= |UNITS| && (k == |UNITS| ==> s == 0)
    ensures ReadsAs(TextFrom(s, k), s)
    decreases |UNITS| - k
  {
    if k < |UNITS| {
      ReadsBack(Left(s, k), k + 1);
      UnitThenRest(s, k, TextFrom(s, k), TextFrom(Left(s, k), k + 1));
    }
  }

  predicate Plain(s: string) {
    forall c :: c in s ==> IsDigit(c) || c in UNITS
  }

  lemma {:induction false} PrintedIsPlain(s: nat, k: nat)
    requires k <= |UNITS|
    ensures Plain(TextFrom(s, k))
    decreases |UNITS| - k
  {
    if k < |UNITS| {
      PrintedIsPlain(Left(s, k), k + 1);
      assert forall c :: c in Decimal(Whole(s, k)) ==> IsDigit(c);
    }
  }

  lemma {:induction false} PlainHasNoSpaces(s: string)
    requires Plain(s)
    ensures WithoutSpaces(s) == s
  {
    if s != "" {
      assert s[0] in s && Plain(s[1..]);
      PlainHasNoSpaces(s[1..]);
    }
  }

  lemma PlainTrimmed(s: string)
    requires Plain(s)
    ensures Trim(s) == s
  {
    if s != "" {
      assert s[0] in s && s[|s| - 1] in s;
    }
    TrimPlain(s);
  }

  lemma StripsToItself(text: string)
    requires Plain(text) && text != ""
    ensures !Blank(text) && WithoutSpaces(Trim(text)) == text
  {
    PlainTrimmed(text);
    PlainHasNoSpaces(text);
    assert text[0] in text;
  }

  lemma RoundThousand(total: real, s: nat)
    requires total == 1000.0 * s as real
    ensures Round(total) == 1000 * s
  {
  }

  lemma PlainIsRead(text: string, s: nat, total: real)
    requires !Blank(text) && WithoutSpaces(Trim(text)) == text
    requires IsDuration(text) && total == TotalMs(text) && Round(total) == 1000 * s
    ensures DurationMs(Some(text)) == Some(1000 * s)
  {
  }

  /** Printing a duration and reading it gives its whole seconds, at least one, for every number. */
  lemma PrintedReadsBack(ms: real)
    ensures DurationMs(Some(DurationText(ms))) == Some(1000 * PrintedSeconds(ms))
  {
    var s := PrintedSeconds(ms);
    ReadsBack(s, 0);
    PrintedIsPlain(s, 0);
    var text := DurationText(ms);
    StripsToItself(text);
    RoundThousand(TotalMs(text), s);
    PlainIsRead(text, s, TotalMs(text));
  }

  lemma PrintedWhole(ms: int)
    ensures 1000 * PrintedSeconds(ms as real) == ms <==> ms >= 1000 && ms % 1000 == 0
  {
  }

  /** The number is the same after it was written and read back. */
  predicate Survives(ms: int) {
    DurationMs(Some(DurationText(ms as real))) == Some(ms)
  }

  /** Exactly the whole numbers of seconds, from one on, survive. */
  lemma SurvivesExactly(ms: int)
    ensures Survives(ms) <==> ms >= 1000 && ms % 1000 == 0
  {
    PrintedReadsBack(ms as real);
    PrintedWhole(ms);
  }

  // ---------- estimates ----------

  function EstimateMs(plannedMs: real, factor: real): (ms: int)
    ensures ms % 1000 == 0
  {
    Round(plannedMs * factor / 1000.0) * 1000
  }

  /** An estimate is the whole number of seconds nearest to planned times factor. */
  lemma EstimateIsNearest(plannedMs: real, factor: real, product: real)
    requires product == plannedMs * factor
    ensures var ms := EstimateMs(plannedMs, factor) as real; ms - 500.0 <= product < ms + 500.0
  {
  }

  /** An estimate survives being written and read back exactly when it is at least a second. */
  lemma EstimateSurvives(plannedMs: real, factor: real)
    ensures Survives(EstimateMs(plannedMs, factor)) <==> EstimateMs(plannedMs, factor) >= 1000
  {
    SurvivesExactly(EstimateMs(plannedMs, factor));
  }

  const MIN_SAMPLES := 3
  const MIN_FACTOR := 0.25
  const MAX_FACTOR := 4.0

  datatype Sample = Sample(plannedMs: real, actualMs: real)

  function Ratios(samples: seq<Sample>): seq<real> {
    if samples == [] then []
    else
      var s := samples[0];
      (if s.plannedMs > 0.0 && s.actualMs > 0.0 then [s.actualMs / s.plannedMs] else []) + Ratios(samples[1..])
  }

  predicate Ascending(s: seq<real>) {
    forall i, j :: 0 <= i < j < |s| ==> s[i] <= s[j]
  }

  function Insert(x: real, s: seq<real>): (out: seq<real>)
    ensures |out| == |s| + 1
  {
    if s == [] || x <= s[0] then [x] + s else [s[0]] + Insert(x, s[1..])
  }

  function Sort(s: seq<real>): (out: seq<real>)
    ensures |out| == |s|
  {
    if s == [] then [] else Insert(s[0], Sort(s[1..]))
  }

  function Median(sorted: seq<real>): real
    requires sorted != []
  {
    var mid := |sorted| / 2;
    if |sorted| % 2 == 1 then sorted[mid] else (sorted[mid - 1] + sorted[mid]) / 2.0
  }

  function CalibrationFactor(samples: seq<Sample>): (f: real)
    ensures MIN_FACTOR <= f <= MAX_FACTOR
  {
    var ratios := Sort(Ratios(samples));
    if |ratios| < MIN_SAMPLES then 1.0
    else
      var median := Median(ratios);
      var low := if median > MIN_FACTOR then median else MIN_FACTOR;
      if low < MAX_FACTOR then low else MAX_FACTOR
  }

  function CountAtMost(s: seq<real>, x: real): nat {
    if s == [] then 0 else (if s[0] <= x then 1 else 0) + CountAtMost(s[1..], x)
  }

  function CountAtLeast(s: seq<real>, x: real): nat {
    if s == [] then 0 else (if s[0] >= x then 1 else 0) + CountAtLeast(s[1..], x)
  }

  lemma {:induction false} InsertCounts(x: real, s: seq<real>, y: real)
    ensures CountAtMost(Insert(x, s), y) == (if x <= y then 1 else 0) + CountAtMost(s, y)
    ensures CountAtLeast(Insert(x, s), y) == (if x >= y then 1 else 0) + CountAtLeast(s, y)
  {
    assert ([x] + s)[1..] == s;
    if s != [] && x > s[0] {
      InsertCounts(x, s[1..], y);
      assert ([s[0]] + Insert(x, s[1..]))[1..] == Insert(x, s[1..]);
    }
  }

  lemma {:induction false} InsertElements(x: real, s: seq<real>)
    ensures forall y :: y in Insert(x, s) ==> y == x || y in s
  {
    if s != [] && x > s[0] {
      InsertElements(x, s[1..]);
    }
  }

  lemma {:induction false} InsertAscending(x: real, s: seq<real>)
    requires Ascending(s)
    ensures Ascending(Insert(x, s))
  {
    if s != [] && x > s[0] {
      InsertAscending(x, s[1..]);
      InsertElements(x, s[1..]);
      var rest := Insert(x, s[1..]);
      forall k | 0 <= k < |rest|
        ensures s[0] <= rest[k]
      {
        assert rest[k] in rest;
      }
      AscendingCons(s[0], rest);
    }
  }

  lemma AscendingCons(x: real, s: seq<real>)
    requires Ascending(s) && forall k :: 0 <= k < |s| ==> x <= s[k]
    ensures Ascending([x] + s)
  {
  }

  /** Sorting puts the same numbers in order. */
  lemma {:induction false} SortKeeps(s: seq<real>)
    ensures Ascending(Sort(s))
    ensures forall y :: CountAtMost(Sort(s), y) == CountAtMost(s, y) && CountAtLeast(Sort(s), y) == CountAtLeast(s, y)
  {
    if s != [] {
      SortKeeps(s[1..]);
      InsertAscending(s[0], Sort(s[1..]));
      forall y
        ensures CountAtMost(Sort(s), y) == CountAtMost(s, y) && CountAtLeast(Sort(s), y) == CountAtLeast(s, y)
      {
        InsertCounts(s[0], Sort(s[1..]), y);
      }
    }
  }

  lemma {:induction false} CountBelow(s: seq<real>, x: real, n: nat)
    requires n <= |s| && forall k :: 0 <= k < n ==> s[k] <= x
    ensures CountAtMost(s, x) >= n
  {
    if n > 0 { CountBelow(s[1..], x, n - 1); }
  }

  lemma {:induction false} CountAbove(s: seq<real>, x: real, n: nat)
    requires n <= |s| && forall k :: n <= k < |s| ==> s[k] >= x
    ensures CountAtLeast(s, x) >= |s| - n
  {
    if s != [] { CountAbove(s[1..], x, if n > 0 then n - 1 else 0); }
  }

  /** x is the k-th smallest of the numbers, from 0: at most k are smaller, and more than k are no larger. */
  predicate IsNth(x: real, s: seq<real>, k: nat) {
    |s| - CountAtLeast(s, x) <= k < CountAtMost(s, x)
  }

  lemma {:induction false} CountsApart(s: seq<real>, x: real, y: real)
    requires x < y
    ensures CountAtMost(s, x) + CountAtLeast(s, y) <= |s|
  {
    if s != [] { CountsApart(s[1..], x, y); }
  }

  /** There is only one k-th smallest number. */
  lemma NthIsUnique(s: seq<real>, k: nat, x: real, y: real)
    requires IsNth(x, s, k) && IsNth(y, s, k)
    ensures x == y
  {
    if x < y {
      CountsApart(s, x, y);
    } else if y < x {
      CountsApart(s, y, x);
    }
  }

  lemma SortedNth(s: seq<real>, k: nat)
    requires k < |s|
    ensures IsNth(Sort(s)[k], s, k)
  {
    SortKeeps(s);
    CountBelow(Sort(s), Sort(s)[k], k + 1);
    CountAbove(Sort(s), Sort(s)[k], k);
  }

  lemma NthOfSorted(s: seq<real>, k: nat, x: real)
    requires k < |s| && IsNth(x, s, k)
    ensures Sort(s)[k] == x
  {
    SortedNth(s, k);
    NthIsUnique(s, k, x, Sort(s)[k]);
  }

  lemma MedianIsMean(sorted: seq<real>, low: real, high: real)
    requires sorted != [] && sorted[(|sorted| - 1) / 2] == low && sorted[|sorted| / 2] == high
    ensures Median(sorted) == (low + high) / 2.0
  {
  }

  lemma {:induction false} RatiosConcat(a: seq<Sample>, b: seq<Sample>)
    ensures Ratios(a + b) == Ratios(a) + Ratios(b)
  {
    if a == [] {
      assert a + b == b;
    } else {
      assert (a + b)[1..] == a[1..] + b;
      RatiosConcat(a[1..], b);
    }
  }

  /** The ratios are those of the tasks with both times, in their order. */
  lemma RatiosInOrder(samples: seq<Sample>, s: Sample)
    ensures Ratios([]) == []
    ensures Ratios(samples + [s]) ==
            Ratios(samples) + if s.plannedMs > 0.0 && s.actualMs > 0.0 then [s.actualMs / s.plannedMs] else []
  {
    RatiosConcat(samples, [s]);
    assert [s][1..] == [];
  }

  /**
   With fewer than three ratios the factor is 1. Otherwise it is the mean of the two middle ones, which are the same
   one when their number is odd, but not below a quarter and not above four.
   */
  lemma FactorIsAMedian(samples: seq<Sample>, low: real, high: real)
    ensures |Ratios(samples)| < 3 ==> CalibrationFactor(samples) == 1.0
    ensures var ratios, middle := Ratios(samples), (low + high) / 2.0;
            |ratios| >= 3 && IsNth(low, ratios, (|ratios| - 1) / 2) && IsNth(high, ratios, |ratios| / 2) ==>
              CalibrationFactor(samples) == if middle < 0.25 then 0.25 else if middle > 4.0 then 4.0 else middle
  {
    var ratios := Ratios(samples);
    if |ratios| >= MIN_SAMPLES && IsNth(low, ratios, (|ratios| - 1) / 2) && IsNth(high, ratios, |ratios| / 2) {
      NthOfSorted(ratios, (|ratios| - 1) / 2, low);
      NthOfSorted(ratios, |ratios| / 2, high);
      MedianIsMean(Sort(ratios), low, high);
    }
  }
}
