/** Separator-based splitting and joining, and the Option type the other modules share. */
module Text {

  datatype Option<+T> = None | Some(value: T) {
    function GetOr(default: T): T {
      if Some? then value else default
    }
  }

  // ---------- sequences ----------

  function InsertAt<T>(s: seq<T>, at: nat, x: T): (out: seq<T>)
    requires at <= |s|
    ensures |out| == |s| + 1 && out[at] == x
    ensures forall k :: 0 <= k < at ==> out[k] == s[k]
    ensures forall k :: at < k < |out| ==> out[k] == s[k - 1]
  {
    s[..at] + [x] + s[at..]
  }

  function RemoveAt<T>(s: seq<T>, at: nat): seq<T>
    requires at < |s|
  {
    s[..at] + s[at + 1..]
  }

  lemma UpdateIsConcat<T>(s: seq<T>, i: nat, x: T)
    requires i < |s|
    ensures s[i := x] == s[..i] + [x] + s[i + 1..]
  {
  }

  /** `s.map(f)`. */
  function Map<A, B>(s: seq<A>, f: A -> B): (out: seq<B>)
    ensures |out| == |s|
  {
    if s == [] then [] else [f(s[0])] + Map(s[1..], f)
  }

  lemma {:induction false} MapAt<A, B>(s: seq<A>, f: A -> B, k: nat)
    requires k < |s|
    ensures Map(s, f)[k] == f(s[k])
  {
    if k > 0 { MapAt(s[1..], f, k - 1); }
  }

  lemma {:induction false} MapConcat<A, B>(a: seq<A>, b: seq<A>, f: A -> B)
    ensures Map(a + b, f) == Map(a, f) + Map(b, f)
  {
    if a == [] {
      assert a + b == b;
    } else {
      assert (a + b)[1..] == a[1..] + b;
      MapConcat(a[1..], b, f);
    }
  }

  lemma ConcatSlices<T>(a: seq<T>, b: seq<T>)
    ensures (a + b)[..|a|] == a && (a + b)[|a|..] == b
  {
  }

  lemma SlicesConcat<T>(s: seq<T>, i: nat)
    requires i <= |s|
    ensures s[..i] + s[i..] == s
  {
  }

  lemma MapSlice<A, B>(s: seq<A>, f: A -> B, i: nat)
    requires i <= |s|
    ensures Map(s[..i], f) == Map(s, f)[..i] && Map(s[i..], f) == Map(s, f)[i..]
  {
    SlicesConcat(s, i);
    MapConcat(s[..i], s[i..], f);
    ConcatSlices(Map(s[..i], f), Map(s[i..], f));
  }

  lemma MapInsert<A, B>(s: seq<A>, f: A -> B, at: nat, x: A)
    requires at <= |s|
    ensures Map(InsertAt(s, at, x), f) == InsertAt(Map(s, f), at, f(x))
  {
    MapSlice(s, f, at);
    assert Map([x], f) == [f(x)];
    MapConcat(s[..at], [x], f);
    MapConcat(s[..at] + [x], s[at..], f);
  }

  lemma MapRemove<A, B>(s: seq<A>, f: A -> B, i: nat)
    requires i < |s|
    ensures Map(RemoveAt(s, i), f) == RemoveAt(Map(s, f), i)
  {
    MapSlice(s, f, i);
    MapSlice(s, f, i + 1);
    MapConcat(s[..i], s[i + 1..], f);
  }

  lemma MapUpdate<A, B>(s: seq<A>, f: A -> B, i: nat, x: A)
    requires i < |s|
    ensures Map(s[i := x], f) == Map(s, f)[i := f(x)]
  {
    MapSlice(s, f, i);
    MapSlice(s, f, i + 1);
    assert Map([x], f) == [f(x)];
    MapConcat(s[..i], [x], f);
    MapConcat(s[..i] + [x], s[i + 1..], f);
    UpdateIsConcat(s, i, x);
    UpdateIsConcat(Map(s, f), i, f(x));
  }

  // ---------- white space ----------

  /** WhiteSpace and LineTerminator of ECMA-262, which `trim` and `\\s` share. */
  predicate IsSpace(c: char) {
    || '\t' <= c <= '\r'
    || c == ' ' || c == '\U{A0}' || c == '\U{1680}' || '\U{2000}' <= c <= '\U{200A}'
    || c == '\U{2028}' || c == '\U{2029}' || c == '\U{202F}' || c == '\U{205F}' || c == '\U{3000}' || c == '\U{FEFF}'
  }

  /** Their code points, as sections 12.2 and 12.3 of ECMA-262 list them. */
  lemma SpacesListed(c: char)
    ensures IsSpace(c) <==> c as int in {
      0x9, 0xA, 0xB, 0xC, 0xD, 0x20, 0xA0, 0x1680, 0x2000, 0x2001, 0x2002, 0x2003, 0x2004, 0x2005, 0x2006, 0x2007,
      0x2008, 0x2009, 0x200A, 0x2028, 0x2029, 0x202F, 0x205F, 0x3000, 0xFEFF
    }
  {
  }

  /** LineTerminator of section 12.3 of ECMA-262: the characters `.` refuses without the s flag. */
  predicate IsLineTerminator(c: char) {
    c in "\n\r\U{2028}\U{2029}"
  }

  predicate OneLine(s: string) {
    forall k :: 0 <= k < |s| ==> !IsLineTerminator(s[k])
  }

  function TrimStart(s: string): (t: string)
    ensures |t| <= |s|
    ensures t != "" ==> !IsSpace(t[0])
  {
    if s != "" && IsSpace(s[0]) then TrimStart(s[1..]) else s
  }

  function TrimEnd(s: string): (t: string)
    ensures t <= s
    ensures t != "" ==> !IsSpace(t[|t| - 1])
  {
    if s != "" && IsSpace(s[|s| - 1]) then TrimEnd(s[..|s| - 1]) else s
  }

  function Trim(s: string): (t: string) {
    TrimEnd(TrimStart(s))
  }

  lemma TrimPlain(s: string)
    requires s == "" || (!IsSpace(s[0]) && !IsSpace(s[|s| - 1]))
    ensures Trim(s) == s
  {
  }

  /** Not empty and trimmed: no white space at either end. */
  predicate Solid(p: string) {
    p != "" && !IsSpace(p[0]) && !IsSpace(p[|p| - 1])
  }

  lemma {:induction false} TrimEndHead(s: string)
    requires s != "" && !IsSpace(s[0])
    ensures TrimEnd(s) != "" && TrimEnd(s)[0] == s[0]
  {
    if IsSpace(s[|s| - 1]) {
      TrimEndHead(s[..|s| - 1]);
    }
  }

  lemma TrimTwice(s: string)
    ensures Trim(Trim(s)) == Trim(s)
  {
    var t := TrimStart(s);
    if t != "" {
      TrimEndHead(t);
      TrimPlain(Trim(s));
    }
  }

  lemma TrimEnds(s: string)
    requires s != "" && Trim(s) == s
    ensures Solid(s)
  {
    var t := TrimStart(s);
    assert |TrimEnd(t)| <= |t| <= |s|;
    assert t == s by { TrimStartSuffix(s); }
  }

  lemma {:induction false} TrimStartSuffix(s: string)
    ensures |TrimStart(s)| == |s| ==> TrimStart(s) == s
  {
  }

  lemma {:induction false} TrimStartChars(s: string)
    ensures forall c :: c in TrimStart(s) ==> c in s
  {
    if s != "" && IsSpace(s[0]) { TrimStartChars(s[1..]); }
  }

  lemma TrimChars(s: string)
    ensures forall c :: c in Trim(s) ==> c in s
  {
    TrimStartChars(s);
  }

  predicate AllSpace(s: string) {
    forall c :: c in s ==> IsSpace(c)
  }

  lemma {:induction false} TrimStartCut(s: string)
    ensures var n := |s| - |TrimStart(s)|; s[n..] == TrimStart(s) && AllSpace(s[..n])
  {
    if s != "" && IsSpace(s[0]) {
      TrimStartCut(s[1..]);
      var n := |s| - |TrimStart(s)|;
      assert s[..n] == [s[0]] + s[1..][..n - 1] && s[n..] == s[1..][n - 1..];
    }
  }

  lemma {:induction false} TrimEndCut(s: string)
    ensures s == TrimEnd(s) + s[|TrimEnd(s)|..] && AllSpace(s[|TrimEnd(s)|..])
  {
    if s != "" && IsSpace(s[|s| - 1]) {
      var init := s[..|s| - 1];
      TrimEndCut(init);
      assert s[|TrimEnd(s)|..] == init[|TrimEnd(s)|..] + [s[|s| - 1]];
    }
  }

  /** `trim` takes white space off both ends and nothing else. */
  lemma TrimCuts(s: string) returns (a: string, b: string)
    ensures s == a + Trim(s) + b && AllSpace(a) && AllSpace(b) && (Trim(s) == "" || Solid(Trim(s)))
  {
    TrimStartCut(s);
    var t := TrimStart(s);
    a := s[..|s| - |t|];
    b := t[|TrimEnd(t)|..];
    TrimEndCut(t);
    if t != "" { TrimEndHead(t); }
  }

  lemma {:induction false} TrimStartOff(lead: string, s: string)
    requires AllSpace(lead) && (s == "" || !IsSpace(s[0]))
    ensures TrimStart(lead + s) == s
  {
    if lead == "" {
      assert lead + s == s;
    } else {
      assert lead[0] in lead && (lead + s)[1..] == lead[1..] + s;
      TrimStartOff(lead[1..], s);
    }
  }

  lemma {:induction false} TrimEndOff(s: string, tail: string)
    requires AllSpace(tail) && (s == "" || !IsSpace(s[|s| - 1]))
    ensures TrimEnd(s + tail) == s
  {
    if tail == "" {
      assert s + tail == s;
    } else {
      var init := tail[..|tail| - 1];
      assert tail[|tail| - 1] in tail && (s + tail)[..|s + tail| - 1] == s + init;
      TrimEndOff(s, init);
    }
  }

  lemma TrimOff(lead: string, s: string, tail: string)
    requires AllSpace(lead) && AllSpace(tail) && Solid(s)
    ensures Trim(lead + (s + tail)) == s
  {
    TrimStartOff(lead, s + tail);
    TrimEndOff(s, tail);
  }

  lemma BlankIsSpace(s: string)
    ensures Trim(s) == "" <==> AllSpace(s)
  {
    var a, b := TrimCuts(s);
    if Trim(s) == "" {
      assert s == a + b;
    } else {
      assert Trim(s)[0] == s[|a|] && s[|a|] in s;
    }
  }

  /** Lower case of an ASCII letter. */
  function LowerChar(c: char): char {
    if 'A' <= c <= 'Z' then (c as int - 'A' as int + 'a' as int) as char else c
  }

  const CAPITALS := "ABCDEFGHIJKLMNOPQRSTUVWXYZ"
  const SMALL := "abcdefghijklmnopqrstuvwxyz"

  /** Each capital has its small letter; every other character is its own. */
  lemma LowerLetters(c: char)
    ensures forall k :: 0 <= k < 26 ==> LowerChar(CAPITALS[k]) == SMALL[k]
    ensures c !in CAPITALS ==> LowerChar(c) == c
  {
    assert forall k :: 0 <= k < 26 ==> CAPITALS[k] == ('A' as int + k) as char && SMALL[k] == ('a' as int + k) as char;
    if LowerChar(c) != c {
      assert CAPITALS[c as int - 'A' as int] == c;
    }
  }

  predicate IsDigit(c: char) {
    '0' <= c <= '9'
  }

  predicate AllDigits(s: string) {
    forall k :: 0 <= k < |s| ==> IsDigit(s[k])
  }

  /** The value of a run of decimal digits. */
  function DigitsValue(s: string): (n: nat)
    requires AllDigits(s)
  {
    if s == "" then 0 else 10 * DigitsValue(s[..|s| - 1]) + (s[|s| - 1] as int - '0' as int)
  }

  function DigitChar(d: nat): char
    requires d < 10
  {
    ('0' as int + d) as char
  }

  /** `String(n)` for a natural number. */
  function Decimal(n: nat): (s: string)
    ensures s != "" && AllDigits(s)
  {
    if n < 10 then [DigitChar(n)] else Decimal(n / 10) + [DigitChar(n % 10)]
  }

  /** Reading a printed number gives the number back. */
  lemma {:induction false} DecimalValue(n: nat)
    ensures DigitsValue(Decimal(n)) == n
  {
    var s := Decimal(n);
    if n < 10 {
      assert s[..0] == "";
    } else {
      DecimalValue(n / 10);
      assert s[..|s| - 1] == Decimal(n / 10);
    }
  }

  // ---------- splitting and joining ----------

  /** `parts.join(sep)` for a one-character separator. */
  function Join(parts: seq<string>, sep: char): (s: string)
  {
    if |parts| == 0 then ""
    else if |parts| == 1 then parts[0]
    else parts[0] + [sep] + Join(parts[1..], sep)
  }

  /** `s.split(sep)` for a one-character separator. */
  function Split(s: string, sep: char): (parts: seq<string>)
    ensures |parts| >= 1
    ensures forall k :: 0 <= k < |parts| ==> sep !in parts[k]
  {
    if s == "" then [""]
    else
      var rest := Split(s[1..], sep);
      if s[0] == sep then [""] + rest else [[s[0]] + rest[0]] + rest[1..]
  }

  /** Gluing text onto the first part glues it onto the joined text. */
  lemma JoinPrefix(pre: string, parts: seq<string>, sep: char)
    requires |parts| >= 1
    ensures Join([pre + parts[0]] + parts[1..], sep) == pre + Join(parts, sep)
  {
    var glued := [pre + parts[0]] + parts[1..];
    if |parts| > 1 {
      assert glued[1..] == parts[1..];
    }
  }

  lemma {:induction false} JoinSplit(s: string, sep: char)
    ensures Join(Split(s, sep), sep) == s
  {
    if s != "" {
      JoinSplit(s[1..], sep);
      var rest := Split(s[1..], sep);
      if s[0] == sep {
        assert ([""] + rest)[1..] == rest;
      } else {
        JoinPrefix([s[0]], rest, sep);
      }
    }
  }

  /** The parts of a concatenation: the last part of the left meets the first part of the right. */
  function Glue(x: seq<string>, y: seq<string>): (z: seq<string>)
    requires |x| >= 1 && |y| >= 1
    ensures |z| == |x| + |y| - 1
  {
    x[..|x| - 1] + [x[|x| - 1] + y[0]] + y[1..]
  }

  lemma GlueCons(head: string, x: seq<string>, y: seq<string>)
    requires |x| >= 1 && |y| >= 1
    ensures Glue([head] + x, y) == [head] + Glue(x, y)
  {
    assert ([head] + x)[..|x|] == [head] + x[..|x| - 1];
  }

  lemma GluePrefix(pre: string, x: seq<string>, y: seq<string>)
    requires |x| >= 1 && |y| >= 1
    ensures Glue([pre + x[0]] + x[1..], y) == [pre + Glue(x, y)[0]] + Glue(x, y)[1..]
  {
    if |x| == 1 {
      assert [pre + x[0]] + x[1..] == [pre + x[0]];
      assert Glue(x, y) == [x[0] + y[0]] + y[1..];
      assert (pre + x[0]) + y[0] == pre + (x[0] + y[0]);
    } else {
      assert x == [x[0]] + x[1..];
      GlueCons(x[0], x[1..], y);
      GlueCons(pre + x[0], x[1..], y);
    }
  }

  lemma {:induction false} SplitConcat(a: string, b: string, sep: char)
    ensures Split(a + b, sep) == Glue(Split(a, sep), Split(b, sep))
  {
    var y := Split(b, sep);
    if a == "" {
      assert a + b == b;
      assert "" + y[0] == y[0];
    } else {
      SplitConcat(a[1..], b, sep);
      assert (a + b)[1..] == a[1..] + b;
      var r := Split(a[1..], sep);
      if a[0] == sep {
        GlueCons("", r, y);
      } else {
        GluePrefix([a[0]], r, y);
      }
    }
  }

  lemma {:induction false} SplitPlain(s: string, sep: char)
    requires sep !in s
    ensures Split(s, sep) == [s]
  {
    if s != "" {
      SplitPlain(s[1..], sep);
      assert s == [s[0]] + s[1..];
      assert [[s[0]] + s[1..]] + [s[1..]][1..] == [s];
    }
  }

  lemma GlueEmpty(x: seq<string>, y: seq<string>)
    requires x != []
    ensures Glue(x, [""] + y) == x + y
  {
    assert x[|x| - 1] + "" == x[|x| - 1];
  }

  /** The parts on both sides of a separator are the parts of the whole. */
  lemma SplitAtSeparator(a: string, b: string, sep: char)
    ensures Split(a + [sep] + b, sep) == Split(a, sep) + Split(b, sep)
  {
    assert ([sep] + b)[1..] == b;
    assert Split([sep] + b, sep) == [""] + Split(b, sep);
    assert a + [sep] + b == a + ([sep] + b);
    SplitConcat(a, [sep] + b, sep);
    GlueEmpty(Split(a, sep), Split(b, sep));
  }

  /** Splitting undoes joining when no part contains the separator. */
  lemma {:induction false} SplitJoin(parts: seq<string>, sep: char)
    requires |parts| >= 1
    requires forall k :: 0 <= k < |parts| ==> sep !in parts[k]
    ensures Split(Join(parts, sep), sep) == parts
  {
    SplitPlain(parts[0], sep);
    if |parts| > 1 {
      SplitJoin(parts[1..], sep);
      SplitAtSeparator(parts[0], Join(parts[1..], sep), sep);
      assert parts == [parts[0]] + parts[1..];
    }
  }

  /** A list longer than a set that holds all its elements repeats one. */
  lemma {:induction false} Repeats<T>(path: seq<T>, s: set<T>) returns (a: nat, b: nat)
    requires |path| > |s| && forall k :: 0 <= k < |path| ==> path[k] in s
    ensures a < b < |path| && path[a] == path[b]
  {
    if k: nat :| 0 < k < |path| && path[k] == path[0] {
      a, b := 0, k;
    } else {
      var rest := path[1..];
      assert forall k :: 0 <= k < |rest| ==> rest[k] == path[k + 1];
      a, b := Repeats(rest, s - {path[0]});
      a, b := a + 1, b + 1;
    }
  }
}
