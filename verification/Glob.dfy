/** The `--scope` glob compiler: the regular-expression text it emits, and what that text accepts. */
module Glob {
  import opened Text
  import opened Regex

  // ---------- compilation to pattern text ----------

  predicate StartsGlobStar(p: string) {
    |p| >= 2 && p[0] == '*' && p[1] == '*'
  }

  predicate StartsGlobStarSlash(p: string) {
    StartsGlobStar(p) && |p| >= 3 && p[2] == '/'
  }

  /** Separators become `/`, then one leading `./` goes. */
  function Normalise(path: string): (p: string)
    ensures '\\' !in p
  {
    var slashed := seq(|path|, i requires 0 <= i < |path| => if path[i] == '\\' then '/' else path[i]);
    if |slashed| >= 2 && slashed[0] == '.' && slashed[1] == '/' then slashed[2..] else slashed
  }

  predicate IsSlash(c: char) {
    c == '/' || c == '\\'
  }

  /** The same text, except that either slash may be written for the other. */
  predicate SameButSlashes(s: string, t: string) {
    |s| == |t| && forall k :: 0 <= k < |s| ==> s[k] == t[k] || (IsSlash(s[k]) && IsSlash(t[k]))
  }

  /**
   `s` is a way to write the path or glob `t`: its slashes may lean either way, and one `./` may stand before it, and
   must where it begins with `./` itself.
   */
  predicate Spells(s: string, t: string) {
    && '\\' !in t
    && (SameButSlashes(s, "./" + t) || (SameButSlashes(s, t) && !("./" <= t)))
  }

  /** Every text spells exactly one path. */
  lemma NormaliseExactly(s: string, t: string)
    ensures Spells(s, t) <==> Normalise(s) == t
  {
    var slashed := seq(|s|, i requires 0 <= i < |s| => if s[i] == '\\' then '/' else s[i]);
    if SameButSlashes(s, "./" + t) {
      assert forall k :: 0 <= k < |t| ==> ("./" + t)[k + 2] == t[k];
      if '\\' !in t { assert slashed == "./" + t; }
    }
    if SameButSlashes(s, t) && '\\' !in t { assert slashed == t; }
    if Normalise(s) == t && "./" <= slashed { assert slashed == "./" + t; }
  }

  predicate NeedsEscape(c: char) {
    c in ".+^${}()|[]\\"
  }

  /** The text for one character that does not start a `**`. */
  function EmitChar(c: char): string {
    if c == '*' then "[^/]*"
    else if c == '?' then "[^/]"
    else if NeedsEscape(c) then ['\\', c]
    else [c]
  }

  function Emit(p: string): string {
    if p == "" then ""
    else if StartsGlobStarSlash(p) then "(?:.+/)?" + Emit(p[3..])
    else if StartsGlobStar(p) then ".*" + Emit(p[2..])
    else EmitChar(p[0]) + Emit(p[1..])
  }

  /** How many pattern characters the next piece of text stands for. */
  function PieceLength(p: string): (n: nat)
    requires p != ""
    ensures 1 <= n <= |p|
  {
    if StartsGlobStarSlash(p) then 3 else if StartsGlobStar(p) then 2 else 1
  }

  lemma EmitStep(done: string, p: string, n: nat)
    requires p != "" && n == PieceLength(p)
    ensures var piece := if n == 3 then "(?:.+/)?" else if n == 2 then ".*" else EmitChar(p[0]);
            (done + piece) + Emit(p[n..]) == done + Emit(p)
  {
    var piece := if n == 3 then "(?:.+/)?" else if n == 2 then ".*" else EmitChar(p[0]);
    ConcatAssociates(done, piece, Emit(p[n..]));
  }

  lemma ConcatAssociates(a: string, b: string, c: string)
    ensures (a + b) + c == a + (b + c)
  {
  }

  /** The compiler itself: one pass over the glob that the pattern spells. */
  method GlobToRegExp(pattern: string, ghost glob: string) returns (source: string)
    requires Spells(pattern, glob)
    ensures source == "^" + Emit(glob) + "$"
  {
    NormaliseExactly(pattern, glob);
    var p := Normalise(pattern);
    var re := "";
    var i := 0;
    while i < |p|
      invariant 0 <= i <= |p|
      invariant re + Emit(p[i..]) == Emit(p)
    {
      var ch := p[i];
      ghost var done, rest := re, p[i..];
      if ch == '*' && i + 1 < |p| && p[i + 1] == '*' {
        if i + 2 < |p| && p[i + 2] == '/' {
          re := re + "(?:.+/)?";
          i := i + 3;
          EmitStep(done, rest, 3);
          assert rest[3..] == p[i..];
        } else {
          re := re + ".*";
          i := i + 2;
          EmitStep(done, rest, 2);
          assert rest[2..] == p[i..];
        }
      } else {
        if ch == '*' {
          re := re + "[^/]*";
        } else if ch == '?' {
          re := re + "[^/]";
        } else if NeedsEscape(ch) {
          re := re + ['\\', ch];
        } else {
          re := re + [ch];
        }
        i := i + 1;
        EmitStep(done, rest, 1);
        assert rest[1..] == p[i..];
      }
    }
    assert p[i..] == "";
    assert re + "" == re;
    source := "^" + re + "$";
  }

  // ---------- what the text reads as ----------

  const AnyRun := Star(Dot)
  const NotSlash := Class(true, {'/'})
  const Segments := Alt(Concat(Concat(Dot, Star(Dot)), Concat(Literal('/'), Empty)), Empty)

  /** The pattern the emitted text stands for, up to and including the final `$`. */
  function Compiled(p: string): Regex {
    if p == "" then Concat(Eol, Empty)
    else if StartsGlobStarSlash(p) then Concat(Segments, Compiled(p[3..]))
    else if StartsGlobStar(p) then Concat(AnyRun, Compiled(p[2..]))
    else if p[0] == '*' then Concat(Star(NotSlash), Compiled(p[1..]))
    else if p[0] == '?' then Concat(NotSlash, Compiled(p[1..]))
    else Concat(Literal(p[0]), Compiled(p[1..]))
  }

  predicate NoQuantifierAhead(t: string) {
    t == "" || t[0] !in "*+?{"
  }

  /** Escaping leaves no stray quantifier: no emitted text starts with one. */
  lemma {:induction false} EmitStartsClean(p: string)
    ensures var t := Emit(p) + "$"; NoQuantifierAhead(t) && t[0] != ')' && t[0] != '|'
  {
    if p != "" && !StartsGlobStar(p) {
      assert (Emit(p) + "$")[0] == EmitChar(p[0])[0];
    }
  }

  lemma ReadDotPlus(t: string)
    requires t != "" && t[0] != '?'
    ensures ReadTerm(".+" + t) == Some((Concat(Dot, Star(Dot)), t))
  {
    var plus, s := "+" + t, ".+" + t;
    assert s[1..] == plus && plus[1..] == t;
    assert ReadAtom(s) == Some((Dot, plus));
    assert SkipLazy(t) == t;
  }

  lemma ReadSlash(t: string)
    requires t != "" && t[0] == ')'
    ensures ReadAlternative("/" + t) == Some((Concat(Literal('/'), Empty), t))
  {
    assert ("/" + t)[1..] == t;
    assert ReadTerm("/" + t) == Some((Literal('/'), t));
    assert ReadAlternative(t) == Some((Empty, t));
  }

  lemma ReadSegmentsBody(t: string)
    requires t != "" && t[0] == ')'
    ensures ReadDisjunction(".+/" + t) == Some((Segments.left, t))
  {
    assert ".+/" + t == ".+" + ("/" + t);
    ReadDotPlus("/" + t);
    ReadSlash(t);
    assert ReadAlternative(".+/" + t) == Some((Segments.left, t));
  }

  lemma ReadSegments(t: string)
    requires NoQuantifierAhead(t)
    ensures ReadTerm("(?:.+/)?" + t) == Some((Segments, t))
  {
    var close := ")?" + t;
    ReadSegmentsBody(close);
    assert ("(?:.+/)?" + t)[3..] == ".+/" + close;
    assert close[1..] == "?" + t && ("?" + t)[1..] == t;
    assert ReadAtom("(?:.+/)?" + t) == Some((Segments.left, "?" + t));
    assert SkipLazy(t) == t;
  }

  lemma ReadAnyRun(t: string)
    requires NoQuantifierAhead(t)
    ensures ReadTerm(".*" + t) == Some((AnyRun, t))
  {
    assert (".*" + t)[1..] == "*" + t && ("*" + t)[1..] == t;
    assert ReadAtom(".*" + t) == Some((Dot, "*" + t));
  }

  lemma ReadNotSlash(t: string)
    ensures ReadAtom("[^/]" + t) == Some((NotSlash, t))
  {
    assert ("[^/]" + t)[2..] == "/]" + t && ("/]" + t)[1..] == "]" + t && ("]" + t)[1..] == t;
    assert {} + {'/'} == {'/'};
    assert ReadClass("]" + t, true, {'/'}) == Some((NotSlash, t));
  }

  lemma ReadChar(c: char, t: string)
    requires NoQuantifierAhead(t)
    ensures ReadTerm(EmitChar(c) + t) ==
            Some((if c == '*' then Star(NotSlash) else if c == '?' then NotSlash else Literal(c), t))
  {
    if c == '*' {
      assert "[^/]*" + t == "[^/]" + ("*" + t);
      ReadNotSlash("*" + t);
      assert ("*" + t)[1..] == t;
    } else if c == '?' {
      ReadNotSlash(t);
    } else if NeedsEscape(c) {
      ReadEscaped(c, t);
    } else {
      ReadPlain(c, t);
    }
  }

  lemma ReadEscaped(c: char, t: string)
    requires NoQuantifierAhead(t) && NeedsEscape(c)
    ensures ReadTerm(['\\', c] + t) == Some((Literal(c), t))
  {
    assert (['\\', c] + t)[2..] == t;
  }

  lemma ReadPlain(c: char, t: string)
    requires NoQuantifierAhead(t) && c != '*' && c != '?' && !NeedsEscape(c)
    ensures ReadTerm([c] + t) == Some((Literal(c), t))
  {
    assert ([c] + t)[1..] == t;
  }

  /**
   The emitted text belongs to the pattern grammar, and it reads as the intended pattern: no
   character of the glob turns into an operator and no operator is lost.
   */
  lemma {:induction false} ReadEmit(p: string)
    ensures ReadAlternative(Emit(p) + "$") == Some((Compiled(p), ""))
  {
    var text := Emit(p) + "$";
    EmitStartsClean(p);
    if p == "" {
      assert text[1..] == "";
    } else {
      var n := PieceLength(p);
      var t := Emit(p[n..]) + "$";
      ReadEmit(p[n..]);
      EmitStartsClean(p[n..]);
      if n == 3 {
        assert text == "(?:.+/)?" + t;
        ReadSegments(t);
      } else if n == 2 {
        assert text == ".*" + t;
        ReadAnyRun(t);
      } else {
        assert text == EmitChar(p[0]) + t;
        ReadChar(p[0], t);
      }
    }
  }

  lemma ReadSource(p: string)
    ensures ReadPattern("^" + Emit(p) + "$") == Some(Concat(Bol, Compiled(p)))
  {
    var rest := Emit(p) + "$";
    var text := "^" + Emit(p) + "$";
    assert text[1..] == rest;
    ReadEmit(p);
    assert ReadTerm(text) == Some((Bol, rest));
    assert ReadAlternative(text) == Some((Concat(Bol, Compiled(p)), ""));
    assert ReadDisjunction(text) == Some((Concat(Bol, Compiled(p)), ""));
  }

  // ---------- direct matching ----------

  /**
   A backtracking glob matcher that never mentions regular expressions. `*` and `?` stay inside
   a segment; `**` and the part of `**` `/` before its slash stay inside a line.
   */
  ghost predicate GlobMatch(p: string, s: string)
    decreases |p|, |s|
  {
    if p == "" then s == ""
    else if StartsGlobStarSlash(p) then
      || GlobMatch(p[3..], s)
      || exists k :: 1 <= k < |s| && s[k] == '/' && OneLine(s[..k]) && GlobMatch(p[3..], s[k + 1..])
    else if StartsGlobStar(p) then
      GlobMatch(p[2..], s) || (s != "" && !IsLineTerminator(s[0]) && GlobMatch(p, s[1..]))
    else if p[0] == '*' then
      GlobMatch(p[1..], s) || (s != "" && s[0] != '/' && GlobMatch(p, s[1..]))
    else if p[0] == '?' then
      s != "" && s[0] != '/' && GlobMatch(p[1..], s[1..])
    else
      s != "" && s[0] == p[0] && GlobMatch(p[1..], s[1..])
  }

  /** One character of a run, then the rest of the run and what follows it. */
  lemma StarThen(body: Regex, admits: char -> bool, more: Regex, s: string, i: nat)
    requires i <= |s|
    requires forall a, b :: 0 <= a <= b <= |s| ==> (Matches(body, s, a, b) <==> b == a + 1 && admits(s[a]))
    ensures Matches(Concat(Star(body), more), s, i, |s|) <==>
            || Matches(more, s, i, |s|)
            || (i < |s| && admits(s[i]) && Matches(Concat(Star(body), more), s, i + 1, |s|))
  {
    var n := |s|;
    var re := Star(body);
    assert Matches(re, s, i, i);
    if i < n {
      assert Matches(body, s, i, i + 1) <==> admits(s[i]);
      forall k | i < k <= n
        ensures Matches(re, s, i, k) <==> admits(s[i]) && Matches(re, s, i + 1, k)
      {
        StarOfOne(body, admits, s, i, k);
        StarOfOne(body, admits, s, i + 1, k);
      }
    }
  }

  lemma SegmentsMatch(s: string, i: nat, j: nat)
    requires i <= j <= |s|
    ensures Matches(Segments, s, i, j) <==>
            i == j || (i + 2 <= j && s[j - 1] == '/' && OneLine(s[i..j - 1]))
  {
    var dots := Concat(Dot, Star(Dot));
    var slash := Concat(Literal('/'), Empty);
    forall k | i <= k <= j
      ensures Matches(dots, s, i, k) <==> i < k && OneLine(s[i..k])
    {
      if i < k {
        StarOfOne(Dot, c => !IsLineTerminator(c), s, i + 1, k);
        assert Matches(Dot, s, i, i + 1) <==> !IsLineTerminator(s[i]);
        assert forall a :: i <= a < k ==> s[a] == s[i..k][a - i];
        assert Matches(dots, s, i, k) <==> Matches(Dot, s, i, i + 1) && Matches(Star(Dot), s, i + 1, k);
      }
    }
    forall k | i <= k <= j
      ensures Matches(slash, s, k, j) <==> j == k + 1 && s[k] == '/'
    {
      if j == k + 1 {
        assert Matches(Empty, s, j, j);
      }
    }
    var both := Concat(dots, slash);
    assert Segments == Alt(both, Empty);
    if Matches(both, s, i, j) {
      var k := ConcatSplit(dots, slash, s, i, j);
      assert k == j - 1;
    }
    if i + 2 <= j && s[j - 1] == '/' && OneLine(s[i..j - 1]) {
      assert Matches(both.first, s, i, j - 1) && Matches(both.second, s, j - 1, j);
    }
    assert Matches(Empty, s, i, j) <==> i == j;
  }

  lemma {:induction false} CompiledMatches(p: string, s: string, i: nat)
    requires i <= |s|
    ensures Matches(Compiled(p), s, i, |s|) <==> GlobMatch(p, s[i..])
    decreases |p|, |s| - i
  {
    var n := |s|;
    if p == "" {
      assert Matches(Eol, s, n, n) && Matches(Empty, s, n, n);
    } else if StartsGlobStarSlash(p) {
      var more := Compiled(p[3..]);
      forall k | i <= k <= n
        ensures Matches(more, s, k, n) <==> GlobMatch(p[3..], s[k..])
      {
        CompiledMatches(p[3..], s, k);
      }
      forall k | i <= k <= n
        ensures Matches(Segments, s, i, k) <==> i == k || (i + 2 <= k && s[k - 1] == '/' && OneLine(s[i..k - 1]))
      {
        SegmentsMatch(s, i, k);
      }
      SlashPositions(p[3..], s, i);
    } else {
      if i < n {
        assert s[i..][0] == s[i] && s[i..][1..] == s[i + 1..];
      }
      if StartsGlobStar(p) {
        StarThen(Dot, c => !IsLineTerminator(c), Compiled(p[2..]), s, i);
        CompiledMatches(p[2..], s, i);
        if i < n { CompiledMatches(p, s, i + 1); }
      } else if p[0] == '*' {
        StarThen(NotSlash, c => c != '/', Compiled(p[1..]), s, i);
        CompiledMatches(p[1..], s, i);
        if i < n { CompiledMatches(p, s, i + 1); }
      } else {
        if i < n { CompiledMatches(p[1..], s, i + 1); }
        OneThen(p, s, i);
      }
    }
  }

  lemma OneThen(p: string, s: string, i: nat)
    requires p != "" && p[0] != '*' && i <= |s|
    ensures Matches(Compiled(p), s, i, |s|) <==>
            i < |s| && (if p[0] == '?' then s[i] != '/' else s[i] == p[0]) && Matches(Compiled(p[1..]), s, i + 1, |s|)
  {
    var head := if p[0] == '?' then NotSlash else Literal(p[0]);
    if i < |s| {
      assert Matches(head, s, i, i + 1) <==> if p[0] == '?' then s[i] != '/' else s[i] == p[0];
    }
  }

  lemma SlashInSuffix(p: string, s: string, i: nat, k: nat)
    requires i + 2 <= k <= |s| && s[k - 1] == '/' && OneLine(s[i..k - 1]) && GlobMatch(p, s[k..])
    ensures var u, m := s[i..], k - i - 1;
            1 <= m < |u| && u[m] == '/' && OneLine(u[..m]) && GlobMatch(p, u[m + 1..])
  {
    assert s[i..][..k - i - 1] == s[i..k - 1] && s[i..][k - i - 1 + 1..] == s[k..];
  }

  lemma SlashInWhole(p: string, s: string, i: nat, m: nat)
    requires i <= |s|
    requires var u := s[i..]; 1 <= m < |u| && u[m] == '/' && OneLine(u[..m]) && GlobMatch(p, u[m + 1..])
    ensures var k := m + i + 1; i + 2 <= k <= |s| && s[k - 1] == '/' && OneLine(s[i..k - 1]) && GlobMatch(p, s[k..])
  {
    assert s[i..][..m] == s[i..m + i + 1 - 1] && s[i..][m + 1..] == s[m + i + 1..];
  }

  /** Positions in `s` at or after `i` against positions in the suffix `s[i..]`. */
  lemma SlashPositions(p: string, s: string, i: nat)
    requires i <= |s|
    ensures (exists k :: i + 2 <= k <= |s| && s[k - 1] == '/' && OneLine(s[i..k - 1]) && GlobMatch(p, s[k..])) <==>
            var u := s[i..];
            exists k :: 1 <= k < |u| && u[k] == '/' && OneLine(u[..k]) && GlobMatch(p, u[k + 1..])
  {
    var u := s[i..];
    if exists k :: i + 2 <= k <= |s| && s[k - 1] == '/' && OneLine(s[i..k - 1]) && GlobMatch(p, s[k..]) {
      var k :| i + 2 <= k <= |s| && s[k - 1] == '/' && OneLine(s[i..k - 1]) && GlobMatch(p, s[k..]);
      SlashInSuffix(p, s, i, k);
    }
    if exists k :: 1 <= k < |u| && u[k] == '/' && OneLine(u[..k]) && GlobMatch(p, u[k + 1..]) {
      var m :| 1 <= m < |u| && u[m] == '/' && OneLine(u[..m]) && GlobMatch(p, u[m + 1..]);
      SlashInWhole(p, s, i, m);
    }
  }

  /**
   The compiler is correct through its text: what `RegExp.test` answers on the emitted source,
   read as a pattern, is what the direct matcher answers on the normalised glob.
   */
  lemma EmittedTextAccepts(pattern: string, path: string)
    ensures var read := ReadPattern("^" + Emit(Normalise(pattern)) + "$");
            read.Some? && (Test(read.value, path) <==> GlobMatch(Normalise(pattern), path))
  {
    var p := Normalise(pattern);
    ReadSource(p);
    var body := Compiled(p);
    var re := Concat(Bol, body);
    CompiledMatches(p, path, 0);
    assert path[0..] == path;
    if GlobMatch(p, path) {
      assert Matches(Bol, path, 0, 0) && Matches(body, path, 0, |path|);
      assert Matches(re, path, 0, |path|);
    }
    if Test(re, path) {
      var i, j :| 0 <= i <= j <= |path| && Matches(re, path, i, j);
      var k := ConcatSplit(Bol, body, path, i, j);
      EndsAtEnd(p, path, k, j);
    }
  }

  /** Only the end of the input can satisfy the final `$`. */
  lemma {:induction false} EndsAtEnd(p: string, s: string, i: nat, j: nat)
    requires i <= j <= |s| && Matches(Compiled(p), s, i, j)
    ensures j == |s|
    decreases |p|
  {
    if p != "" {
      var re := Compiled(p);
      var k := ConcatSplit(re.first, re.second, s, i, j);
      EndsAtEnd(p[PieceLength(p)..], s, k, j);
    }
  }

  // ---------- scope checking ----------

  /** Some glob accepts the path, or there are no globs at all. */
  ghost predicate InScope(path: string, patterns: seq<string>) {
    patterns == [] || exists g :: g in patterns && GlobMatch(Normalise(g), Normalise(path))
  }

  /** The compiled answer for one glob. */
  ghost predicate RegExpAccepts(pattern: string, path: string) {
    var read := ReadPattern("^" + Emit(Normalise(pattern)) + "$");
    read.Some? && Test(read.value, path)
  }

  ghost predicate MatchesScope(path: string, patterns: seq<string>) {
    patterns == [] || exists g :: g in patterns && RegExpAccepts(g, Normalise(path))
  }

  ghost function FindScopeViolations(changed: seq<string>, globs: seq<string>): (out: seq<string>) {
    if globs == [] || changed == [] then []
    else
      var rest := FindScopeViolations(changed[1..], globs);
      if MatchesScope(changed[0], globs) then rest else [changed[0]] + rest
  }

  /** The changed paths that no glob covers, in their order. */
  ghost function OutOfScope(changed: seq<string>, globs: seq<string>): seq<string> {
    if changed == [] then []
    else (if InScope(changed[0], globs) then [] else [changed[0]]) + OutOfScope(changed[1..], globs)
  }

  lemma ScopeAgrees(path: string, globs: seq<string>)
    ensures MatchesScope(path, globs) <==> InScope(path, globs)
  {
    forall g | g in globs
      ensures RegExpAccepts(g, Normalise(path)) <==> GlobMatch(Normalise(g), Normalise(path))
    {
      EmittedTextAccepts(g, Normalise(path));
    }
  }

  /** The reported paths are the changed paths that no glob covers, each as often and in the order it was changed. */
  lemma {:induction false} ViolationsAreExact(changed: seq<string>, globs: seq<string>)
    ensures FindScopeViolations(changed, globs) == OutOfScope(changed, globs)
    ensures forall path :: path in FindScopeViolations(changed, globs) <==>
                           path in changed && !InScope(path, globs)
  {
    if changed != [] {
      ViolationsAreExact(changed[1..], globs);
      ScopeAgrees(changed[0], globs);
      assert changed == [changed[0]] + changed[1..];
    }
  }

  // ---------- scope checking, whatever the spelling ----------

  ghost predicate AllSpell(written: seq<string>, plain: seq<string>) {
    |written| == |plain| && forall k :: 0 <= k < |plain| ==> Spells(written[k], plain[k])
  }

  /** The changed paths, as they are written, for which no glob matches what they spell. */
  ghost function Unmatched(changed: seq<string>, paths: seq<string>, globs: seq<string>): seq<string>
    requires |changed| == |paths|
  {
    if changed == [] then []
    else
      (if exists g :: g in globs && GlobMatch(g, paths[0]) then [] else [changed[0]])
      + Unmatched(changed[1..], paths[1..], globs)
  }

  lemma ScopeSpelled(path: string, plain: string, patterns: seq<string>, globs: seq<string>)
    requires patterns != [] && AllSpell(patterns, globs) && Spells(path, plain)
    ensures InScope(path, patterns) <==> exists g :: g in globs && GlobMatch(g, plain)
  {
    NormaliseExactly(path, plain);
    forall k | 0 <= k < |globs|
      ensures Normalise(patterns[k]) == globs[k]
    {
      NormaliseExactly(patterns[k], globs[k]);
    }
    if InScope(path, patterns) {
      var k :| 0 <= k < |patterns| && GlobMatch(Normalise(patterns[k]), Normalise(path));
      assert globs[k] in globs;
    }
    if g :| g in globs && GlobMatch(g, plain) {
      var k :| 0 <= k < |globs| && globs[k] == g;
      assert patterns[k] in patterns;
    }
  }

  /**
   However the globs and the changed paths are written, the violations are the paths that no glob matches as they are
   spelled, reported as they were written.
   */
  lemma {:induction false} ViolationsBySpelling(changed: seq<string>, paths: seq<string>, patterns: seq<string>,
                                               globs: seq<string>)
    requires patterns != [] && AllSpell(patterns, globs) && AllSpell(changed, paths)
    ensures FindScopeViolations(changed, patterns) == Unmatched(changed, paths, globs)
  {
    if changed != [] {
      assert forall k :: 0 <= k < |paths[1..]| ==> Spells(changed[1..][k], paths[1..][k]);
      ViolationsBySpelling(changed[1..], paths[1..], patterns, globs);
      ScopeAgrees(changed[0], patterns);
      ScopeSpelled(changed[0], paths[0], patterns, globs);
    }
  }

  /** A text with forward slashes and no `./` before it. */
  predicate PlainPath(s: string) {
    '\\' !in s && !("./" <= s)
  }

  lemma PlainSpellings(s: string, t: string)
    requires PlainPath(s) && SameButSlashes(t, s)
    ensures Spells(s, s) && Spells(t, s) && Spells("./" + s, s) && Spells("./" + t, s)
  {
    assert forall k :: 2 <= k < |t| + 2 ==> ("./" + t)[k] == t[k - 2] && ("./" + s)[k] == s[k - 2];
  }

  /** Plain globs and paths are matched as they stand. */
  lemma PlainViolations(changed: seq<string>, globs: seq<string>)
    requires globs != [] && (forall g :: g in globs ==> PlainPath(g)) && forall p :: p in changed ==> PlainPath(p)
    ensures FindScopeViolations(changed, globs) == Unmatched(changed, changed, globs)
  {
    forall g | PlainPath(g)
      ensures Spells(g, g)
    {
      PlainSpellings(g, g);
    }
    ViolationsBySpelling(changed, changed, globs, globs);
  }

  /** A glob may be written with `./` before it and with slashes leaning either way: the violations are the same. */
  lemma GlobSpellings(changed: seq<string>, glob: string, leaning: string)
    requires PlainPath(glob) && SameButSlashes(leaning, glob)
    ensures FindScopeViolations(changed, [glob]) == FindScopeViolations(changed, [leaning])
         == FindScopeViolations(changed, ["./" + glob]) == FindScopeViolations(changed, ["./" + leaning])
  {
    var paths := seq(|changed|, k requires 0 <= k < |changed| => Normalise(changed[k]));
    forall k | 0 <= k < |changed|
      ensures Spells(changed[k], paths[k])
    {
      NormaliseExactly(changed[k], paths[k]);
    }
    PlainSpellings(glob, leaning);
    ViolationsBySpelling(changed, paths, [glob], [glob]);
    ViolationsBySpelling(changed, paths, [leaning], [glob]);
    ViolationsBySpelling(changed, paths, ["./" + glob], [glob]);
    ViolationsBySpelling(changed, paths, ["./" + leaning], [glob]);
  }

  /** And so may a changed path: it is reported, as it was written, exactly if it is reported when written plainly. */
  lemma PathSpellings(path: string, leaning: string, globs: seq<string>)
    requires PlainPath(path) && SameButSlashes(leaning, path)
    ensures var plain := FindScopeViolations([path], globs);
            && FindScopeViolations([leaning], globs) == (if plain == [] then [] else [leaning])
            && FindScopeViolations(["./" + path], globs) == (if plain == [] then [] else ["./" + path])
            && FindScopeViolations(["./" + leaning], globs) == (if plain == [] then [] else ["./" + leaning])
  {
    if globs != [] {
      var plainGlobs := seq(|globs|, k requires 0 <= k < |globs| => Normalise(globs[k]));
      forall k | 0 <= k < |globs|
        ensures Spells(globs[k], plainGlobs[k])
      {
        NormaliseExactly(globs[k], plainGlobs[k]);
      }
      PlainSpellings(path, leaning);
      OneViolation(path, path, globs, plainGlobs);
      OneViolation(leaning, path, globs, plainGlobs);
      OneViolation("./" + path, path, globs, plainGlobs);
      OneViolation("./" + leaning, path, globs, plainGlobs);
    }
  }

  lemma OneViolation(written: string, path: string, patterns: seq<string>, globs: seq<string>)
    requires patterns != [] && AllSpell(patterns, globs) && Spells(written, path)
    ensures FindScopeViolations([written], patterns) ==
            if exists g :: g in globs && GlobMatch(g, path) then [] else [written]
  {
    ViolationsBySpelling([written], [path], patterns, globs);
    assert Unmatched([written][1..], [path][1..], globs) == [];
  }
}
