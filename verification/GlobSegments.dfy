/** The glob language one path segment at a time, as its documentation describes it. */
module GlobSegments {
  import opened Text
  import opened Regex
  import opened Glob

  /** `*` and `?` inside one segment. */
  ghost predicate WildMatch(p: string, s: string) {
    if p == "" then s == ""
    else if p[0] == '*' then exists k :: 0 <= k <= |s| && WildMatch(p[1..], s[k..])
    else s != "" && (p[0] == '?' || s[0] == p[0]) && WildMatch(p[1..], s[1..])
  }

  predicate HasGlobStar(p: string) {
    p != "" && (StartsGlobStar(p) || HasGlobStar(p[1..]))
  }

  /** A segment is `**` itself, or has no `**` in it. */
  predicate SegmentOk(seg: string) {
    '/' !in seg && (seg == "**" || !HasGlobStar(seg))
  }

  predicate WholeGlobStars(segs: seq<string>) {
    |segs| >= 1 && forall k :: 0 <= k < |segs| ==> SegmentOk(segs[k])
  }

  predicate NoEmptySegments(parts: seq<string>) {
    |parts| >= 1 && forall k :: 0 <= k < |parts| ==> parts[k] != "" && '/' !in parts[k]
  }

  /** May `**` take these segments? `anyLine` is what the comments say: always. */
  predicate Takes(parts: seq<string>, anyLine: bool) {
    anyLine || forall k :: 0 <= k < |parts| ==> OneLine(parts[k])
  }

  /**
   Segment-wise matching: a trailing `**` takes one or more segments, any other `**` takes zero
   or more, and every other segment takes one.
   */
  ghost predicate SegmentMatch(segs: seq<string>, parts: seq<string>, anyLine: bool) {
    if segs == [] then parts == []
    else if segs == ["**"] then |parts| >= 1 && Takes(parts, anyLine)
    else if segs[0] == "**" then
      exists m :: 0 <= m <= |parts| && Takes(parts[..m], anyLine) && SegmentMatch(segs[1..], parts[m..], anyLine)
    else
      |parts| >= 1 && WildMatch(segs[0], parts[0]) && SegmentMatch(segs[1..], parts[1..], anyLine)
  }

  // ---------- one segment ----------

  lemma {:induction false} GlobStarAlone(s: string)
    ensures GlobMatch("**", s) <==> OneLine(s)
  {
    assert "**"[2..] == "";
    if s != "" {
      GlobStarAlone(s[1..]);
      assert s == [s[0]] + s[1..];
    }
  }

  lemma WildStarStep(p: string, s: string)
    requires p != "" && p[0] == '*'
    ensures WildMatch(p, s) <==> WildMatch(p[1..], s) || (s != "" && WildMatch(p, s[1..]))
  {
    assert s[0..] == s;
    if s != "" {
      forall k | 1 <= k <= |s|
        ensures s[k..] == s[1..][k - 1..]
      {
      }
      if WildMatch(p, s) && !WildMatch(p[1..], s) {
        var k :| 0 <= k <= |s| && WildMatch(p[1..], s[k..]);
        assert WildMatch(p[1..], s[1..][k - 1..]);
      }
      if WildMatch(p, s[1..]) {
        var k :| 0 <= k <= |s| - 1 && WildMatch(p[1..], s[1..][k..]);
        assert s[1..][k..] == s[k + 1..];
      }
    }
  }

  lemma {:induction false} PlainAlone(p: string, s: string)
    requires !HasGlobStar(p) && '/' !in p
    ensures GlobMatch(p, s) <==> '/' !in s && WildMatch(p, s)
    decreases |p|, |s|
  {
    if p != "" {
      PlainAlone(p[1..], s);
      if s != "" {
        PlainAlone(p[1..], s[1..]);
        assert s == [s[0]] + s[1..];
      }
      if p[0] == '*' {
        WildStarStep(p, s);
        if s != "" { PlainAlone(p, s[1..]); }
      }
    }
  }

  lemma {:induction false} PlainThenSlash(p: string, more: string, u: string, v: string)
    requires !HasGlobStar(p) && '/' !in p && '/' !in u
    ensures GlobMatch(p + "/" + more, u + "/" + v) <==> WildMatch(p, u) && GlobMatch(more, v)
    decreases |p|, |u|
  {
    var g, s := p + "/" + more, u + "/" + v;
    if p == "" {
      assert g[1..] == more;
      if u == "" { assert s[1..] == v; } else { assert s[0] == u[0]; }
    } else {
      assert g[0] == p[0] && g[1..] == p[1..] + "/" + more;
      assert !StartsGlobStar(g) by {
        if |p| >= 2 { assert g[1] == p[1]; }
      }
      if u == "" {
        assert s[0] == '/';
        if p[0] == '*' {
          PlainThenSlash(p[1..], more, u, v);
          WildStarStep(p, u);
        }
      } else {
        assert s[0] == u[0] && s[1..] == u[1..] + "/" + v;
        PlainThenSlash(p[1..], more, u[1..], v);
        if p[0] == '*' {
          PlainThenSlash(p[1..], more, u, v);
          PlainThenSlash(p, more, u[1..], v);
          WildStarStep(p, u);
        }
      }
    }
  }

  lemma {:induction false} PlainNeedsSlash(p: string, more: string, s: string)
    requires !HasGlobStar(p) && '/' !in p && '/' !in s
    ensures !GlobMatch(p + "/" + more, s)
    decreases |p|, |s|
  {
    var g := p + "/" + more;
    if p != "" {
      assert g[0] == p[0] && g[1..] == p[1..] + "/" + more;
      assert !StartsGlobStar(g) by {
        if |p| >= 2 { assert g[1] == p[1]; }
      }
      PlainNeedsSlash(p[1..], more, s);
      if s != "" {
        PlainNeedsSlash(p[1..], more, s[1..]);
        PlainNeedsSlash(p, more, s[1..]);
      }
    }
  }

  // ---------- slashes of a joined path ----------

  lemma {:induction false} JoinAt(parts: seq<string>, m: nat)
    requires 1 <= m < |parts|
    ensures var s, k := Join(parts, '/'), |Join(parts[..m], '/')|;
            k < |s| && s[k] == '/' && s[..k] == Join(parts[..m], '/') && s[k + 1..] == Join(parts[m..], '/')
  {
    var s := Join(parts, '/');
    assert s == parts[0] + "/" + Join(parts[1..], '/');
    if m == 1 {
      assert parts[..1] == [parts[0]];
    } else {
      JoinAt(parts[1..], m - 1);
      assert parts[1..][..m - 1] == parts[..m][1..] && parts[1..][m - 1..] == parts[m..];
      var k := |Join(parts[1..][..m - 1], '/')|;
      assert Join(parts[..m], '/') == parts[0] + "/" + Join(parts[1..][..m - 1], '/');
      assert s[|parts[0]| + 1..] == Join(parts[1..], '/');
      assert s[|parts[0]| + 1 + k + 1..] == Join(parts[1..], '/')[k + 1..];
      assert s[..|parts[0]| + 1 + k] == parts[0] + "/" + Join(parts[1..], '/')[..k];
    }
  }

  lemma {:induction false} SlashInJoin(parts: seq<string>, k: nat) returns (m: nat)
    requires NoEmptySegments(parts)
    requires k < |Join(parts, '/')| && Join(parts, '/')[k] == '/'
    ensures 1 <= m < |parts| && k == |Join(parts[..m], '/')|
  {
    var head := parts[0];
    assert forall c :: 0 <= c < |head| ==> Join(parts, '/')[c] == head[c];
    m := 1;
    assert parts[..1] == [head];
    if k != |head| {
      assert Join(parts, '/')[k] == Join(parts[1..], '/')[k - |head| - 1];
      var m' := SlashInJoin(parts[1..], k - |head| - 1);
      m := m' + 1;
      assert parts[..m][1..] == parts[1..][..m'];
    }
  }

  lemma OneLineConcat(a: string, b: string)
    ensures OneLine(a + b) <==> OneLine(a) && OneLine(b)
  {
    assert forall k :: 0 <= k < |a| ==> (a + b)[k] == a[k];
    forall k | 0 <= k < |b|
      ensures (a + b)[|a| + k] == b[k]
    {
    }
    assert forall k :: |a| <= k < |a + b| ==> (a + b)[k] == b[k - |a|];
    if OneLine(a + b) {
      forall k | 0 <= k < |b|
        ensures !IsLineTerminator(b[k])
      {
        assert (a + b)[|a| + k] == b[k];
      }
    }
  }

  lemma {:induction false} OneLineJoin(parts: seq<string>)
    requires |parts| >= 1
    ensures OneLine(Join(parts, '/')) <==> Takes(parts, false)
  {
    if |parts| > 1 {
      var head, tail := parts[0], Join(parts[1..], '/');
      OneLineJoin(parts[1..]);
      OneLineConcat(head + "/", tail);
      OneLineConcat(head, "/");
      assert parts == [head] + parts[1..];
    }
  }

  // ---------- all segments ----------

  lemma {:induction false} NothingLeft(segs: seq<string>, anyLine: bool)
    requires segs != []
    ensures !SegmentMatch(segs, [], anyLine)
  {
    if segs != ["**"] && segs[0] == "**" {
      NothingLeft(segs[1..], anyLine);
    }
  }

  lemma SkippedSegments(parts: seq<string>, m: nat)
    requires NoEmptySegments(parts) && 1 <= m < |parts|
    ensures var s, k := Join(parts, '/'), |Join(parts[..m], '/')|;
            && 1 <= k < |s| && s[k] == '/' && s[k + 1..] == Join(parts[m..], '/')
            && (OneLine(s[..k]) <==> Takes(parts[..m], false))
  {
    JoinAt(parts, m);
    OneLineJoin(parts[..m]);
    assert parts[..m][0] == parts[0];
  }

  /** `**` `/` skips some number of leading segments, all of them on one line. */
  ghost predicate SkipsTo(more: string, parts: seq<string>, m: nat)
    requires m <= |parts|
  {
    Takes(parts[..m], false) && GlobMatch(more, Join(parts[m..], '/'))
  }

  /** Where the rest of a match of `**` `/` starts: at the front, or after a slash. */
  lemma RestAfterGlobStar(g: string, s: string) returns (k: nat)
    requires StartsGlobStarSlash(g) && GlobMatch(g, s)
    ensures k < |s| || k == 0
    ensures if k == 0 then GlobMatch(g[3..], s) else s[k] == '/' && OneLine(s[..k]) && GlobMatch(g[3..], s[k + 1..])
  {
    if GlobMatch(g[3..], s) {
      k := 0;
    } else {
      k :| 1 <= k < |s| && s[k] == '/' && OneLine(s[..k]) && GlobMatch(g[3..], s[k + 1..]);
    }
  }

  lemma SkipAfterSlash(more: string, parts: seq<string>, k: nat) returns (m: nat)
    requires NoEmptySegments(parts)
    requires var s := Join(parts, '/'); k < |s| && s[k] == '/' && OneLine(s[..k]) && GlobMatch(more, s[k + 1..])
    ensures m < |parts| && SkipsTo(more, parts, m)
  {
    m := SlashInJoin(parts, k);
    SkippedSegments(parts, m);
  }

  lemma SkipFound(g: string, parts: seq<string>) returns (m: nat)
    requires NoEmptySegments(parts) && StartsGlobStarSlash(g) && GlobMatch(g, Join(parts, '/'))
    ensures m < |parts| && SkipsTo(g[3..], parts, m)
  {
    var k := RestAfterGlobStar(g, Join(parts, '/'));
    if k == 0 {
      m := 0;
      assert parts[0..] == parts;
    } else {
      m := SkipAfterSlash(g[3..], parts, k);
    }
  }

  lemma SkipMatches(g: string, parts: seq<string>, m: nat)
    requires NoEmptySegments(parts) && StartsGlobStarSlash(g) && m < |parts| && SkipsTo(g[3..], parts, m)
    ensures GlobMatch(g, Join(parts, '/'))
  {
    if m == 0 {
      assert parts[0..] == parts;
    } else {
      SkippedSegments(parts, m);
      var s, k := Join(parts, '/'), |Join(parts[..m], '/')|;
      assert s[k] == '/' && OneLine(s[..k]) && GlobMatch(g[3..], s[k + 1..]);
    }
  }

  lemma {:induction false} SegmentwiseParts(segs: seq<string>, parts: seq<string>)
    requires WholeGlobStars(segs) && NoEmptySegments(parts)
    ensures GlobMatch(Join(segs, '/'), Join(parts, '/')) <==> SegmentMatch(segs, parts, false)
  {
    var seg, s := segs[0], Join(parts, '/');
    if |segs| == 1 {
      if seg == "**" {
        GlobStarAlone(s);
        OneLineJoin(parts);
      } else {
        PlainAlone(seg, s);
        if |parts| > 1 { JoinAt(parts, 1); }
        assert SegmentMatch(segs[1..], parts[1..], false) <==> |parts| == 1;
      }
    } else {
      var more := Join(segs[1..], '/');
      if seg == "**" {
        var g := Join(segs, '/');
        assert StartsGlobStarSlash(g) && g[3..] == more;
        NothingLeft(segs[1..], false);
        forall m | 0 <= m < |parts|
          ensures GlobMatch(more, Join(parts[m..], '/')) <==> SegmentMatch(segs[1..], parts[m..], false)
        {
          SegmentwiseParts(segs[1..], parts[m..]);
        }
        assert parts[|parts|..] == [];
        if GlobMatch(g, s) {
          var m := SkipFound(g, parts);
          assert SegmentMatch(segs[1..], parts[m..], false);
        }
        if SegmentMatch(segs, parts, false) {
          var m :| 0 <= m <= |parts| && Takes(parts[..m], false) && SegmentMatch(segs[1..], parts[m..], false);
          SkipMatches(g, parts, m);
        }
      } else if |parts| == 1 {
        PlainNeedsSlash(seg, more, s);
        NothingLeft(segs[1..], false);
      } else {
        PlainThenSlash(seg, more, parts[0], Join(parts[1..], '/'));
        SegmentwiseParts(segs[1..], parts[1..]);
      }
    }
  }

  /**
   When every `**` is a whole segment and the path has no empty segment, the compiled matcher
   works segment by segment.
   */
  lemma CompiledIsSegmentwise(pattern: string, path: string)
    requires WholeGlobStars(Split(Normalise(pattern), '/')) && NoEmptySegments(Split(path, '/'))
    ensures RegExpAccepts(pattern, path) <==>
            SegmentMatch(Split(Normalise(pattern), '/'), Split(path, '/'), false)
  {
    JoinSplit(Normalise(pattern), '/');
    JoinSplit(path, '/');
    SegmentwiseParts(Split(Normalise(pattern), '/'), Split(path, '/'));
    EmittedTextAccepts(pattern, path);
  }

  lemma {:induction false} AnyLineAgrees(segs: seq<string>, parts: seq<string>)
    requires Takes(parts, false)
    ensures SegmentMatch(segs, parts, true) == SegmentMatch(segs, parts, false)
  {
    if segs != [] && segs != ["**"] {
      if segs[0] == "**" {
        forall m | 0 <= m <= |parts|
          ensures SegmentMatch(segs[1..], parts[m..], true) == SegmentMatch(segs[1..], parts[m..], false)
          ensures Takes(parts[..m], false)
        {
          AnyLineAgrees(segs[1..], parts[m..]);
        }
      } else if |parts| >= 1 {
        AnyLineAgrees(segs[1..], parts[1..]);
      }
    }
  }

  /** Does the compiler do what its comments say on this path, for every glob of whole `**` segments? */
  ghost predicate MeetsDocumentation(path: string) {
    forall pattern: string | WholeGlobStars(Split(Normalise(pattern), '/')) ::
      RegExpAccepts(pattern, path) <==> SegmentMatch(Split(Normalise(pattern), '/'), Split(path, '/'), true)
  }

  /**
   The comments in the compiler let a `**` before a slash take zero or more segments and one at the end take
   everything; the emitted `.` stops at a line terminator. So they hold on exactly the paths without one.
   */
  lemma DocumentedMeaning(path: string)
    requires NoEmptySegments(Split(path, '/'))
    ensures MeetsDocumentation(path) <==> OneLine(path)
  {
    var parts := Split(path, '/');
    JoinSplit(path, '/');
    OneLineJoin(parts);
    if OneLine(path) {
      forall pattern: string | WholeGlobStars(Split(Normalise(pattern), '/'))
        ensures RegExpAccepts(pattern, path) <==> SegmentMatch(Split(Normalise(pattern), '/'), parts, true)
      {
        CompiledIsSegmentwise(pattern, path);
        AnyLineAgrees(Split(Normalise(pattern), '/'), parts);
      }
    } else {
      assert Normalise("**") == "**";
      SplitPlain("**", '/');
      assert WholeGlobStars(Split(Normalise("**"), '/'));
      CompiledIsSegmentwise("**", path);
      assert SegmentMatch(["**"], parts, true) && !SegmentMatch(["**"], parts, false);
    }
  }

  // ---------- the header of the file ----------

  /** The header's wording: every `**` takes zero or more segments, one at the end too. */
  ghost predicate HeaderMatch(segs: seq<string>, parts: seq<string>) {
    if segs == [] then parts == []
    else if segs[0] == "**" then exists m :: 0 <= m <= |parts| && HeaderMatch(segs[1..], parts[m..])
    else |parts| >= 1 && WildMatch(segs[0], parts[0]) && HeaderMatch(segs[1..], parts[1..])
  }

  /** The header lets a `**` at the end take nothing; that is the only difference. */
  lemma {:induction false} HeaderAddsEmptyTail(segs: seq<string>, parts: seq<string>)
    requires segs != []
    ensures HeaderMatch(segs, parts) <==>
            SegmentMatch(segs, parts, true) || (segs[|segs| - 1] == "**" && HeaderMatch(segs[..|segs| - 1], parts))
  {
    var n := |segs|;
    assert parts[|parts|..] == [];
    if n == 1 {
      assert segs[..0] == [] && segs[1..] == [];
      assert segs == ["**"] || segs[0] != "**";
      if segs[0] != "**" && |parts| >= 1 {
        assert SegmentMatch(segs[1..], parts[1..], true) == HeaderMatch(segs[1..], parts[1..]);
      }
    } else {
      assert segs[..n - 1][0] == segs[0] && segs[..n - 1][1..] == segs[1..][..n - 2] && segs[1..][n - 2] == segs[n - 1];
      if segs[0] == "**" {
        forall m | 0 <= m <= |parts|
          ensures HeaderMatch(segs[1..], parts[m..]) <==>
                  || SegmentMatch(segs[1..], parts[m..], true)
                  || (segs[n - 1] == "**" && HeaderMatch(segs[1..][..n - 2], parts[m..]))
        {
          HeaderAddsEmptyTail(segs[1..], parts[m..]);
        }
      } else if |parts| >= 1 {
        HeaderAddsEmptyTail(segs[1..], parts[1..]);
      }
    }
  }

  /** A `**` at the end takes one or more segments: the segments before it match a proper prefix of the path. */
  lemma {:induction false} TailTakesSome(segs: seq<string>, parts: seq<string>)
    ensures SegmentMatch(segs + ["**"], parts, true) <==>
            exists m :: 0 <= m < |parts| && HeaderMatch(segs, parts[..m])
    decreases |segs|, 1
  {
    var all := segs + ["**"];
    if segs == [] {
      assert all == ["**"];
      if |parts| >= 1 { assert HeaderMatch(segs, parts[..0]); }
    } else {
      assert all[1..] == segs[1..] + ["**"];
      if segs[0] == "**" {
        TailAfterStar(segs, parts);
      } else if |parts| >= 1 {
        TailTakesSome(segs[1..], parts[1..]);
        forall m | 1 <= m <= |parts|
          ensures HeaderMatch(segs, parts[..m]) <==>
                  WildMatch(segs[0], parts[0]) && HeaderMatch(segs[1..], parts[1..][..m - 1])
        {
          assert parts[..m][1..] == parts[1..][..m - 1];
        }
        if m :| 0 <= m < |parts| && HeaderMatch(segs, parts[..m]) {
          assert HeaderMatch(segs[1..], parts[1..][..m - 1]);
        }
        if m :| 0 <= m < |parts[1..]| && HeaderMatch(segs[1..], parts[1..][..m]) {
          assert HeaderMatch(segs, parts[..m + 1]) <==> WildMatch(segs[0], parts[0]);
        }
      }
    }
  }

  lemma {:induction false} TailAfterStar(segs: seq<string>, parts: seq<string>)
    requires segs != [] && segs[0] == "**"
    ensures SegmentMatch(segs + ["**"], parts, true) <==>
            exists m :: 0 <= m < |parts| && HeaderMatch(segs, parts[..m])
    decreases |segs|, 0
  {
    var all := segs + ["**"];
    assert all[1..] == segs[1..] + ["**"];
    forall a | 0 <= a <= |parts|
      ensures SegmentMatch(all[1..], parts[a..], true) <==>
              exists m :: 0 <= m < |parts[a..]| && HeaderMatch(segs[1..], parts[a..][..m])
    {
      TailTakesSome(segs[1..], parts[a..]);
    }
    if SegmentMatch(all, parts, true) {
      var a :| 0 <= a <= |parts| && SegmentMatch(all[1..], parts[a..], true);
      var m :| 0 <= m < |parts[a..]| && HeaderMatch(segs[1..], parts[a..][..m]);
      assert parts[..a + m][a..] == parts[a..][..m];
      assert HeaderMatch(segs, parts[..a + m]);
    }
    if m :| 0 <= m < |parts| && HeaderMatch(segs, parts[..m]) {
      var a :| 0 <= a <= m && HeaderMatch(segs[1..], parts[..m][a..]);
      assert parts[..m][a..] == parts[a..][..m - a];
      assert SegmentMatch(all[1..], parts[a..], true);
    }
  }

  /** The segments before a `**` at the end match the whole path, and nothing shorter. */
  ghost predicate OnlyWholePath(segs: seq<string>, parts: seq<string>) {
    HeaderMatch(segs, parts) && forall m :: 0 <= m < |parts| ==> !HeaderMatch(segs, parts[..m])
  }

  lemma HeaderDiffers(segs: seq<string>, parts: seq<string>)
    requires segs != []
    ensures (HeaderMatch(segs, parts) <==> SegmentMatch(segs, parts, true)) <==>
            !(segs[|segs| - 1] == "**" && OnlyWholePath(segs[..|segs| - 1], parts))
  {
    HeaderAddsEmptyTail(segs, parts);
    if segs[|segs| - 1] == "**" {
      assert segs == segs[..|segs| - 1] + ["**"];
      TailTakesSome(segs[..|segs| - 1], parts);
    }
  }

  /**
   On a path without a line terminator, what the header promises is what the compiler does, unless the glob ends in
   `**` and what comes before matches the whole path and nothing shorter.
   */
  lemma HeaderMeaning(pattern: string, path: string)
    requires WholeGlobStars(Split(Normalise(pattern), '/')) && NoEmptySegments(Split(path, '/')) && OneLine(path)
    ensures var segs, parts := Split(Normalise(pattern), '/'), Split(path, '/');
            (HeaderMatch(segs, parts) <==> RegExpAccepts(pattern, path)) <==>
              !(segs[|segs| - 1] == "**" && OnlyWholePath(segs[..|segs| - 1], parts))
  {
    var segs, parts := Split(Normalise(pattern), '/'), Split(path, '/');
    JoinSplit(path, '/');
    OneLineJoin(parts);
    CompiledIsSegmentwise(pattern, path);
    AnyLineAgrees(segs, parts);
    HeaderDiffers(segs, parts);
  }

  /** A case where the two differ: the header promises that `a` is in the scope `a/` `**`. */
  lemma HeaderPromisesMore()
    ensures !RegExpAccepts("a/**", "a") && HeaderMatch(Split("a/**", '/'), Split("a", '/'))
  {
    assert Normalise("a/**") == "a/**";
    SplitJoin(["a", "**"], '/');
    SplitPlain("a", '/');
    assert Split("a/**", '/') == ["a", "**"];
    CompiledIsSegmentwise("a/**", "a");
    assert ["a"][0..] == ["a"] && ["a"][1..] == [] && ["a", "**"][1..] == ["**"] && ["**"][1..] == [];
    assert WildMatch("a", "a");
    assert HeaderMatch([], [][0..]);
    assert HeaderMatch(["**"], []);
  }
}
