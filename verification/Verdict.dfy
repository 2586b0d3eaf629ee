/** verdict.md: reading the CHECK agent's answer, and overruling a PASS on failing tests. */
module Verdict {
  import opened Text

  datatype Verdict = Pass | Fail

  /** Leading markdown marks and white space go, then the line is trimmed. */
  function DropMarks(line: string): string {
    if line != "" && (IsSpace(line[0]) || line[0] in "#>*-") then DropMarks(line[1..]) else line
  }

  function Content(line: string): string {
    Trim(DropMarks(line))
  }

  function FirstContent(lines: seq<string>): (i: nat)
    ensures i <= |lines|
    ensures i < |lines| ==> Content(lines[i]) != ""
    ensures forall k :: 0 <= k < i ==> Content(lines[k]) == ""
  {
    if lines == [] || Content(lines[0]) != "" then 0 else 1 + FirstContent(lines[1..])
  }

  function UpperChar(c: char): char {
    if 'a' <= c <= 'z' then (c as int - 'a' as int + 'A' as int) as char else c
  }

  predicate SaysPass(content: string) {
    && |content| >= 4
    && UpperChar(content[0]) == 'P' && UpperChar(content[1]) == 'A'
    && UpperChar(content[2]) == 'S' && UpperChar(content[3]) == 'S'
  }

  function VerdictOf(lines: seq<string>): Verdict {
    var i := FirstContent(lines);
    if i < |lines| && SaysPass(Content(lines[i])) then Pass else Fail
  }

  /** The first line with content must say PASS; anything else is a FAIL. */
  function ParseVerdict(text: string): Verdict {
    VerdictOf(Split(text, '\n'))
  }

  /** A PASS on failing tests: its first line with content becomes FAIL, and a note follows. */
  function ForceFail(text: string, note: string): string {
    var lines := Split(text, '\n');
    var i := FirstContent(lines);
    Join(if i < |lines| then lines[i := "FAIL"] else lines, '\n') + "\n" + note
  }

  lemma FailLine()
    ensures Content("FAIL") == "FAIL" && !SaysPass("FAIL")
  {
    TrimPlain("FAIL");
  }

  /** A file whose first line with content is `mark` has the verdict of that line. */
  lemma MarkFirst(lines: seq<string>, mark: string, all: seq<string>)
    requires FirstContent(lines) < |lines| && Content(mark) != ""
    requires lines[FirstContent(lines) := mark] <= all
    ensures VerdictOf(all) == if SaysPass(Content(mark)) then Pass else Fail
  {
    var i := FirstContent(lines);
    assert all[i] == lines[i := mark][i];
    assert forall k :: 0 <= k < i ==> all[k] == lines[i := mark][k] == lines[k];
    assert FirstContent(all) == i;
  }

  /** The lines of the overruled file begin with the old lines, FAIL in place of the verdict. */
  lemma ForcedLines(lines: seq<string>, note: string)
    requires |lines| >= 1 && forall k :: 0 <= k < |lines| ==> '\n' !in lines[k]
    ensures lines <= Split(Join(lines, '\n') + "\n" + note, '\n')
  {
    var text := Join(lines, '\n');
    SplitJoin(lines, '\n');
    SplitConcat(text, "\n" + note, '\n');
    assert text + "\n" + note == text + ("\n" + note);
    assert ("\n" + note)[1..] == note;
    var tail := Split("\n" + note, '\n');
    assert tail[0] == "";
    assert lines[|lines| - 1] + "" == lines[|lines| - 1];
    assert lines[..|lines| - 1] + [lines[|lines| - 1]] == lines;
  }

  /** The overruled verdict file reads as FAIL, so the next plan does not see a PASS. */
  lemma ForcedVerdictFails(text: string, note: string)
    requires ParseVerdict(text) == Pass
    ensures ParseVerdict(ForceFail(text, note)) == Fail
  {
    var lines := Split(text, '\n');
    var forced := lines[FirstContent(lines) := "FAIL"];
    ForcedLines(forced, note);
    FailLine();
    MarkFirst(lines, "FAIL", Split(ForceFail(text, note), '\n'));
  }

  // ---------- what reads PASS ----------

  predicate IsMark(c: char) {
    c == '#' || c == '>' || c == '*' || c == '-' || IsSpace(c)
  }

  predicate AllMarks(s: string) {
    forall k :: 0 <= k < |s| ==> IsMark(s[k])
  }

  lemma {:induction false} MarksGo(marks: string, content: string)
    requires AllMarks(marks) && (content == "" || !IsMark(content[0]))
    ensures DropMarks(marks + content) == content
  {
    if marks == "" {
      assert marks + content == content;
    } else {
      assert (marks + content)[1..] == marks[1..] + content;
      MarksGo(marks[1..], content);
    }
  }

  lemma MarksOnly(marks: string)
    requires AllMarks(marks)
    ensures Content(marks) == ""
  {
    assert marks + "" == marks;
    MarksGo(marks, "");
  }

  /** The word PASS at the beginning, in any case. */
  predicate BeginsPass(s: string) {
    |s| >= 4 && s[0] in "Pp" && s[1] in "Aa" && s[2] in "Ss" && s[3] in "Ss"
  }

  lemma {:induction false} TrimEndKeepsPass(s: string)
    ensures BeginsPass(TrimEnd(s)) <==> BeginsPass(s)
  {
    if s != "" && IsSpace(s[|s| - 1]) {
      var init := s[..|s| - 1];
      TrimEndKeepsPass(init);
      assert s == init + [s[|s| - 1]];
    }
  }

  lemma ContentPasses(marks: string, content: string)
    requires AllMarks(marks) && content != "" && !IsMark(content[0])
    ensures Content(marks + content) != "" && (SaysPass(Content(marks + content)) <==> BeginsPass(content))
  {
    MarksGo(marks, content);
    assert TrimStart(content) == content;
    TrimEndHead(content);
    TrimEndKeepsPass(content);
  }

  lemma {:induction false} FirstAfterMarks(junk: seq<string>, line: string, rest: seq<string>)
    requires (forall k :: 0 <= k < |junk| ==> AllMarks(junk[k])) && Content(line) != ""
    ensures FirstContent(junk + [line] + rest) == |junk|
  {
    var all := junk + [line] + rest;
    if junk == [] {
      assert all[0] == line;
    } else {
      MarksOnly(junk[0]);
      assert all[1..] == junk[1..] + [line] + rest;
      FirstAfterMarks(junk[1..], line, rest);
    }
  }

  predicate NoBreaks(lines: seq<string>) {
    forall k :: 0 <= k < |lines| ==> '\n' !in lines[k]
  }

  lemma JoinedVerdict(lines: seq<string>, i: nat)
    requires NoBreaks(lines) && i == FirstContent(lines) < |lines|
    ensures ParseVerdict(Join(lines, '\n')) == Pass <==> SaysPass(Content(lines[i]))
  {
    SplitJoin(lines, '\n');
  }

  lemma PlacedLine(junk: seq<string>, line: string, rest: seq<string>)
    requires NoBreaks(junk) && '\n' !in line && NoBreaks(rest)
    ensures NoBreaks(junk + [line] + rest) && (junk + [line] + rest)[|junk|] == line
  {
  }

  /**
   A verdict file reads PASS exactly if its first line that is more than marks and white space begins, after its own
   marks, with the word PASS in any case.
   */
  lemma PassMeans(junk: seq<string>, marks: string, content: string, rest: seq<string>)
    requires NoBreaks(junk) && forall k :: 0 <= k < |junk| ==> AllMarks(junk[k])
    requires AllMarks(marks) && content != "" && !IsMark(content[0]) && '\n' !in marks + content && NoBreaks(rest)
    ensures ParseVerdict(Join(junk + [marks + content] + rest, '\n')) == Pass <==> BeginsPass(content)
  {
    ContentPasses(marks, content);
    FirstAfterMarks(junk, marks + content, rest);
    PlacedLine(junk, marks + content, rest);
    JoinedVerdict(junk + [marks + content] + rest, |junk|);
  }

  /** A file of marks and white space only is a FAIL. */
  lemma {:induction false} MarksFail(junk: seq<string>)
    requires junk != [] && NoBreaks(junk) && forall k :: 0 <= k < |junk| ==> AllMarks(junk[k])
    ensures ParseVerdict(Join(junk, '\n')) == Fail
  {
    SplitJoin(junk, '\n');
    var i := FirstContent(junk);
    assert i < |junk| ==> AllMarks(junk[i]);
    forall k | 0 <= k < |junk| { MarksOnly(junk[k]); }
  }
}
