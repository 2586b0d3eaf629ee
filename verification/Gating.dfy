/** What a Blocked By cell says, as it is written on the board, and what it holds back. */
module Gating {
  import opened Text
  import opened Kanban
  import opened Claiming

  // ---------- names in a cell ----------

  predicate IsGap(gap: string) {
    forall k :: 0 <= k < |gap| ==> gap[k] == ',' || IsSpace(gap[k])
  }

  /** An id that a cell can name: without commas and white space. */
  predicate IsName(name: string) {
    name != "" && forall k :: 0 <= k < |name| ==> name[k] != ',' && !IsSpace(name[k])
  }

  /** Names with gaps before, between and after them. */
  function Laid(names: seq<string>, gaps: seq<string>): string
    requires |gaps| == |names| + 1
  {
    if names == [] then gaps[0] else gaps[0] + (names[0] + Laid(names[1..], gaps[1..]))
  }

  /** Between any two names there is some comma or white space. */
  predicate Separated(names: seq<string>, gaps: seq<string>) {
    && |gaps| == |names| + 1
    && (forall k :: 0 <= k < |names| ==> IsName(names[k]))
    && (forall k :: 0 <= k < |gaps| ==> IsGap(gaps[k]))
    && (forall k :: 1 <= k < |names| ==> gaps[k] != "")
  }

  lemma {:induction false} WordsAfterGap(gap: string, s: string)
    requires IsGap(gap)
    ensures Words(gap + s) == Words(s)
  {
    if gap == "" {
      assert gap + s == s;
    } else {
      assert (gap + s)[1..] == gap[1..] + s;
      WordsAfterGap(gap[1..], s);
    }
  }

  lemma {:induction false} WordEnds(name: string, rest: string)
    requires (forall k :: 0 <= k < |name| ==> !IsSeparator(name[k])) && (rest == "" || IsSeparator(rest[0]))
    ensures WordLength(name + rest) == |name|
  {
    if name == "" {
      assert name + rest == rest;
    } else {
      assert (name + rest)[1..] == name[1..] + rest;
      WordEnds(name[1..], rest);
    }
  }

  lemma WordsCons(name: string, rest: string)
    requires IsName(name) && (rest == "" || IsSeparator(rest[0]))
    ensures Words(name + rest) == [name] + Words(rest)
  {
    WordEnds(name, rest);
    assert (name + rest)[..|name|] == name && (name + rest)[|name|..] == rest;
  }

  /** A cell names exactly the names laid out in it. */
  lemma {:induction false} LaidWords(names: seq<string>, gaps: seq<string>)
    requires Separated(names, gaps)
    ensures Words(Laid(names, gaps)) == names
  {
    if names == [] {
      WordsAfterGap(gaps[0], "");
      assert gaps[0] + "" == gaps[0];
    } else {
      var rest := Laid(names[1..], gaps[1..]);
      LaidWords(names[1..], gaps[1..]);
      WordsCons(names[0], rest);
      WordsAfterGap(gaps[0], names[0] + rest);
    }
  }

  // ---------- blank cells ----------

  lemma {:induction false} WordsBeforeSpace(s: string, c: char)
    requires IsSpace(c)
    ensures Words(s + [c]) == Words(s)
    decreases |s|
  {
    if s == "" {
      assert s + [c] == [c] && [c][1..] == "";
    } else if IsSeparator(s[0]) {
      assert (s + [c])[1..] == s[1..] + [c];
      WordsBeforeSpace(s[1..], c);
    } else {
      var n := WordLength(s);
      WordLengthBefore(s, c);
      WordIsThere(s);
      assert (s + [c])[..n] == s[..n] && (s + [c])[n..] == s[n..] + [c];
      WordsBeforeSpace(s[n..], c);
    }
  }

  lemma {:induction false} WordIsThere(s: string)
    ensures s != "" && !IsSeparator(s[0]) ==> WordLength(s) > 0
  {
  }

  lemma {:induction false} WordLengthBefore(s: string, c: char)
    requires IsSpace(c)
    ensures WordLength(s + [c]) == WordLength(s)
  {
    if s != "" {
      assert (s + [c])[1..] == s[1..] + [c];
      WordLengthBefore(s[1..], c);
    }
  }

  lemma {:induction false} WordsOfTrimmedStart(s: string)
    ensures Words(TrimStart(s)) == Words(s)
  {
    if s != "" && IsSpace(s[0]) { WordsOfTrimmedStart(s[1..]); }
  }

  lemma {:induction false} WordsOfTrimmedEnd(s: string)
    ensures Words(TrimEnd(s)) == Words(s)
  {
    if s != "" && IsSpace(s[|s| - 1]) {
      WordsOfTrimmedEnd(s[..|s| - 1]);
      WordsBeforeSpace(s[..|s| - 1], s[|s| - 1]);
      assert s == s[..|s| - 1] + [s[|s| - 1]];
    }
  }

  /** A blank cell names nothing, or `-`. */
  lemma BlankNames(s: string)
    requires Blank(s)
    ensures Words(s) == [] || Words(s) == ["-"]
  {
    WordsOfTrimmedStart(s);
    WordsOfTrimmedEnd(TrimStart(s));
    if Trim(s) != "" {
      assert "-"[..1] == "-" && "-"[1..] == "";
    }
  }

  /** The blockers of a row are the names written in its cell. */
  lemma BlockersAreNames(row: Row, names: seq<string>, gaps: seq<string>)
    requires Separated(names, gaps) && names != ["-"] && row.blockedBy == Laid(names, gaps)
    ensures Blockers(row) == names
  {
    LaidWords(names, gaps);
    if Blank(row.blockedBy) { BlankNames(row.blockedBy); }
  }

  // ---------- what the names hold back ----------

  /** Some name is the id of a row, and the first such row is not Done. */
  predicate SomeNotDone(rows: seq<Row>, names: seq<string>) {
    exists i, j :: 0 <= i < |names| && 0 <= j < |rows| && FirstWith(rows, names[i], j) && rows[j].status != "Done"
  }

  lemma HeldByNames(rows: seq<Row>, row: Row, names: seq<string>)
    requires Blockers(row) == names
    ensures IsUnblocked(row, rows) <==> !SomeNotDone(rows, names)
  {
    forall i | 0 <= i < |names|
      ensures HoldsBack(rows, names[i]) <==>
              exists j :: 0 <= j < |rows| && FirstWith(rows, names[i], j) && rows[j].status != "Done"
    {
      FirstWithIsFound(rows, names[i]);
      if HoldsBack(rows, names[i]) {
        assert FirstWith(rows, names[i], FindRow(rows, names[i]));
      }
    }
  }

  /**
   A Backlog row is claimed by nobody while the first row of some name in its Blocked By cell is not Done, and is among
   the candidates as soon as there is none.
   */
  lemma NamesGate(rows: seq<Row>, leases: Leases, k: nat, names: seq<string>, gaps: seq<string>)
    requires k < |rows| && rows[k].status == "Backlog"
    requires Separated(names, gaps) && names != ["-"] && rows[k].blockedBy == Laid(names, gaps)
    ensures SomeNotDone(rows, names) ==> ClaimedRow(rows, leases) != Some(rows[k])
    ensures rows[k] in BacklogCandidates(rows) <==> !SomeNotDone(rows, names)
  {
    BlockersAreNames(rows[k], names, gaps);
    HeldByNames(rows, rows[k], names);
    ClaimedRowExact(rows, leases);
    BacklogCandidatesExact(rows);
  }

  // ---------- priorities ----------

  /** The first priority comes before the other: High, Medium, Low, and then all other texts alike. */
  predicate Outranks(priority: string, other: string) {
    || (priority == "High" && other != "High")
    || (priority == "Medium" && other != "High" && other != "Medium")
    || (priority == "Low" && other != "High" && other != "Medium" && other != "Low")
  }

  lemma OutranksIsBefore(a: Row, b: Row)
    ensures Outranks(a.priority, b.priority) ==> Before(a, b)
    ensures !Outranks(a.priority, b.priority) && !Outranks(b.priority, a.priority) ==>
              (Before(a, b) <==> NumericId(a.id) < NumericId(b.id))
  {
  }

  /**
   When nothing is to be resumed, no unleased candidate has a higher priority than the row that is claimed, and among
   those of its priority none has a smaller number; priorities other than High, Medium and Low come last, as one.
   */
  lemma ClaimedByPriority(rows: seq<Row>, leases: Leases, better: Row)
    requires forall row :: row in rows ==> !Resumable(row, leases)
    requires better in rows && Startable(better, rows, leases)
    ensures var claimed := ClaimedRow(rows, leases);
            && claimed.Some?
            && !Outranks(better.priority, claimed.value.priority)
            && (!Outranks(claimed.value.priority, better.priority) ==>
                  NumericId(claimed.value.id) <= NumericId(better.id))
  {
    ClaimStartsTheBest(rows, leases, better);
    OutranksIsBefore(better, ClaimedRow(rows, leases).value);
  }

  /** The number of an id is what follows its T. */
  lemma NumberOfId(n: nat)
    ensures NumericId("T" + Decimal(n)) == n == NumericId("t" + Decimal(n))
  {
    var upper, lower, digits := "T" + Decimal(n), "t" + Decimal(n), Decimal(n);
    DecimalValue(n);
    assert upper[1..] == digits == lower[1..];
    assert IsDigit(digits[|digits| - 1]) && upper[|upper| - 1] == lower[|lower| - 1] == digits[|digits| - 1];
    TrimPlain(upper);
    TrimPlain(lower);
  }
}
