/** Board rows and the task-selection rules that read them. */
module Kanban {
  import opened Text

  /**
   A row as `toTasks` sees it: the trimmed text under each built-in column, "" where the board
   lacks the column, and the cells of any further columns.
   */
  datatype Row = Row(
    id: string,
    status: string,
    title: string,
    description: string,
    priority: string,
    owner: string,
    blocks: string,
    blockedBy: string,
    planFile: string,
    extra: map<string, string>
  )

  /** A board document: its columns, its valid statuses and its data rows. */
  datatype Board = Board(headers: seq<string>, statuses: seq<string>, rows: seq<Row>)

  const SENTINEL := "-"
  const BACKLOG := "Backlog"
  const IN_PROGRESS := "In Progress"
  const BLOCKED := "Blocked"
  const DONE := "Done"

  predicate Blank(value: string) {
    Trim(value) == "" || Trim(value) == SENTINEL
  }

  /** `T<integer>` in either case is that integer; anything else is 0. */
  function NumericId(id: string): nat {
    var t := Trim(id);
    if |t| >= 2 && (t[0] == 'T' || t[0] == 't') && AllDigits(t[1..]) then DigitsValue(t[1..]) else 0
  }

  /** Index of the first row with this id, or |rows|. */
  function FindRow(rows: seq<Row>, id: string): (i: nat)
    ensures i <= |rows|
    ensures i < |rows| ==> rows[i].id == id
    ensures forall k :: 0 <= k < i ==> rows[k].id != id
  {
    if rows == [] || rows[0].id == id then 0 else 1 + FindRow(rows[1..], id)
  }

  predicate Known(rows: seq<Row>, id: string) {
    FindRow(rows, id) < |rows|
  }

  lemma {:induction false} SameIdsFindRow(a: seq<Row>, b: seq<Row>, id: string)
    requires |a| == |b| && forall k :: 0 <= k < |a| ==> a[k].id == b[k].id
    ensures FindRow(a, id) == FindRow(b, id)
  {
    if a != [] { SameIdsFindRow(a[1..], b[1..], id); }
  }

  /** The same ids and blockers, whatever the statuses. */
  predicate SameEdges(rows: seq<Row>, other: seq<Row>) {
    && |other| == |rows|
    && forall k :: 0 <= k < |rows| ==> other[k].id == rows[k].id && other[k].blockedBy == rows[k].blockedBy
  }

  /** No other row has the id of this one. */
  predicate OnlyRow(rows: seq<Row>, k: nat)
    requires k < |rows|
  {
    forall j :: 0 <= j < |rows| && rows[j].id == rows[k].id ==> j == k
  }

  /** Every row is the first with its id. */
  predicate AllFirst(rows: seq<Row>) {
    forall k :: 0 <= k < |rows| ==> FindRow(rows, rows[k].id) == k
  }

  /** So no id is on two rows. */
  lemma AllFirstOnly(rows: seq<Row>)
    ensures AllFirst(rows) <==> forall k: nat :: k < |rows| ==> OnlyRow(rows, k)
  {
    if AllFirst(rows) {
      forall k: nat, j: nat | k < |rows| && j < |rows| && rows[j].id == rows[k].id
        ensures j == k
      {
        assert FindRow(rows, rows[j].id) == j && FindRow(rows, rows[k].id) == k;
      }
    } else {
      var k: nat :| k < |rows| && FindRow(rows, rows[k].id) != k;
      assert !OnlyRow(rows, k);
    }
  }

  // ---------- dependency gating ----------

  predicate IsSeparator(c: char) {
    c == ',' || IsSpace(c)
  }

  function WordLength(s: string): (n: nat)
    ensures n <= |s|
  {
    if s == "" || IsSeparator(s[0]) then 0 else 1 + WordLength(s[1..])
  }

  /** `s.split(/[,\s]+/).filter(Boolean)`. */
  function Words(s: string): seq<string>
    decreases |s|
  {
    if s == "" then []
    else if IsSeparator(s[0]) then Words(s[1..])
    else [s[..WordLength(s)]] + Words(s[WordLength(s)..])
  }

  function Blockers(row: Row): seq<string> {
    if Blank(row.blockedBy) then [] else Words(row.blockedBy)
  }

  /** A blocker holds a task back when the board knows it and it is not Done. */
  predicate HoldsBack(rows: seq<Row>, blocker: string) {
    Known(rows, blocker) && rows[FindRow(rows, blocker)].status != DONE
  }

  predicate IsUnblocked(row: Row, rows: seq<Row>) {
    forall b :: b in Blockers(row) ==> !HoldsBack(rows, b)
  }

  predicate IsCandidate(row: Row, rows: seq<Row>) {
    row.status == BACKLOG && IsUnblocked(row, rows)
  }

  // ---------- claim order ----------

  function PriorityRank(row: Row): nat {
    var p := row.priority;
    if p == "High" then 0 else if p == "Medium" then 1 else if p == "Low" then 2 else 999
  }

  /** Strictly earlier in claim order: by priority, then by numeric id. */
  predicate Before(a: Row, b: Row) {
    || PriorityRank(a) < PriorityRank(b)
    || (PriorityRank(a) == PriorityRank(b) && NumericId(a.id) < NumericId(b.id))
  }

  function Insert(row: Row, sorted: seq<Row>): seq<Row> {
    if sorted == [] || !Before(sorted[0], row) then [row] + sorted
    else [sorted[0]] + Insert(row, sorted[1..])
  }

  /** The stable sort `Array.prototype.sort` does with the claim-order comparator. */
  function SortByClaimOrder(rows: seq<Row>): seq<Row> {
    if rows == [] then [] else Insert(rows[0], SortByClaimOrder(rows[1..]))
  }

  function CandidatesAmong(some: seq<Row>, rows: seq<Row>): seq<Row> {
    if some == [] then []
    else (if IsCandidate(some[0], rows) then [some[0]] else []) + CandidatesAmong(some[1..], rows)
  }

  function BacklogCandidates(rows: seq<Row>): seq<Row> {
    SortByClaimOrder(CandidatesAmong(rows, rows))
  }

  /** Same elements with the same multiplicities, nothing later strictly before anything earlier. */
  ghost predicate Ordered(rows: seq<Row>) {
    forall i, j :: 0 <= i < j < |rows| ==> !Before(rows[j], rows[i])
  }

  lemma {:induction false} InsertElements(row: Row, sorted: seq<Row>)
    ensures multiset(Insert(row, sorted)) == multiset(sorted) + multiset{row}
  {
    if sorted != [] && Before(sorted[0], row) {
      InsertElements(row, sorted[1..]);
      assert sorted == [sorted[0]] + sorted[1..];
    }
  }

  lemma {:induction false} InsertKeepsOrder(row: Row, sorted: seq<Row>)
    requires Ordered(sorted)
    ensures Ordered(Insert(row, sorted))
  {
    if sorted != [] && Before(sorted[0], row) {
      var head, rest := sorted[0], Insert(row, sorted[1..]);
      InsertKeepsOrder(row, sorted[1..]);
      InsertElements(row, sorted[1..]);
      forall j | 0 <= j < |rest|
        ensures !Before(rest[j], head)
      {
        assert rest[j] in multiset(rest);
        if rest[j] != row {
          assert rest[j] in sorted[1..];
        }
      }
      assert Insert(row, sorted) == [head] + rest;
    }
  }

  lemma {:induction false} SortOrders(rows: seq<Row>)
    ensures Ordered(SortByClaimOrder(rows))
  {
    if rows != [] {
      SortOrders(rows[1..]);
      InsertKeepsOrder(rows[0], SortByClaimOrder(rows[1..]));
    }
  }

  lemma {:induction false} SortPermutes(rows: seq<Row>)
    ensures multiset(SortByClaimOrder(rows)) == multiset(rows)
  {
    if rows != [] {
      SortPermutes(rows[1..]);
      InsertElements(rows[0], SortByClaimOrder(rows[1..]));
      assert rows == [rows[0]] + rows[1..];
    }
  }

  lemma {:induction false} CandidatesAreExact(some: seq<Row>, rows: seq<Row>)
    ensures forall r :: r in CandidatesAmong(some, rows) <==> r in some && IsCandidate(r, rows)
  {
    if some != [] {
      CandidatesAreExact(some[1..], rows);
      assert some == [some[0]] + some[1..];
    }
  }

  /** The candidate list holds exactly the unblocked Backlog rows, in claim order. */
  lemma BacklogCandidatesExact(rows: seq<Row>)
    ensures Ordered(BacklogCandidates(rows))
    ensures forall r :: r in BacklogCandidates(rows) <==> r in rows && IsCandidate(r, rows)
  {
    var some := CandidatesAmong(rows, rows);
    SortOrders(some);
    SortPermutes(some);
    CandidatesAreExact(rows, rows);
    forall r
      ensures r in BacklogCandidates(rows) <==> r in some
    {
      assert r in BacklogCandidates(rows) <==> r in multiset(BacklogCandidates(rows));
      assert r in some <==> r in multiset(some);
    }
  }

  /** The rows that come neither before nor after x in claim order. */
  function TiedWith(rows: seq<Row>, x: Row): seq<Row> {
    if rows == [] then []
    else (if Before(rows[0], x) || Before(x, rows[0]) then [] else [rows[0]]) + TiedWith(rows[1..], x)
  }

  lemma {:induction false} InsertTied(row: Row, sorted: seq<Row>, x: Row)
    ensures TiedWith(Insert(row, sorted), x) == TiedWith([row] + sorted, x)
  {
    assert ([row] + sorted)[1..] == sorted;
    if sorted != [] && Before(sorted[0], row) {
      var rest := Insert(row, sorted[1..]);
      InsertTied(row, sorted[1..], x);
      assert ([row] + sorted[1..])[1..] == sorted[1..] && ([sorted[0]] + rest)[1..] == rest;
    }
  }

  lemma {:induction false} SortKeepsTies(rows: seq<Row>, x: Row)
    ensures TiedWith(SortByClaimOrder(rows), x) == TiedWith(rows, x)
  {
    if rows != [] {
      SortKeepsTies(rows[1..], x);
      InsertTied(rows[0], SortByClaimOrder(rows[1..]), x);
      assert ([rows[0]] + SortByClaimOrder(rows[1..]))[1..] == SortByClaimOrder(rows[1..]);
    }
  }

  /** Each candidate is listed as often as it is on the board, and equal ones stay in board order. */
  lemma CandidatesAreStable(rows: seq<Row>, x: Row)
    ensures multiset(BacklogCandidates(rows)) == multiset(CandidatesAmong(rows, rows))
    ensures TiedWith(BacklogCandidates(rows), x) == TiedWith(CandidatesAmong(rows, rows), x)
  {
    SortPermutes(CandidatesAmong(rows, rows));
    SortKeepsTies(CandidatesAmong(rows, rows), x);
  }

  // ---------- status writes ----------

  /** `setCellText` on the Status cell of the first row with this id; no such row, no change. */
  function SetStatus(doc: Board, id: string, status: string): Board {
    var i := FindRow(doc.rows, id);
    if i < |doc.rows| then doc.(rows := doc.rows[i := doc.rows[i].(status := status)]) else doc
  }

  /** opFinish: the status, and the plan path when a blocked task has none. */
  function FinishDoc(doc: Board, id: string, status: string, planPath: string): Board {
    var i := FindRow(doc.rows, id);
    if i == |doc.rows| then doc
    else
      var row := doc.rows[i];
      var unplanned := status == BLOCKED && "Plan File" in doc.headers && Blank(row.planFile);
      var plan := if unplanned then planPath else row.planFile;
      doc.(rows := doc.rows[i := row.(status := status, planFile := plan)])
  }

  /** Row k is the first with this id. */
  predicate FirstWith(rows: seq<Row>, id: string, k: nat) {
    k < |rows| && rows[k].id == id && forall j :: 0 <= j < k ==> rows[j].id != id
  }

  lemma FirstWithIsFound(rows: seq<Row>, id: string)
    ensures forall k: nat :: FirstWith(rows, id, k) <==> k == FindRow(rows, id) < |rows|
  {
  }

  /** The cells of a finished row: the status, and the plan path if the row is Blocked and had none. */
  predicate HasFinished(headers: seq<string>, was: Row, row: Row, status: string, planPath: string) {
    && row.status == status
    && row.planFile == (if status == "Blocked" && "Plan File" in headers && Trim(was.planFile) in ["", "-"]
                        then planPath else was.planFile)
    && row == was.(status := row.status, planFile := row.planFile)
  }

  /** A finish writes the first row with the id and no other. */
  lemma FinishedCells(doc: Board, id: string, status: string, planPath: string)
    ensures var out := FinishDoc(doc, id, status, planPath);
            && out == doc.(rows := out.rows) && |out.rows| == |doc.rows|
            && forall k: nat :: k < |doc.rows| ==>
                 if FirstWith(doc.rows, id, k) then HasFinished(doc.headers, doc.rows[k], out.rows[k], status, planPath)
                 else out.rows[k] == doc.rows[k]
  {
    FirstWithIsFound(doc.rows, id);
  }
}
