/**
 Rows that a run of the board loop can never finish. A board may hold several rows with one id; a
 finish always writes the first of them.
 */
module Stuck {
  import opened Text
  import opened Kanban
  import opened Claiming
  import opened Drain

  // ---------- stuck rows ----------

  /** Row i waits for row j: a known blocker of i that is not Done. */
  ghost predicate WaitsFor(rows: seq<Row>, i: nat, j: nat)
    requires i < |rows|
  {
    exists b :: b in Blockers(rows[i]) && HoldsBack(rows, b) && FindRow(rows, b) == j
  }

  /** Only something outside this loop can move the row: a human, or the process that leases it. */
  predicate Obstacle(row: Row, leases: Leases) {
    Leased(leases, row) || row.status !in [BACKLOG, IN_PROGRESS, DONE]
  }

  /** A row that is not Done and is an obstacle, or a Backlog row that waits for another row of s. */
  ghost predicate HeldIn(rows: seq<Row>, leases: Leases, s: set<nat>, k: nat)
    requires k < |rows|
  {
    && rows[k].status != DONE
    && (Obstacle(rows[k], leases) || (rows[k].status == BACKLOG && exists j :: j in s && WaitsFor(rows, k, j)))
  }

  /** Rows that hold each other back for ever. */
  ghost predicate StuckSet(rows: seq<Row>, leases: Leases, s: set<nat>) {
    forall k :: k in s ==> k < |rows| && HeldIn(rows, leases, s, k)
  }

  ghost predicate StuckAt(rows: seq<Row>, leases: Leases, k: nat) {
    exists s :: StuckSet(rows, leases, s) && k in s
  }

  /** An open row that is not the first with its id: a claim may take it, but no finish writes it. */
  predicate OpenSecond(rows: seq<Row>, leases: Leases, k: nat) {
    k < |rows| && Open(rows[k], leases) && FindRow(rows, rows[k].id) != k
  }

  /** Every open row is the first with its id, or among rows that hold each other back. */
  ghost predicate SecondsIn(rows: seq<Row>, leases: Leases, s: set<nat>) {
    StuckSet(rows, leases, s) && forall k: nat :: OpenSecond(rows, leases, k) ==> k in s
  }

  /** What the loop needs of a board in order to end. */
  ghost predicate SecondsAreStuck(rows: seq<Row>, leases: Leases) {
    exists s :: SecondsIn(rows, leases, s)
  }

  lemma StuckIsNotTaken(rows: seq<Row>, leases: Leases, s: set<nat>, i: nat)
    requires StuckSet(rows, leases, s) && i in s
    ensures !Resumable(rows[i], leases) && !Startable(rows[i], rows, leases)
  {
  }

  lemma WaitsForStays(rows: seq<Row>, out: seq<Row>, i: nat, j: nat)
    requires SameShape(rows, out) && i < |rows| && j < |rows| && rows[j] == out[j]
    requires WaitsFor(rows, i, j)
    ensures WaitsFor(out, i, j)
  {
    var b :| b in Blockers(rows[i]) && HoldsBack(rows, b) && FindRow(rows, b) == j;
    SameIdsFindRow(rows, out, b);
    assert b in Blockers(out[i]) && HoldsBack(out, b);
  }

  lemma StuckSetStays(rows: seq<Row>, out: seq<Row>, leases: Leases, s: set<nat>)
    requires SameShape(rows, out) && StuckSet(rows, leases, s)
    requires forall k :: k in s ==> rows[k] == out[k]
    ensures StuckSet(out, leases, s)
  {
    forall k | k in s
      ensures HeldIn(out, leases, s, k)
    {
      if !Obstacle(rows[k], leases) {
        var j :| j in s && WaitsFor(rows, k, j);
        WaitsForStays(rows, out, k, j);
      }
    }
  }

  // ---------- stuck rows stay as they are ----------

  ghost predicate Untouched(job: Job, board: Board, s: set<nat>, n: nat) {
    forall k :: k in s ==> k < |board.rows| && RowAfter(job, board, n, k) == board.rows[k]
  }

  /** The index of the row a round takes; it is the first with its id. */
  lemma TakenIndex(job: Job, board: Board, s: set<nat>, n: nat) returns (i: nat)
    requires SecondsIn(board.rows, job.leases, s) && Untouched(job, board, s, n) && Taken(job, board, n).Some?
    ensures i < |board.rows| && i !in s && RowAfter(job, board, n, i) == Taken(job, board, n).value
    ensures FindRow(board.rows, board.rows[i].id) == i
  {
    var rows := RowsAfter(job, board, n);
    ClaimedRowExact(rows, job.leases);
    ShapeStays(job, board, n);
    i :| i < |rows| && rows[i] == Taken(job, board, n).value;
    StuckSetStays(board.rows, rows, job.leases, s);
    if i in s { StuckIsNotTaken(rows, job.leases, s, i); }
    if FindRow(board.rows, board.rows[i].id) != i {
      SecondRowsStay(job, board, n, i);
      assert OpenSecond(board.rows, job.leases, i);
    }
  }

  lemma StuckRound(job: Job, board: Board, s: set<nat>, n: nat)
    requires SecondsIn(board.rows, job.leases, s) && Untouched(job, board, s, n)
    ensures TakesFirst(job, board, n) && Untouched(job, board, s, n + 1)
  {
    if Taken(job, board, n).Some? {
      var i := TakenIndex(job, board, s, n);
      ShapeStays(job, board, n);
      FindStays(job, board, n, board.rows[i].id);
    }
    forall k | k in s
      ensures RowAfter(job, board, n + 1, k) == board.rows[k]
    {
      UntouchedInRound(job, board, n, k);
    }
  }

  /** If all open rows are first or stuck, rounds write the rows they take, and none that is stuck. */
  lemma StuckStays(job: Job, board: Board, s: set<nat>, n: nat)
    requires SecondsIn(board.rows, job.leases, s)
    ensures TakesFirst(job, board, n) && Untouched(job, board, s, n)
  {
    forall j: nat
      ensures Untouched(job, board, s, j) ==> Untouched(job, board, s, j + 1)
    {
      if Untouched(job, board, s, j) { StuckRound(job, board, s, j); }
    }
    AcrossRounds(j => Untouched(job, board, s, j), (a, b) => a ==> b, 0, n);
    StuckRound(job, board, s, n);
  }
}
