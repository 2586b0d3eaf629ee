/** Which row a claim of the queue marks, among many processes, and when it is a blocked one. */
module MarkOrder {
  import opened BoardProtocol
  import opened BoardRecovery
  import opened BoardSafety
  import opened Kanban
  import opened LockNames
  import opened Text
  import Claiming
  import StartOrder

  /** The k-th completed section is a claim of the queue, written over a board with these ids and blockers. */
  ghost predicate Marks(file: string, board: Board, sch: Schedule, k: nat, rows: seq<Row>) {
    && Runs(file, board, sch) && k < |After(file, board, sch).log|
    && After(file, board, sch).log[k].Marked? && After(file, board, sch).log[k].queued
    && SameEdges(rows, Replay(board, After(file, board, sch).log[..k]).rows)
  }

  /** And the row it is written to was in Backlog with every known blocker Done. */
  ghost predicate MarksStartable(file: string, board: Board, sch: Schedule, k: nat, rows: seq<Row>)
    requires Marks(file, board, sch, k, rows)
  {
    FirstStartable(Replay(board, After(file, board, sch).log[..k]).rows, After(file, board, sch).log[k].id)
  }

  /** One process starts on the board and claims what the queue gives it. */
  lemma FirstClaim(file: string, board: Board, i: nat) returns (sch: Schedule)
    requires file != "" && i < |board.rows| && IN_PROGRESS in board.statuses && "Status" in board.headers
    requires Claiming.ClaimedRow(board.rows, {}) == Some(board.rows[i]) && board.rows[i].status != IN_PROGRESS
    ensures Runs(file, board, sch) && After(file, board, sch).log == [Marked(board.rows[i].id, true)]
    ensures After(file, board, sch).board == SetStatus(board, board.rows[i].id, IN_PROGRESS)
  {
    sch := Extend(file, board, [], 0, Spawn);
    assert LiveLeases(file, After(file, board, sch)) == {};
    sch := UndisturbedClaim(file, board, sch, 0, Claim, i);
  }

  /** Row j in Backlog and all others Done. */
  function Alone(rows: seq<Row>, j: nat): seq<Row> {
    seq(|rows|, i requires 0 <= i < |rows| => rows[i].(status := if i == j then BACKLOG else DONE))
  }

  lemma NotHeldBack(rows: seq<Row>, j: nat, b: string)
    requires j < |rows| && FindRow(rows, rows[j].id) != j
    requires forall i :: 0 <= i < |rows| && i != j ==> rows[i].status == DONE
    ensures !HoldsBack(rows, b)
  {
  }

  lemma SecondIsStartable(rows: seq<Row>, j: nat)
    requires j < |rows| && FindRow(rows, rows[j].id) != j && rows[j].status == BACKLOG
    requires forall i :: 0 <= i < |rows| && i != j ==> rows[i].status == DONE
    ensures Claiming.Startable(rows[j], rows, {})
  {
    forall b | b in Blockers(rows[j])
      ensures !HoldsBack(rows, b)
    {
      NotHeldBack(rows, j, b);
    }
  }

  /** If row j is not the first with its id, the queue takes it, and what it marks is not in Backlog. */
  lemma AloneIsTaken(rows: seq<Row>, j: nat)
    requires j < |rows| && FindRow(rows, rows[j].id) != j
    ensures var other := Alone(rows, j);
            && SameEdges(rows, other)
            && Claiming.ClaimedRow(other, {}) == Some(other[j]) && !FirstStartable(other, other[j].id)
  {
    var other := Alone(rows, j);
    SameIdsFindRow(rows, other, rows[j].id);
    SecondIsStartable(other, j);
    OnlyBacklogIsClaimed(other, j);
  }

  lemma OnlyBacklogIsClaimed(rows: seq<Row>, j: nat)
    requires j < |rows| && Claiming.Startable(rows[j], rows, {})
    requires forall i :: 0 <= i < |rows| && i != j ==> rows[i].status == DONE
    ensures Claiming.ClaimedRow(rows, {}) == Some(rows[j])
  {
    StartOrder.BestIsClaimed(rows, j);
  }

  lemma FirstIsMarked(file: string, board: Board, sch: Schedule, k: nat, rows: seq<Row>)
    requires file != "" && AllFirst(rows) && Marks(file, board, sch, k, rows)
    ensures MarksStartable(file, board, sch, k, rows)
  {
    QueueStartsUnblocked(file, board, sch, k);
    var there, id := Replay(board, After(file, board, sch).log[..k]).rows, After(file, board, sch).log[k].id;
    forall j | 0 <= j < |there|
      ensures FindRow(there, there[j].id) == j
    {
      SameIdsFindRow(rows, there, rows[j].id);
    }
    AllFirstOnly(there);
    assert OnlyRow(there, FindRow(there, id));
  }

  /**
   Among all processes and schedules, boards and statuses with these ids and blockers: the row that a claim of the queue
   marks is always in Backlog with every known blocker Done exactly if every row is the first with its id.
   */
  lemma MarksExactly(file: string, rows: seq<Row>)
    requires file != ""
    ensures (forall board, sch, k :: Marks(file, board, sch, k, rows) ==> MarksStartable(file, board, sch, k, rows))
            <==> AllFirst(rows)
  {
    if AllFirst(rows) {
      forall board, sch, k | Marks(file, board, sch, k, rows)
        ensures MarksStartable(file, board, sch, k, rows)
      {
        FirstIsMarked(file, board, sch, k, rows);
      }
    } else {
      var j: nat :| j < |rows| && FindRow(rows, rows[j].id) != j;
      var board := Board(["Status"], [IN_PROGRESS], Alone(rows, j));
      AloneIsTaken(rows, j);
      var sch := FirstClaim(file, board, j);
      assert After(file, board, sch).log[..0] == [];
      assert Marks(file, board, sch, 0, rows) && !MarksStartable(file, board, sch, 0, rows);
    }
  }

  /** The queue marks the T1 that waits for T2, while T2 is in Backlog. */
  lemma TwinsAreMarkedBlocked(file: string) returns (sch: Schedule)
    requires file != ""
    ensures Runs(file, StartOrder.TWINS, sch)
    ensures var rows, after := StartOrder.TWINS.rows, After(file, StartOrder.TWINS, sch).board.rows;
            && !IsUnblocked(rows[0], rows) && |after| == |rows|
            && rows[0].status == BACKLOG && after[0].status == IN_PROGRESS
  {
    StartOrder.TwinsAreBlocked();
    StartOrder.SecondTwinIsBest();
    sch := FirstClaim(file, StartOrder.TWINS, 1);
  }
}
