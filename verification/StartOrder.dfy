/**
 In what order runs of the board loop start tasks, and which rows they may change. A claim takes a row, but what it
 marks and what a finish writes is the first row with its id.
 */
module StartOrder {
  import opened Text
  import opened Kanban
  import opened Claiming
  import opened Drain
  import opened DrainEnds
  import opened Gating
  import opened Stuck

  // ---------- rows that rounds write only when they took them ----------

  /** Row k is never written, or has its id alone. */
  predicate HasOwnId(rows: seq<Row>, k: nat)
    requires k < |rows|
  {
    FindRow(rows, rows[k].id) != k || OnlyRow(rows, k)
  }

  lemma OnlyRowIsTaken(job: Job, board: Board, n: nat, k: nat)
    requires k < |board.rows| && OnlyRow(board.rows, k)
    ensures WritesTaken(job, board, n, k)
  {
    if Touches(job, board, n, k) {
      var rows := RowsAfter(job, board, n);
      ClaimedRowExact(rows, job.leases);
      ShapeStays(job, board, n);
      var i :| 0 <= i < |rows| && rows[i] == Taken(job, board, n).value;
      assert board.rows[i].id == rows[i].id == board.rows[k].id;
    }
  }

  /** What keeps rounds from writing row k for another one: its id, or second rows that no round can take. */
  ghost predicate IsOwn(rows: seq<Row>, leases: Leases, k: nat)
    requires k < |rows|
  {
    HasOwnId(rows, k) || SecondsAreStuck(rows, leases)
  }

  lemma OwnIsTaken(job: Job, board: Board, n: nat, k: nat)
    requires k < |board.rows| && IsOwn(board.rows, job.leases, k)
    ensures WritesTaken(job, board, n, k)
  {
    if OnlyRow(board.rows, k) {
      OnlyRowIsTaken(job, board, n, k);
    } else if SecondsAreStuck(board.rows, job.leases) {
      RoundsWriteWhatTheyTake(job, board);
      FirstIsTaken(job, board, n, k);
    }
  }

  /**
   Starting order. A row that left Backlog did so in a round that took a row with its id. If that can only have been
   the row itself, it was taken from Backlog with every known blocker Done; and a row without known blockers is always
   unblocked.
   */
  lemma RunStartsInOrder(job: Job, board: Board, n: nat, k: nat) returns (j: nat)
    requires k < |board.rows| && board.rows[k].status == BACKLOG && RowAfter(job, board, n, k).status != BACKLOG
    ensures j < n && LeavesBacklog(job, board, j, k) && Touches(job, board, j, k)
    ensures IsOwn(board.rows, job.leases, k) ==> StartsRow(job, board, j, k)
  {
    j := BacklogRound(job, board, n, k);
    LeavesWhenTouched(job, board, j, k);
    if IsOwn(board.rows, job.leases, k) { OwnIsTaken(job, board, j, k); }
  }

  /** A row that is started from Backlog finds the first row of every name in its Blocked By cell Done. */
  lemma StartsAfterNames(job: Job, board: Board, n: nat, k: nat, names: seq<string>, gaps: seq<string>)
    requires k < |board.rows| && StartsRow(job, board, n, k)
    requires Separated(names, gaps) && names != ["-"] && board.rows[k].blockedBy == Laid(names, gaps)
    ensures forall i, j :: 0 <= i < |names| && 0 <= j < |board.rows| && FirstWith(board.rows, names[i], j) ==>
              RowAfter(job, board, n, j).status == "Done"
  {
    var rows := RowsAfter(job, board, n);
    ShapeStays(job, board, n);
    BlockersAreNames(rows[k], names, gaps);
    HeldByNames(rows, rows[k], names);
    forall i, j | 0 <= i < |names| && 0 <= j < |rows| && FirstWith(board.rows, names[i], j)
      ensures FirstWith(rows, names[i], j)
    {
    }
  }

  /** Between any two moments of a run such a row only moves towards its end, and only if it was open. */
  lemma RunEvolves(job: Job, board: Board, i: nat, n: nat, k: nat)
    requires i <= n && k < |board.rows| && IsOwn(board.rows, job.leases, k)
    ensures Evolved(RowAfter(job, board, i, k), RowAfter(job, board, n, k), job.leases,
                    FailedIn(job, i, n), RaisedIn(job, i, n))
  {
    forall j | i <= j < n
      ensures WritesTaken(job, board, j, k)
    {
      OwnIsTaken(job, board, j, k);
    }
    RowEvolves(job, board, i, n, k);
  }

  // ---------- a second row is taken for the first ----------

  /** Row j In Progress, the rows of s with this status, and all others Done. */
  function Waiting(rows: seq<Row>, j: nat, s: set<nat>, status: string): seq<Row> {
    seq(|rows|, i requires 0 <= i < |rows| =>
      rows[i].(status := if i == j then IN_PROGRESS else if i in s then status else DONE))
  }

  /** A job whose first task is found ended DONE. */
  ghost predicate FirstGood(job: Job) {
    job.leases == {} && Outcomes(job, 0) == Ended(true)
  }

  const GOOD := Job(Options(true, false, false, false, None), {},
                    World(n => Answer(Some(true), true, Some(true), true), n => false, p => p))

  lemma WaitingIsTaken(rows: seq<Row>, j: nat, s: set<nat>, status: string)
    requires j < |rows| && j !in s && status != IN_PROGRESS
    ensures SameEdges(rows, Waiting(rows, j, s, status))
    ensures ClaimedRow(Waiting(rows, j, s, status), {}) == Some(Waiting(rows, j, s, status)[j])
  {
    var other := Waiting(rows, j, s, status);
    assert forall i :: 0 <= i < j ==> !Resumable(other[i], {});
    ClaimResumesTheFirst(other, {}, j);
  }

  lemma FirstRound(job: Job, board: Board, r: Row, k: nat)
    requires Outcomes(job, 0) == Ended(true) && ClaimedRow(board.rows, job.leases) == Some(r)
    requires FindRow(board.rows, r.id) == k < |board.rows|
    ensures Taken(job, board, 0) == Some(r) && RowAfter(job, board, 1, k).status == DONE
  {
    assert BoardAfter(job, board, 0) == board && BoardAfter(job, board, 1) == NextBoard(job, board, 0);
    var f := RoundChanges(job, board, 0);
  }

  /** Row k is the first with its id and row j another one: the round takes j and finishes k. */
  lemma SecondIsTaken(job: Job, board: Board, rows: seq<Row>, k: nat, j: nat, s: set<nat>, status: string)
    requires FirstGood(job) && k < |rows| && j < |rows| && k != j && rows[j].id == rows[k].id
    requires FindRow(rows, rows[k].id) == k && j !in s && status != IN_PROGRESS
    requires board.rows == Waiting(rows, j, s, status)
    ensures SameEdges(rows, board.rows) && Taken(job, board, 0) == Some(board.rows[j])
    ensures RowAfter(job, board, 1, k).status == DONE
  {
    WaitingIsTaken(rows, j, s, status);
    SameIdsFindRow(rows, board.rows, rows[k].id);
    FirstRound(job, board, board.rows[j], k);
  }

  // ---------- the exact conditions ----------

  ghost predicate StartsItself(job: Job, board: Board, k: nat)
    requires k < |board.rows|
  {
    forall n: nat :: LeavesBacklog(job, board, n, k) ==> StartsRow(job, board, n, k)
  }

  lemma SecondRow(rows: seq<Row>, k: nat) returns (j: nat)
    requires k < |rows| && !HasOwnId(rows, k)
    ensures j < |rows| && j != k && rows[j].id == rows[k].id && FindRow(rows, rows[k].id) == k
  {
    j :| j < |rows| && j != k && rows[j].id == rows[k].id;
  }

  /** Whatever the statuses and leases and the outside, row k only leaves Backlog by being taken, unblocked. */
  ghost predicate AlwaysStartsItself(rows: seq<Row>, k: nat)
    requires k < |rows|
  {
    forall job, board: Board :: SameEdges(rows, board.rows) ==> StartsItself(job, board, k)
  }

  /** That is so exactly if the row is never written, or no other row has its id. */
  lemma OrderExactly(rows: seq<Row>, k: nat)
    requires k < |rows|
    ensures AlwaysStartsItself(rows, k) <==> HasOwnId(rows, k)
  {
    if HasOwnId(rows, k) {
      forall job, board: Board | SameEdges(rows, board.rows)
        ensures StartsItself(job, board, k)
      {
        OwnIdStays(rows, board.rows, k);
        forall n: nat | LeavesBacklog(job, board, n, k)
          ensures StartsRow(job, board, n, k)
        {
          LeavesWhenTouched(job, board, n, k);
          OwnIsTaken(job, board, n, k);
        }
      }
    } else {
      var j := SecondRow(rows, k);
      var board := Board([], [], Waiting(rows, j, {k}, BACKLOG));
      SecondIsTaken(GOOD, board, rows, k, j, {k}, BACKLOG);
      assert LeavesBacklog(GOOD, board, 0, k) && !StartsRow(GOOD, board, 0, k);
      assert !StartsItself(GOOD, board, k);
    }
  }

  lemma OwnIdStays(rows: seq<Row>, other: seq<Row>, k: nat)
    requires k < |rows| && SameEdges(rows, other)
    ensures HasOwnId(other, k) <==> HasOwnId(rows, k)
  {
    SameIdsFindRow(rows, other, rows[k].id);
  }

  predicate NoKnownBlocker(rows: seq<Row>, k: nat)
    requires k < |rows|
  {
    forall b :: b in Blockers(rows[k]) ==> !Known(rows, b)
  }

  ghost predicate LeavesUnblocked(job: Job, board: Board, k: nat)
    requires k < |board.rows|
  {
    forall n: nat ::
      LeavesBacklog(job, board, n, k) ==> IsUnblocked(RowAfter(job, board, n, k), RowsAfter(job, board, n))
  }

  lemma NoBlockerStays(job: Job, board: Board, rows: seq<Row>, n: nat, k: nat)
    requires k < |rows| && SameEdges(rows, board.rows) && NoKnownBlocker(rows, k)
    ensures IsUnblocked(RowAfter(job, board, n, k), RowsAfter(job, board, n))
  {
    ShapeStays(job, board, n);
    forall b | b in Blockers(RowAfter(job, board, n, k))
      ensures !HoldsBack(RowsAfter(job, board, n), b)
    {
      SameIdsFindRow(rows, board.rows, b);
      FindStays(job, board, n, b);
      assert b in Blockers(rows[k]);
    }
  }

  lemma BlockedTwin(rows: seq<Row>, k: nat, j: nat, b: string)
    requires k < |rows| && j < |rows| && k != j && rows[j].id == rows[k].id && FindRow(rows, rows[k].id) == k
    requires b in Blockers(rows[k]) && Known(rows, b)
    ensures var board := Board([], [], Waiting(rows, j, {k, FindRow(rows, b)}, BACKLOG));
            SameEdges(rows, board.rows) && !LeavesUnblocked(GOOD, board, k)
  {
    var m := FindRow(rows, b);
    var board := Board([], [], Waiting(rows, j, {k, m}, BACKLOG));
    SecondIsTaken(GOOD, board, rows, k, j, {k, m}, BACKLOG);
    SameIdsFindRow(rows, board.rows, b);
    assert b in Blockers(board.rows[k]) && HoldsBack(board.rows, b);
    assert LeavesBacklog(GOOD, board, 0, k) && !IsUnblocked(RowAfter(GOOD, board, 0, k), RowsAfter(GOOD, board, 0));
  }

  /**
   A row never leaves Backlog while a known blocker of it is not Done, whatever the statuses and leases, exactly if its
   id is its own or it has no known blockers.
   */
  lemma UnblockedExactly(rows: seq<Row>, k: nat)
    requires k < |rows|
    ensures (forall job, board: Board :: SameEdges(rows, board.rows) ==> LeavesUnblocked(job, board, k))
            <==> HasOwnId(rows, k) || NoKnownBlocker(rows, k)
  {
    if HasOwnId(rows, k) {
      OrderExactly(rows, k);
      forall job, board: Board | SameEdges(rows, board.rows)
        ensures LeavesUnblocked(job, board, k)
      {
        assert StartsItself(job, board, k);
      }
    } else if NoKnownBlocker(rows, k) {
      forall job, board: Board | SameEdges(rows, board.rows)
        ensures LeavesUnblocked(job, board, k)
      {
        forall n: nat ensures IsUnblocked(RowAfter(job, board, n, k), RowsAfter(job, board, n)) {
          NoBlockerStays(job, board, rows, n, k);
        }
      }
    } else {
      var j := SecondRow(rows, k);
      var b :| b in Blockers(rows[k]) && Known(rows, b);
      BlockedTwin(rows, k, j, b);
    }
  }

  ghost predicate AlwaysEvolves(job: Job, board: Board, k: nat)
    requires k < |board.rows|
  {
    forall i: nat, n: nat :: i <= n ==>
      Evolved(RowAfter(job, board, i, k), RowAfter(job, board, n, k), job.leases,
              FailedIn(job, i, n), RaisedIn(job, i, n))
  }

  /** Whatever the statuses, rounds only move an open row, and towards its end, exactly if its id is its own. */
  lemma EvolvesExactly(rows: seq<Row>, k: nat)
    requires k < |rows|
    ensures (forall job, board: Board :: SameEdges(rows, board.rows) ==> AlwaysEvolves(job, board, k))
            <==> HasOwnId(rows, k)
  {
    if HasOwnId(rows, k) {
      forall job, board: Board | SameEdges(rows, board.rows)
        ensures AlwaysEvolves(job, board, k)
      {
        OwnIdStays(rows, board.rows, k);
        forall i: nat, n: nat | i <= n
          ensures Evolved(RowAfter(job, board, i, k), RowAfter(job, board, n, k), job.leases,
                          FailedIn(job, i, n), RaisedIn(job, i, n))
        {
          RunEvolves(job, board, i, n, k);
        }
      }
    } else {
      var j := SecondRow(rows, k);
      var board := Board([], [], Waiting(rows, j, {k}, BLOCKED));
      SecondIsTaken(GOOD, board, rows, k, j, {k}, BLOCKED);
      assert RowAfter(GOOD, board, 0, k) == board.rows[k];
      assert !Evolved(RowAfter(GOOD, board, 0, k), RowAfter(GOOD, board, 1, k), {},
                      FailedIn(GOOD, 0, 1), RaisedIn(GOOD, 0, 1));
      assert !AlwaysEvolves(GOOD, board, k);
    }
  }

  lemma OwnIdsMeanAllFirst(rows: seq<Row>)
    ensures (forall k: nat :: k < |rows| ==> HasOwnId(rows, k)) <==> AllFirst(rows)
  {
    AllFirstOnly(rows);
    if !AllFirst(rows) {
      var k: nat :| k < |rows| && FindRow(rows, rows[k].id) != k;
      assert !HasOwnId(rows, FindRow(rows, rows[k].id));
    }
  }

  /** So runs on the same ids and blockers start all tasks in order exactly if every row is the first with its id. */
  lemma RunsStartInOrderExactly(rows: seq<Row>)
    ensures (forall k: nat :: k < |rows| ==> AlwaysStartsItself(rows, k)) <==> AllFirst(rows)
  {
    forall k: nat | k < |rows|
      ensures AlwaysStartsItself(rows, k) <==> HasOwnId(rows, k)
    {
      OrderExactly(rows, k);
    }
    OwnIdsMeanAllFirst(rows);
  }

  // ---------- a blocked task that is started ----------

  /** T1 twice, first blocked by T2 and then not. */
  const TWINS := Board(["ID", "Status"], [BACKLOG, IN_PROGRESS, DONE], [
    Row("T1", BACKLOG, "", "", "", "", "", "T2", "", map[]),
    Row("T1", BACKLOG, "", "", "High", "", "", "", "", map[]),
    Row("T2", BACKLOG, "", "", "", "", "", "", "", map[])
  ])

  lemma {:induction false} WordIsAll(s: string)
    requires forall k :: 0 <= k < |s| ==> !IsSeparator(s[k])
    ensures WordLength(s) == |s|
  {
    if s != "" { WordIsAll(s[1..]); }
  }

  lemma WordsPlain(s: string)
    requires s != "" && forall k :: 0 <= k < |s| ==> !IsSeparator(s[k])
    ensures Words(s) == [s]
  {
    WordIsAll(s);
    assert s[..|s|] == s && s[|s|..] == "";
  }

  lemma OneBlocker(row: Row, b: string)
    requires row.blockedBy == b && |b| >= 2 && forall k :: 0 <= k < |b| ==> !IsSeparator(b[k])
    ensures Blockers(row) == [b]
  {
    TrimPlain(b);
    WordsPlain(b);
  }

  lemma TwinsAreBlocked()
    ensures HoldsBack(TWINS.rows, "T2") && !IsUnblocked(TWINS.rows[0], TWINS.rows)
  {
    var rows := TWINS.rows;
    OneBlocker(rows[0], "T2");
    assert rows[1..][0] == rows[1] && rows[1..][1..][0] == rows[2];
    assert FindRow(rows[1..][1..], "T2") == 0 && FindRow(rows[1..], "T2") == 1 && FindRow(rows, "T2") == 2;
    assert "T2" in Blockers(rows[0]);
  }

  /** A startable row that comes before every other startable one is claimed. */
  lemma BestIsClaimed(rows: seq<Row>, k: nat)
    requires k < |rows| && Startable(rows[k], rows, {})
    requires forall row :: row in rows ==> row.status != IN_PROGRESS
    requires forall i :: 0 <= i < |rows| && i != k && Startable(rows[i], rows, {}) ==> Before(rows[k], rows[i])
    ensures ClaimedRow(rows, {}) == Some(rows[k])
  {
    ClaimedRowExact(rows, {});
    ClaimStartsTheBest(rows, {}, rows[k]);
    var i :| 0 <= i < |rows| && rows[i] == ClaimedRow(rows, {}).value;
  }

  lemma SecondTwinIsBest()
    ensures ClaimedRow(TWINS.rows, {}) == Some(TWINS.rows[1])
  {
    var rows := TWINS.rows;
    TwinsAreBlocked();
    assert Blockers(rows[1]) == [] by { assert Trim("") == ""; }
    assert Before(rows[1], rows[2]);
    BestIsClaimed(rows, 1);
  }

  /** The first round finishes the T1 that is blocked, while T2 is in Backlog. */
  lemma TwinsStartBlocked(job: Job)
    requires job.leases == {} && Outcomes(job, 0) == Ended(true)
    ensures Taken(job, TWINS, 0) == Some(TWINS.rows[1]) && LeavesBacklog(job, TWINS, 0, 0)
    ensures !IsUnblocked(RowAfter(job, TWINS, 0, 0), RowsAfter(job, TWINS, 0))
  {
    SecondTwinIsBest();
    TwinsAreBlocked();
    FirstRound(job, TWINS, TWINS.rows[1], 0);
    assert BoardAfter(job, TWINS, 0) == TWINS;
  }
}
