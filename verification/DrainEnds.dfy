/** Exactly when the board loop ends, what it finishes, and boards on which it never ends. */
module DrainEnds {
  import opened Text
  import opened Answers
  import opened Kanban
  import opened Claiming
  import opened Drain
  import opened Stuck

  // ---------- exactly when the loop ends ----------

  /** Every task ends DONE and is merged, and nothing cuts the loop short. */
  ghost predicate AllGood(job: Job) {
    && job.opts.loop && job.opts.maxTasks.None?
    && forall n: nat ::
         !job.world.aborted(n) && Outcomes(job, n) == Ended(true) && !MergeFails(job.world.answer(n), job.opts)
  }

  /** In terms of the answers: each task is ended DONE, now or before, and merged if that is asked for. */
  lemma AllGoodMeans(job: Job)
    ensures AllGood(job) <==>
              && job.opts.loop && job.opts.maxTasks == None
              && forall n: nat ::
                   !job.world.aborted(n) && EndsDone(job.world.answer(n), job.opts)
                   && !StaysUnmerged(job.world.answer(n), job.opts)
  {
    forall n: nat
      ensures EndsDone(job.world.answer(n), job.opts) <==> Outcomes(job, n) == Ended(true)
      ensures StaysUnmerged(job.world.answer(n), job.opts) <==> MergeFails(job.world.answer(n), job.opts)
    {
      OneOfThree(job.world.answer(n), job.opts);
    }
  }

  lemma DoneOrUntouchedInRound(job: Job, board: Board, n: nat, k: nat)
    requires AllGood(job) && k < |board.rows|
    ensures var row, next := RowAfter(job, board, n, k), RowAfter(job, board, n + 1, k);
            next.status == DONE || next == row
  {
    if Touches(job, board, n, k) {
      var f := RoundChanges(job, BoardAfter(job, board, n), n);
      FindStays(job, board, n, Taken(job, board, n).value.id);
    } else {
      UntouchedInRound(job, board, n, k);
    }
  }

  lemma DoneOrUntouched(job: Job, board: Board, n: nat, k: nat)
    requires AllGood(job) && k < |board.rows|
    ensures RowAfter(job, board, n, k).status == DONE || RowAfter(job, board, n, k) == board.rows[k]
  {
    forall j: nat
      ensures var row, next := RowAfter(job, board, j, k), RowAfter(job, board, j + 1, k);
              next.status == DONE || next == row
    {
      DoneOrUntouchedInRound(job, board, j, k);
    }
    AcrossRounds(j => RowAfter(job, board, j, k), (a: Row, b: Row) => b.status == DONE || b == a, 0, n);
  }

  ghost function NotDone(rows: seq<Row>): set<nat> {
    set k: nat | k < |rows| && rows[k].status != DONE
  }

  /** On a board with nothing to claim, the rows that are not Done hold each other back. */
  lemma DrainedIsStuck(rows: seq<Row>, leases: Leases)
    requires NothingToClaim(rows, leases)
    ensures StuckSet(rows, leases, NotDone(rows))
  {
    forall k | k in NotDone(rows)
      ensures HeldIn(rows, leases, NotDone(rows), k)
    {
      assert rows[k] in rows;
      if !Obstacle(rows[k], leases) {
        var b :| b in Blockers(rows[k]) && HoldsBack(rows, b);
        assert WaitsFor(rows, k, FindRow(rows, b));
      }
    }
  }

  /** The rows an all-DONE drained run has not finished were held back from the start. */
  lemma LeftWasStuck(job: Job, board: Board, n: nat)
    requires AllGood(job) && NothingToClaim(RowsAfter(job, board, n), job.leases)
    ensures SecondsIn(board.rows, job.leases, NotDone(RowsAfter(job, board, n)))
  {
    var out := RowsAfter(job, board, n);
    ShapeStays(job, board, n);
    forall k | 0 <= k < |out|
      ensures out[k].status == DONE || out[k] == board.rows[k]
    {
      DoneOrUntouched(job, board, n, k);
    }
    DrainedIsStuck(out, job.leases);
    StuckSetStays(out, board.rows, job.leases, NotDone(out));
    forall k: nat | OpenSecond(board.rows, job.leases, k)
      ensures k in NotDone(out)
    {
      SecondRowsStay(job, board, n, k);
    }
  }

  /** It is enough that every open row is the first with its id. */
  lemma FirstRowsSuffice(rows: seq<Row>, leases: Leases)
    requires forall k :: 0 <= k < |rows| && Open(rows[k], leases) ==> FindRow(rows, rows[k].id) == k
    ensures SecondsAreStuck(rows, leases)
  {
    assert SecondsIn(rows, leases, {});
  }

  /** Some moment is the end of the loop. */
  ghost predicate HasEnd(job: Job, board: Board) {
    exists n: nat :: EndsAt(job, board, n)
  }

  lemma RoundsWriteWhatTheyTake(job: Job, board: Board)
    requires SecondsAreStuck(board.rows, job.leases)
    ensures forall n :: TakesFirst(job, board, n)
  {
    var s :| SecondsIn(board.rows, job.leases, s);
    forall n
      ensures TakesFirst(job, board, n)
    {
      StuckStays(job, board, s, n);
    }
  }

  lemma EndsWhenSecondsAreStuck(job: Job, board: Board) returns (e: nat)
    requires SecondsAreStuck(board.rows, job.leases)
    ensures EndsAt(job, board, e) && e <= |OpenRows(board.rows, job.leases)|
  {
    RoundsWriteWhatTheyTake(job, board);
    e := FindEnd(job, board, 0);
  }

  /** When everything goes well, the loop ends exactly if every open row is the first with its id or stuck. */
  lemma EndsExactly(job: Job, board: Board)
    requires AllGood(job)
    ensures HasEnd(job, board) <==> SecondsAreStuck(board.rows, job.leases)
  {
    if HasEnd(job, board) {
      var n :| EndsAt(job, board, n);
      LeftWasStuck(job, board, n);
    }
    if SecondsAreStuck(board.rows, job.leases) {
      var e := EndsWhenSecondsAreStuck(job, board);
    }
  }

  /** What a caller can look up to know that the loop ends. */
  ghost predicate MustEnd(opts: Options, leases: Leases, rows: seq<Row>) {
    opts.maxTasks.Some? || !opts.loop || SecondsAreStuck(rows, leases)
  }

  lemma MustEndHasEnd(job: Job, board: Board) returns (e: nat)
    requires MustEnd(job.opts, job.leases, board.rows)
    ensures EndsAt(job, board, e)
  {
    if SecondsAreStuck(board.rows, job.leases) {
      e := EndsWhenSecondsAreStuck(job, board);
    } else if job.opts.maxTasks.Some? {
      e := job.opts.maxTasks.value;
    } else {
      e := 1;
    }
  }

  lemma ReachesTheEnd(job: Job, board: Board, n: nat, end: nat)
    requires Reaches(job, board, n) && EndsAt(job, board, end)
    ensures n <= end
  {
  }

  /** A run has no more rounds than the board has open rows. */
  lemma RunIsBounded(job: Job, board: Board, n: nat)
    requires SecondsAreStuck(board.rows, job.leases) && Reaches(job, board, n)
    ensures n <= |OpenRows(board.rows, job.leases)|
  {
    var e := EndsWhenSecondsAreStuck(job, board);
    ReachesTheEnd(job, board, n, e);
  }

  /** Whatever the outside answers, the loop ends exactly if the options bound it or open rows are first or stuck. */
  lemma EndsWhateverHappens(opts: Options, leases: Leases, board: Board)
    ensures (forall world :: HasEnd(Job(opts, leases, world), board)) <==> MustEnd(opts, leases, board.rows)
  {
    var good := World(n => Answer(Some(true), true, Some(true), true), n => false, p => p);
    if opts.loop && opts.maxTasks.None? {
      EndsExactly(Job(opts, leases, good), board);
    }
    if MustEnd(opts, leases, board.rows) {
      forall world
        ensures HasEnd(Job(opts, leases, world), board)
      {
        var e := MustEndHasEnd(Job(opts, leases, world), board);
      }
    }
  }

  // ---------- what a run finishes ----------

  lemma StuckTogether(rows: seq<Row>, leases: Leases, s: set<nat>, t: set<nat>)
    requires StuckSet(rows, leases, s) && StuckSet(rows, leases, t)
    ensures StuckSet(rows, leases, s + t)
  {
    forall k | k in s + t
      ensures HeldIn(rows, leases, s + t, k)
    {
      assert k in s ==> HeldIn(rows, leases, s, k);
      assert k in t ==> HeldIn(rows, leases, t, k);
    }
  }

  /** No run touches a stuck row, whatever the outside answers. */
  lemma StuckRowStays(job: Job, board: Board, n: nat, k: nat)
    requires SecondsAreStuck(board.rows, job.leases) && StuckAt(board.rows, job.leases, k)
    ensures k < |board.rows| && board.rows[k].status != DONE && RowAfter(job, board, n, k) == board.rows[k]
  {
    var s :| SecondsIn(board.rows, job.leases, s);
    var t :| StuckSet(board.rows, job.leases, t) && k in t;
    StuckTogether(board.rows, job.leases, s, t);
    StuckStays(job, board, s + t, n);
  }

  /** A drained run in which every task ended DONE leaves exactly the stuck rows unfinished. */
  lemma DrainedExactly(job: Job, board: Board, n: nat, k: nat)
    requires AllGood(job) && NothingToClaim(RowsAfter(job, board, n), job.leases) && k < |board.rows|
    ensures RowAfter(job, board, n, k).status == DONE <==> !StuckAt(board.rows, job.leases, k)
  {
    LeftWasStuck(job, board, n);
    ShapeStays(job, board, n);
    if StuckAt(board.rows, job.leases, k) {
      StuckRowStays(job, board, n, k);
    } else {
      assert k !in NotDone(RowsAfter(job, board, n));
    }
  }

  // ---------- two rows of one id ----------

  /** A resumable row that is not the first with its id keeps every board from being drained. */
  lemma SecondIsClaimedForEver(job: Job, board: Board, n: nat, k: nat)
    requires k < |board.rows| && Resumable(board.rows[k], job.leases) && FindRow(board.rows, board.rows[k].id) != k
    ensures !NothingToClaim(RowsAfter(job, board, n), job.leases)
  {
    SecondRowsStay(job, board, n, k);
    ShapeStays(job, board, n);
    assert RowsAfter(job, board, n)[k] in RowsAfter(job, board, n);
  }

  lemma {:induction false} BoardRepeats(job: Job, board: Board, n: nat)
    requires forall j: nat :: NextBoard(job, board, j) == board
    ensures BoardAfter(job, board, n) == board
  {
    if n > 0 { BoardRepeats(job, board, n - 1); }
  }

  lemma OneCandidate(rows: seq<Row>)
    requires |rows| == 2 && rows[0].status == DONE && rows[1].status == BACKLOG && Blockers(rows[1]) == []
    ensures ClaimedRow(rows, {}) == Some(rows[1])
  {
    ClaimedRowExact(rows, {});
    assert Startable(rows[1], rows, {});
  }

  /** A task that is Done, and once more in Backlog. */
  const DUPLICATE := Board([], [], [
    Row("T1", DONE, "", "", "", "", "", "", "", map[]),
    Row("T1", BACKLOG, "", "", "", "", "", "", "", map[])
  ])

  /** Round after round takes the second row and finishes the first: the board stays, and is never drained. */
  lemma DuplicateIdNeverDrains(job: Job, n: nat)
    requires AllGood(job) && job.leases == {}
    ensures BoardAfter(job, DUPLICATE, n) == DUPLICATE && Taken(job, DUPLICATE, n) == Some(DUPLICATE.rows[1])
  {
    assert Trim("") == "";
    OneCandidate(DUPLICATE.rows);
    assert forall j: nat :: NextBoard(job, DUPLICATE, j) == DUPLICATE;
    BoardRepeats(job, DUPLICATE, n);
  }
}
