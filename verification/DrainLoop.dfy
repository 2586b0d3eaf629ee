/** The board loop as a process that keeps a board, round by round. */
module DrainLoop {
  import opened Text
  import opened Answers
  import opened Kanban
  import opened Claiming
  import opened Drain
  import opened DrainEnds
  import opened Stuck

  datatype Flow = NoTask | Continue | Break | Raise

  lemma {:induction false} FirstFreeIs(rows: seq<Row>, leases: Leases, k: nat)
    requires k < |rows| && !Leased(leases, rows[k]) && forall j :: 0 <= j < k ==> Leased(leases, rows[j])
    ensures FirstFree(rows, leases) == Some(rows[k])
  {
    if k > 0 { FirstFreeIs(rows[1..], leases, k - 1); }
  }

  /** Without a resumable row, the first unleased candidate is claimed. */
  lemma ClaimStarts(rows: seq<Row>, candidates: seq<Row>, leases: Leases, k: nat)
    requires forall j :: 0 <= j < |rows| ==> !Resumable(rows[j], leases)
    requires candidates == BacklogCandidates(rows) && k <= |candidates|
    requires forall j :: 0 <= j < k ==> Leased(leases, candidates[j])
    requires k < |candidates| ==> !Leased(leases, candidates[k])
    ensures ClaimedRow(rows, leases) == if k < |candidates| then Some(candidates[k]) else None
    ensures k < |candidates| ==> candidates[k].status == BACKLOG
  {
    InProgressExact(rows);
    FirstFreeNone(InProgressRows(rows), leases);
    BacklogCandidatesExact(rows);
    if k < |candidates| {
      FirstFreeIs(candidates, leases, k);
      assert candidates[k] in candidates;
    } else {
      FirstFreeNone(candidates, leases);
    }
  }

  lemma BadStep(job: Job, n: nat)
    ensures BadAmong(job.world, job.opts, n + 1) <==>
              BadAmong(job.world, job.opts, n) || CountsAsFailure(job.world.answer(n), job.opts)
  {
    if BadAmong(job.world, job.opts, n) || CountsAsFailure(job.world.answer(n), job.opts) {
      var k :| 0 <= k < n + 1 && CountsAsFailure(job.world.answer(k), job.opts);
    }
  }

  lemma GoesOn(job: Job, board: Board, n: nat, end: nat)
    requires Reaches(job, board, n) && EndsAt(job, board, end)
    requires !LeavesAfter(job, n) && !CutAt(job, n) && !NothingToClaim(RowsAfter(job, board, n), job.leases)
    ensures Reaches(job, board, n + 1) && n < end
  {
    ReachesTheEnd(job, board, n, end);
  }

  class TaskBoard {
    var board: Board

    constructor (initial: Board)
      ensures board == initial
    {
      board := initial;
    }

    /** opClaim inside its section: the first resumable row, else the first free candidate, which is marked. */
    method Claim(leases: Leases) returns (task: Option<Row>)
      modifies this
      ensures task == ClaimedRow(old(board.rows), leases)
      ensures task.None? <==> NothingToClaim(old(board.rows), leases)
      ensures task.Some? ==> task.value in old(board.rows)
      ensures task.Some? && !Resumable(task.value, leases) ==>
                && Startable(task.value, old(board.rows), leases)
                && forall row :: row in old(board.rows) ==> !Resumable(row, leases)
      ensures board == MarkClaimed(old(board), leases)
    {
      var rows, i := board.rows, 0;
      while i < |rows| && !Resumable(rows[i], leases)
        invariant i <= |rows| && forall j :: 0 <= j < i ==> !Resumable(rows[j], leases)
      {
        i := i + 1;
      }
      if i < |rows| {
        ClaimResumesTheFirst(rows, leases, i);
        task := Some(rows[i]);
      } else {
        var candidates := BacklogCandidates(rows);
        i := 0;
        while i < |candidates| && Leased(leases, candidates[i])
          invariant i <= |candidates| && forall j :: 0 <= j < i ==> Leased(leases, candidates[j])
        {
          i := i + 1;
        }
        ClaimStarts(rows, candidates, leases, i);
        task := if i < |candidates| then Some(candidates[i]) else None;
        if task.Some? {
          board := SetStatus(board, task.value.id, IN_PROGRESS);
        }
      }
      ClaimedRowExact(rows, leases);
    }

    /** opFinish: the mapped status on the first row with the id, and the plan path on a Blocked row without one. */
    method Finish(id: string, done: bool, planPath: string)
      modifies this
      ensures board == FinishDoc(old(board), id, FinalStatus(done), planPath)
      ensures HandledAs(old(board), board, id, if done then "Done" else "Blocked", planPath)
    {
      FinishHandles(board, id, done, planPath);
      var i := FindRow(board.rows, id);
      if i == |board.rows| { return; }
      board := board.(rows := board.rows[i := board.rows[i].(status := FinalStatus(done))]);
      if FinalStatus(done) == BLOCKED && "Plan File" in board.headers && Blank(board.rows[i].planFile) {
        board := board.(rows := board.rows[i := board.rows[i].(planFile := planPath)]);
      }
    }

    /**
     What the loop does with a claimed task: finish an already terminal one, give up without a
     worktree, or run, finish and merge.
     */
    method ComposeClaimed(opts: Options, id: string, a: Answer, planPath: string) returns (flow: Flow, bad: bool)
      modifies this
      ensures !flow.NoTask?
      ensures EndsDone(a, opts) ==> HandledAs(old(board), board, id, "Done", planPath)
      ensures EndsBlocked(a, opts) ==> HandledAs(old(board), board, id, "Blocked", planPath)
      ensures Raises(a, opts) ==> board == old(board)
      ensures bad <==> EndsBlocked(a, opts) || StaysUnmerged(a, opts)
      ensures flow.Raise? <==> Raises(a, opts)
      ensures flow.Break? <==>
                && !Raises(a, opts)
                && (!opts.loop || StaysUnmerged(a, opts) || (EndsBlocked(a, opts) && opts.stopOnFail))
      ensures board == if OutcomeOf(a, opts).Broke? then old(board)
                       else FinishDoc(old(board), id, FinalStatus(OutcomeOf(a, opts).done), planPath)
    {
      OneOfThree(a, opts);
      bad := false;
      if a.saved.Some? {
        Finish(id, a.saved.value, planPath);
        if !a.saved.value { bad := true; }
        if !a.saved.value && opts.stopOnFail { return Break, bad; }
        return if !opts.loop then Break else Continue, bad;
      }
      if opts.worktree && !a.worktreeOk {
        // Without its own checkout the task is not run at all.
        Finish(id, false, planPath);
        if opts.stopOnFail { return Break, true; }
        return if !opts.loop then Break else Continue, true;
      }
      if a.ran.None? { return Raise, bad; }
      Finish(id, a.ran.value, planPath);
      if !a.ran.value {
        bad := true;
        if opts.stopOnFail { return Break, bad; }
      } else if opts.worktree && opts.merge {
        if !a.merged {
          // Further tasks would start from a base that lacks this one.
          return Break, true;
        }
      }
      flow := if !opts.loop then Break else Continue;
    }

    /** One round of the loop: claim, then compose what was claimed. The n rounds before it began with `first`. */
    method Round(job: Job, n: nat, ghost first: Board) returns (flow: Flow, bad: bool)
      requires board == BoardAfter(job, first, n)
      modifies this
      ensures flow.NoTask? <==> NothingToClaim(RowsAfter(job, first, n), job.leases)
      ensures board == if flow.NoTask? then old(board) else BoardAfter(job, first, n + 1)
      ensures !flow.NoTask? ==> (bad <==> CountsAsFailure(job.world.answer(n), job.opts))
      ensures !flow.NoTask? ==> (flow.Raise? <==> Outcomes(job, n).Broke?)
      ensures !flow.NoTask? ==> (flow.Break? <==> StopsAfter(job.world.answer(n), job.opts))
    {
      var task := Claim(job.leases);
      if task.None? { return NoTask, false; }
      var id := task.value.id;
      OneOfThree(job.world.answer(n), job.opts);
      flow, bad := ComposeClaimed(job.opts, id, job.world.answer(n), job.world.planPath(id));
    }

    /**
     The board loop without `--task` and without `--follow`. It needs no bound on its rounds: it
     runs exactly to the first moment with a reason to end.
     */
    method RunBoardTasks(job: Job) returns (code: int, exit: Exit, done: nat)
      requires MustEnd(job.opts, job.leases, board.rows)
      modifies this
      ensures board == BoardAfter(job, old(board), done)
      ensures Reaches(job, old(board), done) && EndsAt(job, old(board), done)
      ensures exit == ExitAt(job, done)
      ensures code == if exists k :: 0 <= k < done && WentWrong(job, k) then 1 else 0
      ensures exit.Drained? ==> NothingToClaim(board.rows, job.leases)
      ensures RunsToTheEnd(job) ==> exit.Drained?
    {
      var anyFailed := false;
      done, exit := 0, Stopped;
      ghost var first := board;
      ghost var end := MustEndHasEnd(job, first);
      while true
        invariant board == BoardAfter(job, first, done) && Reaches(job, first, done) && !LeavesAfter(job, done)
        invariant anyFailed == BadAmong(job.world, job.opts, done) && exit.Stopped? && done <= end
        decreases end - done
      {
        if job.world.aborted(done) { break; }
        if job.opts.maxTasks.Some? && done >= job.opts.maxTasks.value { break; }
        var flow, bad := Round(job, done, first);
        if flow.NoTask? {
          exit := Drained;
          break;
        }
        GoesOn(job, first, done, end);
        BadStep(job, done);
        done := done + 1;
        if bad { anyFailed := true; }
        if flow.Raise? {
          exit := Raised;
          break;
        }
        if flow.Break? { break; }
      }
      EndsDrained(job, first, done);
      ExitCodeMeans(job, first, done);
      code := if exit.Raised? || anyFailed then 1 else 0;
    }
  }
}
