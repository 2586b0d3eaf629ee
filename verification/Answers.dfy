/** How what the outside answers for a claimed task shows on the board and in the exit code, cell by cell. */
module Answers {
  import opened Text
  import opened Kanban
  import opened Claiming
  import opened Drain

  /** A task that no compose state has ended yet, and that has its worktree if it needs one. */
  predicate IsRun(a: Answer, opts: Options) {
    a.saved == None && (opts.worktree ==> a.worktreeOk)
  }

  predicate EndsDone(a: Answer, opts: Options) {
    a.saved == Some(true) || (IsRun(a, opts) && a.ran == Some(true))
  }

  /** FAILED, now or before, or no worktree where one is asked for. */
  predicate EndsBlocked(a: Answer, opts: Options) {
    || a.saved == Some(false)
    || (a.saved == None && opts.worktree && !a.worktreeOk)
    || (IsRun(a, opts) && a.ran == Some(false))
  }

  predicate Raises(a: Answer, opts: Options) {
    IsRun(a, opts) && a.ran == None
  }

  predicate StaysUnmerged(a: Answer, opts: Options) {
    IsRun(a, opts) && a.ran == Some(true) && opts.worktree && opts.merge && !a.merged
  }

  lemma OneOfThree(a: Answer, opts: Options)
    ensures EndsDone(a, opts) <==> OutcomeOf(a, opts) == Ended(true)
    ensures EndsBlocked(a, opts) <==> OutcomeOf(a, opts) == Ended(false)
    ensures Raises(a, opts) <==> OutcomeOf(a, opts) == Broke
    ensures StaysUnmerged(a, opts) <==> MergeFails(a, opts)
  {
  }

  /** The board after a task was handled: only its first row differs. */
  predicate HandledAs(before: Board, after: Board, id: string, status: string, planPath: string) {
    && after == before.(rows := after.rows) && |after.rows| == |before.rows|
    && forall k: nat :: k < |before.rows| ==>
         if FirstWith(before.rows, id, k)
         then HasFinished(before.headers, before.rows[k], after.rows[k], status, planPath)
         else after.rows[k] == before.rows[k]
  }

  lemma FinishHandles(before: Board, id: string, done: bool, planPath: string)
    ensures HandledAs(before, FinishDoc(before, id, FinalStatus(done), planPath), id,
                      if done then "Done" else "Blocked", planPath)
  {
    FinishedCells(before, id, FinalStatus(done), planPath);
  }

  lemma MarkThenFinish(board: Board, leases: Leases, r: Row, status: string, planPath: string)
    requires ClaimedRow(board.rows, leases) == Some(r)
    ensures FinishDoc(MarkClaimed(board, leases), r.id, status, planPath) == FinishDoc(board, r.id, status, planPath)
  {
    ClaimedRowExact(board.rows, leases);
    SameIdsFindRow(board.rows, MarkClaimed(board, leases).rows, r.id);
  }

  /**
   What a round makes of the board: the first row with the id of the task it takes is finished as Done if the task was
   ended DONE, now or before, as Blocked if it FAILED or had no worktree, and is left In Progress if the run raised.
   */
  lemma RoundHandles(job: Job, board: Board, n: nat)
    requires Taken(job, board, n).Some?
    ensures var a, r := job.world.answer(n), Taken(job, board, n).value;
            var before, after := BoardAfter(job, board, n), BoardAfter(job, board, n + 1);
            && (EndsDone(a, job.opts) ==> HandledAs(before, after, r.id, "Done", job.world.planPath(r.id)))
            && (EndsBlocked(a, job.opts) ==> HandledAs(before, after, r.id, "Blocked", job.world.planPath(r.id)))
            && (Raises(a, job.opts) ==>
                  after == if r.status == "In Progress" then before else SetStatus(before, r.id, "In Progress"))
            && (EndsDone(a, job.opts) || EndsBlocked(a, job.opts) || Raises(a, job.opts))
  {
    var a, r := job.world.answer(n), Taken(job, board, n).value;
    OneOfThree(a, job.opts);
    if Outcomes(job, n).Ended? {
      var before := BoardAfter(job, board, n);
      FinishHandles(before, r.id, Outcomes(job, n).done, job.world.planPath(r.id));
      MarkThenFinish(before, job.leases, r, FinalStatus(Outcomes(job, n).done), job.world.planPath(r.id));
    }
  }

  /** Something went wrong with the k-th task: it ended Blocked, raised an error, or was Done and not merged. */
  predicate WentWrong(job: Job, k: nat) {
    var a := job.world.answer(k);
    EndsBlocked(a, job.opts) || Raises(a, job.opts) || StaysUnmerged(a, job.opts)
  }

  /** The exit code of a run of n tasks is 1 exactly if something went wrong with one of them, and else 0. */
  lemma ExitCodeMeans(job: Job, board: Board, n: nat)
    requires Reaches(job, board, n)
    ensures ExitCode(job, n) == if exists k :: 0 <= k < n && WentWrong(job, k) then 1 else 0
  {
    forall k | 0 <= k < n
      ensures WentWrong(job, k) <==> CountsAsFailure(job.world.answer(k), job.opts) || Outcomes(job, k).Broke?
      ensures Outcomes(job, k).Broke? ==> k == n - 1
    {
      OneOfThree(job.world.answer(k), job.opts);
      OptionsBoundTheRun(job, board, n);
    }
    if ExitCode(job, n) == 1 {
      if BadAmong(job.world, job.opts, n) {
        var k :| 0 <= k < n && CountsAsFailure(job.world.answer(k), job.opts);
        assert WentWrong(job, k);
      } else {
        assert WentWrong(job, n - 1);
      }
    }
  }
}
