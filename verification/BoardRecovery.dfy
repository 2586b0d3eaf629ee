/** After a crash the work is not stranded: locks of the dead are taken over and the task is claimed again. */
module BoardRecovery {
  import opened BoardProtocol
  import opened BoardSafety
  import opened Kanban
  import opened LockNames
  import opened Text
  import Claiming

  lemma Extend(file: string, board: Board, sch: Schedule, p: Pid, a: Action) returns (longer: Schedule)
    requires Runs(file, board, sch) && Enabled(file, After(file, board, sch), p, a)
    ensures longer == sch + [(p, a)] && Runs(file, board, longer)
    ensures After(file, board, longer) == Step(file, After(file, board, sch), p, a)
  {
    longer := sch + [(p, a)];
    assert longer[..|longer| - 1] == sch;
  }

  /** A waiting process gets a lock nobody alive holds, stealing a dead holder's file if there is one. */
  lemma TakeLock(file: string, board: Board, sch: Schedule, p: Pid) returns (longer: Schedule)
    requires Runs(file, board, sch)
    requires var s := After(file, board, sch);
             var pc := PcOf(s, p);
             p in s.alive && (pc.Waiting? || pc.Probed?) && !Live(s, Wanted(file, pc))
    ensures sch <= longer && Runs(file, board, longer)
    ensures var s, after := After(file, board, sch), After(file, board, longer);
            var lock := Wanted(file, PcOf(s, p));
            && after.alive == s.alive && after.board == s.board && after.log == s.log
            && after.locks == s.locks[lock := p]
            && PcOf(after, p) == var pc := PcOf(s, p);
                              if pc.Waiting? then Locked(pc.op) else Leased(pc.doc, pc.id, pc.queued, pc.mark)
  {
    var s := After(file, board, sch);
    var lock := Wanted(file, PcOf(s, p));
    longer := sch;
    if lock in s.locks {
      longer := Extend(file, board, longer, p, Steal);
    }
    longer := Extend(file, board, longer, p, Create);
    assert After(file, board, longer).locks == s.locks[lock := p];
  }

  // ---------- one process, undisturbed, claims ----------

  /** The leases that a claim sees held, by the part of the name that depends on the id. */
  ghost function LiveLeases(file: string, s: State): Claiming.Leases {
    set row | row in s.board.rows && Live(s, LeaseFile(file, row.id)) :: NameChars(row.id)
  }

  lemma LeasedIsLive(file: string, s: State, row: Row)
    requires file != "" && row in s.board.rows
    ensures Claiming.Leased(LiveLeases(file, s), row) <==> Live(s, LeaseFile(file, row.id))
  {
    if Claiming.Leased(LiveLeases(file, s), row) {
      var other :| && other in s.board.rows && Live(s, LeaseFile(file, other.id))
                   && NameChars(other.id) == NameChars(row.id);
      LeaseFileCollision(file, other.id, row.id);
    }
  }

  /** The process may go for row i of the board as it is: nobody alive holds the board lock or the task's lease. */
  predicate Free(file: string, s: State, p: Pid, i: nat) {
    && p in s.alive && PcOf(s, p) == Idle && i < |s.board.rows|
    && IN_PROGRESS in s.board.statuses && "Status" in s.board.headers
    && !Live(s, BoardLock(file))
    && !Live(s, LeaseFile(file, s.board.rows[i].id)) && !Live(s, LeaseLock(file, s.board.rows[i].id))
  }

  /** The row that opClaim settles on: by name, or by the order of the queue. */
  ghost predicate Settles(file: string, s: State, op: Op, i: nat) {
    && i < |s.board.rows|
    && ((op.ClaimId? && i == FindRow(s.board.rows, op.id))
        || (op.Claim? && Claiming.ClaimedRow(s.board.rows, LiveLeases(file, s)) == Some(s.board.rows[i])))
  }

  lemma SettledRow(file: string, s: State, p: Pid, op: Op, i: nat)
    requires Free(file, s, p, i) && Settles(file, s, op, i)
    ensures CanHandOut(op, s.board, i)
  {
    if op.Claim? { Claiming.ClaimedRowExact(s.board.rows, LiveLeases(file, s)); }
  }

  /** Into the section: the board lock is taken and the board is read. */
  lemma EnterSection(file: string, board: Board, sch: Schedule, p: Pid, op: Op) returns (longer: Schedule)
    requires Runs(file, board, sch) && !op.Finish?
    requires var s := After(file, board, sch); p in s.alive && PcOf(s, p) == Idle && !Live(s, BoardLock(file))
    ensures sch <= longer && Runs(file, board, longer)
    ensures var s, after := After(file, board, sch), After(file, board, longer);
            && PcOf(after, p) == Loaded(op, s.board) && after.alive == s.alive
            && after.board == s.board && after.log == s.log && after.locks == s.locks[BoardLock(file) := p]
  {
    longer := Extend(file, board, sch, p, Begin(op));
    longer := TakeLock(file, board, longer, p);
    longer := Extend(file, board, longer, p, Load);
  }

  /** From an open board lock to the point where the claim waits for the task's lease. */
  lemma ReachLease(file: string, board: Board, sch: Schedule, p: Pid, op: Op, i: nat) returns (longer: Schedule)
    requires file != "" && Runs(file, board, sch)
    requires Free(file, After(file, board, sch), p, i) && CanHandOut(op, After(file, board, sch).board, i)
    ensures sch <= longer && Runs(file, board, longer)
    ensures var s, after := After(file, board, sch), After(file, board, longer);
            var row := s.board.rows[i];
            && PcOf(after, p) == Probed(s.board, row.id, op.Claim?, row.status != IN_PROGRESS)
            && after.alive == s.alive && after.board == s.board && after.log == s.log
            && !Live(after, LeaseLock(file, row.id))
  {
    LeaseIsNotBoardLock(file, After(file, board, sch).board.rows[i].id);
    longer := EnterSection(file, board, sch, p, op);
    longer := Extend(file, board, longer, p, Choose(i));
  }

  /** With the lease in hand, the claim is written if it is one from Backlog, and the section left. */
  lemma LeaveSection(file: string, board: Board, sch: Schedule, p: Pid) returns (longer: Schedule)
    requires Runs(file, board, sch)
    requires var s := After(file, board, sch); p in s.alive && PcOf(s, p).Leased? && PcOf(s, p).doc == s.board
    ensures sch <= longer && Runs(file, board, longer)
    ensures var s, after := After(file, board, sch), After(file, board, longer);
            var pc := PcOf(s, p);
            && PcOf(after, p) == Working(pc.id) && after.alive == s.alive
            && after.board == (if pc.mark then SetStatus(s.board, pc.id, IN_PROGRESS) else s.board)
            && after.log == s.log + if pc.mark then [Marked(pc.id, pc.queued)] else []
  {
    var mark := PcOf(After(file, board, sch), p).mark;
    longer := Extend(file, board, sch, p, Mark);
    if mark { longer := Extend(file, board, longer, p, Save); }
    longer := Extend(file, board, longer, p, Unlock);
  }

  /** From the lease to the task in hand. */
  lemma TakeTask(file: string, board: Board, sch: Schedule, p: Pid) returns (longer: Schedule)
    requires Runs(file, board, sch)
    requires var s := After(file, board, sch);
             && p in s.alive && PcOf(s, p).Probed? && PcOf(s, p).doc == s.board
             && !Live(s, LeaseLock(file, PcOf(s, p).id))
    ensures sch <= longer && Runs(file, board, longer)
    ensures var s, after := After(file, board, sch), After(file, board, longer);
            var pc := PcOf(s, p);
            && PcOf(after, p) == Working(pc.id) && after.alive == s.alive
            && after.board == (if pc.mark then SetStatus(s.board, pc.id, IN_PROGRESS) else s.board)
            && after.log == s.log + if pc.mark then [Marked(pc.id, pc.queued)] else []
  {
    longer := TakeLock(file, board, sch, p);
    longer := LeaveSection(file, board, longer, p);
  }

  /**
   An idle process that nobody disturbs claims the very row that opClaim settles on, stealing whatever lock files the
   dead have left, and marks it if it comes from Backlog.
   */
  lemma UndisturbedClaim(file: string, board: Board, sch: Schedule, p: Pid, op: Op, i: nat) returns (longer: Schedule)
    requires file != "" && Runs(file, board, sch)
    requires Free(file, After(file, board, sch), p, i) && Settles(file, After(file, board, sch), op, i)
    ensures sch <= longer && Runs(file, board, longer)
    ensures var s, after := After(file, board, sch), After(file, board, longer);
            var row := s.board.rows[i];
            && PcOf(after, p) == Working(row.id) && after.alive == s.alive
            && after.board == (if row.status != IN_PROGRESS then SetStatus(s.board, row.id, IN_PROGRESS) else s.board)
            && after.log == s.log + if row.status != IN_PROGRESS then [Marked(row.id, op.Claim?)] else []
  {
    SettledRow(file, After(file, board, sch), p, op, i);
    longer := ReachLease(file, board, sch, p, op, i);
    longer := TakeTask(file, board, longer, p);
  }

  /**
   After a crash the work is not stranded: once no live process holds the board lock or the task's lease, the first
   task left In Progress that nobody alive holds is what an idle process gets from the queue.
   */
  lemma AbandonedTaskIsResumable(file: string, board: Board, sch: Schedule, p: Pid, i: nat)
      returns (longer: Schedule)
    requires file != "" && Runs(file, board, sch) && Free(file, After(file, board, sch), p, i)
    requires var s := After(file, board, sch);
             && s.board.rows[i].status == IN_PROGRESS
             && forall j :: 0 <= j < i && s.board.rows[j].status == IN_PROGRESS ==>
                              Live(s, LeaseFile(file, s.board.rows[j].id))
    ensures sch <= longer && Runs(file, board, longer)
    ensures var s, after := After(file, board, sch), After(file, board, longer);
            PcOf(after, p) == Working(s.board.rows[i].id) && after.alive == s.alive && after.board == s.board
  {
    var s := After(file, board, sch);
    forall j | 0 <= j <= i
      ensures Claiming.Leased(LiveLeases(file, s), s.board.rows[j]) <==> Live(s, LeaseFile(file, s.board.rows[j].id))
    {
      LeasedIsLive(file, s, s.board.rows[j]);
    }
    Claiming.ClaimResumesTheFirst(s.board.rows, LiveLeases(file, s), i);
    longer := UndisturbedClaim(file, board, sch, p, Claim, i);
  }

  /** Any task left In Progress can be claimed again by its name, if its row is the first with it. */
  lemma AbandonedTaskByName(file: string, board: Board, sch: Schedule, p: Pid, i: nat) returns (longer: Schedule)
    requires file != "" && Runs(file, board, sch) && Free(file, After(file, board, sch), p, i)
    requires var s := After(file, board, sch);
             s.board.rows[i].status == IN_PROGRESS && i == FindRow(s.board.rows, s.board.rows[i].id)
    ensures sch <= longer && Runs(file, board, longer)
    ensures var s, after := After(file, board, sch), After(file, board, longer);
            PcOf(after, p) == Working(s.board.rows[i].id) && after.alive == s.alive && after.board == s.board
  {
    longer := UndisturbedClaim(file, board, sch, p, ClaimId(After(file, board, sch).board.rows[i].id), i);
  }

  // ---------- one process, undisturbed, finishes ----------

  /** From inside the section with the new document in hand to its end: saved, and the board lock given back. */
  lemma SaveAndLeave(file: string, board: Board, sch: Schedule, p: Pid) returns (longer: Schedule)
    requires Runs(file, board, sch)
    requires var s := After(file, board, sch); p in s.alive && PcOf(s, p).Writing?
    ensures sch <= longer && Runs(file, board, longer)
    ensures var s, after := After(file, board, sch), After(file, board, longer);
            var pc := PcOf(s, p);
            && PcOf(after, p) == (match pc.next case ToIdle => Idle
                                                case ToWork(id) => Working(id)
                                                case ToFree(id) => Freeing(id))
            && after.alive == s.alive && after.board == pc.doc && after.log == s.log + [pc.effect]
  {
    longer := Extend(file, board, sch, p, Save);
    longer := Extend(file, board, longer, p, Unlock);
  }

  /** A process in its section computes what it came for; without a change it leaves at once. */
  lemma ComputeAndLeave(file: string, board: Board, sch: Schedule, p: Pid) returns (longer: Schedule)
    requires Runs(file, board, sch)
    requires var s := After(file, board, sch);
             && p in s.alive && PcOf(s, p).Loaded? && PcOf(s, p).doc == s.board
             && (PcOf(s, p).op.Finish? || PcOf(s, p).op.Mutate?)
    ensures sch <= longer && Runs(file, board, longer)
    ensures var s, after := After(file, board, sch), After(file, board, longer);
            var op := PcOf(s, p).op;
            && after.alive == s.alive
            && PcOf(after, p) == (if op.Mutate? then Idle else Freeing(op.done))
            && (op.Mutate? ==> after.board == op.f(s.board) && after.log == s.log + [Mutated(op.f)])
            && (op.Finish? && op.status in s.board.statuses && Known(s.board.rows, op.done) ==>
                  && after.log == s.log + [Finished(op.done, op.status, op.planCell)]
                  && after.board == FinishDoc(s.board, op.done, op.status, op.planCell))
            && (op.Finish? && !(op.status in s.board.statuses && Known(s.board.rows, op.done)) ==>
                  after.log == s.log && after.board == s.board)
  {
    longer := Extend(file, board, sch, p, Compute);
    if PcOf(After(file, board, longer), p).Writing? {
      longer := SaveAndLeave(file, board, longer, p);
    } else {
      longer := Extend(file, board, longer, p, Unlock);
    }
  }

  /** Into the section to finish a task. */
  lemma EnterFinish(file: string, board: Board, sch: Schedule, p: Pid, status: string, planCell: string)
      returns (longer: Schedule)
    requires Runs(file, board, sch)
    requires var s := After(file, board, sch); p in s.alive && PcOf(s, p).Working? && !Live(s, BoardLock(file))
    ensures sch <= longer && Runs(file, board, longer)
    ensures var s, after := After(file, board, sch), After(file, board, longer);
            && PcOf(after, p) == Loaded(Finish(PcOf(s, p).id, status, planCell), s.board)
            && after.alive == s.alive && after.board == s.board && after.log == s.log
  {
    longer := Extend(file, board, sch, p, BeginFinish(status, planCell));
    longer := TakeLock(file, board, longer, p);
    longer := Extend(file, board, longer, p, Load);
  }

  /**
   A process that has worked on a task and that nobody disturbs writes its outcome and gives the board lock back. If
   the board's legend has the status and the id is on it, the log is longer by that finish, the first row with the id
   has the status, and the plan path if it is Blocked and had none; all else is as it was. If not, nothing is written.
   */
  lemma UndisturbedFinish(file: string, board: Board, sch: Schedule, p: Pid, status: string, planCell: string)
      returns (longer: Schedule)
    requires Runs(file, board, sch)
    requires var s := After(file, board, sch); p in s.alive && PcOf(s, p).Working? && !Live(s, BoardLock(file))
    ensures sch <= longer && Runs(file, board, longer)
    ensures var s, after := After(file, board, sch), After(file, board, longer);
            var id, rows := PcOf(s, p).id, s.board.rows;
            && PcOf(after, p) == Freeing(id) && after.alive == s.alive
            && if status in s.board.statuses && exists j :: FirstWith(rows, id, j) then
                 && after.log == s.log + [Finished(id, status, planCell)]
                 && after.board == s.board.(rows := after.board.rows) && |after.board.rows| == |rows|
                 && forall k: nat :: k < |rows| ==>
                      if FirstWith(rows, id, k)
                      then HasFinished(s.board.headers, rows[k], after.board.rows[k], status, planCell)
                      else after.board.rows[k] == rows[k]
               else after.log == s.log && after.board == s.board
  {
    var s := After(file, board, sch);
    var id := PcOf(s, p).id;
    longer := EnterFinish(file, board, sch, p, status, planCell);
    longer := ComputeAndLeave(file, board, longer, p);
    FirstWithIsFound(s.board.rows, id);
    FinishedCells(s.board, id, status, planCell);
  }

  /** So does any other board operation: an idle process that nobody disturbs applies it to the board. */
  lemma UndisturbedMutation(file: string, board: Board, sch: Schedule, p: Pid, f: Board -> Board)
      returns (longer: Schedule)
    requires Runs(file, board, sch)
    requires var s := After(file, board, sch); p in s.alive && PcOf(s, p) == Idle && !Live(s, BoardLock(file))
    ensures sch <= longer && Runs(file, board, longer)
    ensures var s, after := After(file, board, sch), After(file, board, longer);
            PcOf(after, p) == Idle && after.board == f(s.board) && after.log == s.log + [Mutated(f)]
  {
    longer := EnterSection(file, board, sch, p, Mutate(f));
    longer := ComputeAndLeave(file, board, longer, p);
  }

  // ---------- giving the lease back ----------

  lemma HeldWhileFreeing(file: string, board: Board, sch: Schedule, p: Pid, id: string)
    requires file != "" && Runs(file, board, sch)
    requires p in After(file, board, sch).alive && PcOf(After(file, board, sch), p) == Freeing(id)
    ensures var s := After(file, board, sch); LeaseLock(file, id) in s.locks && s.locks[LeaseLock(file, id)] == p
  {
    RunKeepsInv(file, board, sch);
    assert ProcOk(file, After(file, board, sch), p);
  }

  /** When a task is finished its lease is looked for and removed; it goes exactly if the id has no slash. */
  lemma FinishedLeaseGoes(file: string, board: Board, sch: Schedule, p: Pid, id: string) returns (longer: Schedule)
    requires file != "" && Runs(file, board, sch)
    requires p in After(file, board, sch).alive && PcOf(After(file, board, sch), p) == Freeing(id)
    ensures sch <= longer && Runs(file, board, longer) && PcOf(After(file, board, longer), p) == Idle
    ensures Live(After(file, board, longer), LeaseLock(file, id)) <==> '/' in id
  {
    HeldWhileFreeing(file, board, sch, p, id);
    LeaseIsFound(file, id);
    longer := Extend(file, board, sch, p, Inspect);
    if PcOf(After(file, board, longer), p).Dropping? {
      longer := Extend(file, board, longer, p, Drop);
    }
  }

  /** A process may die at any point; its lock files, the board and everyone else stay as they are. */
  lemma AnyoneMayCrash(file: string, board: Board, sch: Schedule, p: Pid) returns (longer: Schedule)
    requires Runs(file, board, sch) && p in After(file, board, sch).alive
    ensures sch <= longer && Runs(file, board, longer)
    ensures var s, after := After(file, board, sch), After(file, board, longer); after == s.(alive := s.alive - {p})
  {
    longer := Extend(file, board, sch, p, Crash);
  }

  // ---------- leaving with nothing ----------

  /** From a section with nothing to write to its end. */
  lemma LeaveEmpty(file: string, board: Board, sch: Schedule, p: Pid) returns (longer: Schedule)
    requires Runs(file, board, sch)
    requires var s := After(file, board, sch); p in s.alive && PcOf(s, p) == Unlocking(ToIdle)
    ensures sch <= longer && Runs(file, board, longer)
    ensures var s, after := After(file, board, sch), After(file, board, longer);
            && PcOf(after, p) == Idle && after.alive == s.alive && after.board == s.board && after.log == s.log
            && after.locks == s.locks - {BoardLock(file)}
  {
    longer := Extend(file, board, sch, p, Unlock);
  }

  /**
   A process that names a task whose lease a live process holds comes back without it: the board and the log are as
   they were, and so are all lock files but the board's own, which is free again.
   */
  lemma LeasedTaskIsRefused(file: string, board: Board, sch: Schedule, p: Pid, i: nat) returns (longer: Schedule)
    requires Runs(file, board, sch)
    requires var s := After(file, board, sch);
             && p in s.alive && PcOf(s, p) == Idle && !Live(s, BoardLock(file))
             && IN_PROGRESS in s.board.statuses && "Status" in s.board.headers
             && i < |s.board.rows| && FirstWith(s.board.rows, s.board.rows[i].id, i)
             && LeaseFile(file, s.board.rows[i].id) != BoardLock(file) && Live(s, LeaseFile(file, s.board.rows[i].id))
    ensures sch <= longer && Runs(file, board, longer)
    ensures var s, after := After(file, board, sch), After(file, board, longer);
            && PcOf(after, p) == Idle && after.alive == s.alive && after.board == s.board && after.log == s.log
            && after.locks == s.locks - {BoardLock(file)}
  {
    var s := After(file, board, sch);
    FirstWithIsFound(s.board.rows, s.board.rows[i].id);
    longer := EnterSection(file, board, sch, p, ClaimId(s.board.rows[i].id));
    longer := Extend(file, board, longer, p, Choose(i));
    longer := LeaveEmpty(file, board, longer, p);
    assert After(file, board, longer).locks == s.locks - {BoardLock(file)};
  }

  /** A process whose claim finds nothing leaves board and log alone and gives the board lock back. */
  lemma NothingToClaim(file: string, board: Board, sch: Schedule, p: Pid) returns (longer: Schedule)
    requires Runs(file, board, sch)
    requires var s := After(file, board, sch); p in s.alive && PcOf(s, p) == Idle && !Live(s, BoardLock(file))
    ensures sch <= longer && Runs(file, board, longer)
    ensures var s, after := After(file, board, sch), After(file, board, longer);
            && PcOf(after, p) == Idle && after.alive == s.alive && after.board == s.board && after.log == s.log
            && after.locks == s.locks - {BoardLock(file)}
  {
    var s := After(file, board, sch);
    longer := EnterSection(file, board, sch, p, Claim);
    longer := Extend(file, board, longer, p, NoChange);
    longer := LeaveEmpty(file, board, longer, p);
    assert After(file, board, longer).locks == s.locks - {BoardLock(file)};
  }

  /**
   A process that waits for a lock of a live one may give up. It then writes nothing: one that waits for a lease leaves
   its section, one that came to finish a task goes on to give the lease back, any other is idle.
   */
  lemma WaiterGivesUp(file: string, board: Board, sch: Schedule, p: Pid) returns (longer: Schedule)
    requires Runs(file, board, sch)
    requires var s := After(file, board, sch);
             && p in s.alive && (PcOf(s, p).Waiting? || PcOf(s, p).Probed?) && Live(s, Wanted(file, PcOf(s, p)))
    ensures sch <= longer && Runs(file, board, longer)
    ensures var s, after := After(file, board, sch), After(file, board, longer);
            var pc := PcOf(s, p);
            && after.alive == s.alive && after.board == s.board && after.log == s.log
            && after.locks == (if pc.Probed? then s.locks - {BoardLock(file)} else s.locks)
            && PcOf(after, p) == if pc.Waiting? && pc.op.Finish? then Freeing(pc.op.done) else Idle
  {
    var probed := PcOf(After(file, board, sch), p).Probed?;
    longer := Extend(file, board, sch, p, GiveUp);
    if probed { longer := LeaveEmpty(file, board, longer, p); }
  }
}
