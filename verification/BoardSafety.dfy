/** What every step of every process keeps, and what follows for every run: exclusion, leases, linearizability. */
module BoardSafety {
  import opened Kanban
  import opened LockNames
  import opened BoardProtocol

  // ---------- what every step keeps ----------

  /** The process is inside its board section. */
  predicate InSection(pc: Pc) {
    pc.Locked? || pc.Loaded? || pc.Probed? || pc.Leased? || pc.Writing? || pc.Unlocking?
  }

  /** The process has this task: from taking the lease until dropping it. */
  predicate Holds(pc: Pc, id: string) {
    match pc
    case Leased(_, i, _, _) => i == id
    case Writing(_, _, next) => next == ToWork(id) || next == ToFree(id)
    case Unlocking(next) => next == ToWork(id) || next == ToFree(id)
    case Working(i) => i == id
    case Freeing(i) => i == id
    case Dropping(i) => i == id
    case Waiting(op) => op.Finish? && op.done == id
    case Locked(op) => op.Finish? && op.done == id
    case Loaded(op, _) => op.Finish? && op.done == id
    case _ => false
  }

  /** A row with this id is in Backlog with every known blocker Done. */
  predicate Startable(rows: seq<Row>, id: string) {
    exists i :: 0 <= i < |rows| && rows[i].id == id && IsCandidate(rows[i], rows)
  }

  /** The document a process computed on is the board as it is now. */
  ghost predicate DocCurrent(s: State, pc: Pc) {
    match pc
    case Loaded(_, doc) => doc == s.board
    case Probed(doc, id, queued, mark) => doc == s.board && (queued && mark ==> Startable(doc.rows, id))
    case Leased(doc, id, queued, mark) => doc == s.board && (queued && mark ==> Startable(doc.rows, id))
    case Writing(e, doc, _) => doc == Apply(e, s.board) && StartsUnblocked(e, s.board)
    case _ => true
  }

  predicate StartsUnblocked(e: Effect, before: Board) {
    e.Marked? && e.queued ==> Startable(before.rows, e.id)
  }

  ghost predicate ProcOk(file: string, s: State, p: Pid)
  {
    var pc := PcOf(s, p);
    && (InSection(pc) ==> BoardLock(file) in s.locks && s.locks[BoardLock(file)] == p)
    && (forall id :: Holds(pc, id) ==> LeaseLock(file, id) in s.locks && s.locks[LeaseLock(file, id)] == p)
    && (pc.Dropping? ==> LeaseFile(file, pc.id) in s.locks && s.locks[LeaseFile(file, pc.id)] == p)
    && DocCurrent(s, pc)
  }

  /** Every claim the queue has written started an unblocked Backlog task. */
  ghost predicate LogOk(initial: Board, log: seq<Effect>) {
    forall k :: 0 <= k < |log| ==> StartsUnblocked(log[k], Replay(initial, log[..k]))
  }

  ghost predicate Inv(file: string, initial: Board, s: State) {
    && (forall p :: p in s.alive ==> ProcOk(file, s, p))
    && s.board == Replay(initial, s.log)
    && LogOk(initial, s.log)
  }

  /** Only its holder, or anyone once the holder is dead, can make a lock file go away. */
  lemma LockLeaves(file: string, initial: Board, s: State, p: Pid, a: Action, lock: string)
    requires file != "" && Inv(file, initial, s) && Enabled(file, s, p, a)
    requires lock in s.locks
    ensures s.locks[lock] != p && s.locks[lock] in s.alive ==>
              var after := Step(file, s, p, a); lock in after.locks && after.locks[lock] == s.locks[lock]
  {
    if !a.Spawn? {
      assert ProcOk(file, s, p);
    }
  }

  lemma MoverSection(file: string, initial: Board, s: State, p: Pid, a: Action)
    requires file != "" && Inv(file, initial, s) && Enabled(file, s, p, a)
    ensures var after := Step(file, s, p, a);
            p in after.alive && InSection(PcOf(after, p)) ==>
              BoardLock(file) in after.locks && after.locks[BoardLock(file)] == p
  {
    var pc := PcOf(s, p);
    if !a.Spawn? {
      assert ProcOk(file, s, p);
      if pc.Probed? {
        LeaseIsNotBoardLock(file, pc.id);
      }
    }
  }

  /** A process has a task because it just created the lease, or because it had the task before. */
  lemma HoldsBefore(file: string, s: State, p: Pid, a: Action, id: string)
    requires Enabled(file, s, p, a) && !a.Spawn?
    ensures Holds(PcOf(Step(file, s, p, a), p), id) ==> (a.Create? && PcOf(s, p).Probed?) || Holds(PcOf(s, p), id)
  {
  }

  lemma MoverHolds(file: string, initial: Board, s: State, p: Pid, a: Action, id: string)
    requires file != "" && Inv(file, initial, s) && Enabled(file, s, p, a)
    ensures var after := Step(file, s, p, a);
            p in after.alive && Holds(PcOf(after, p), id) ==>
              LeaseLock(file, id) in after.locks && after.locks[LeaseLock(file, id)] == p
  {
    LeaseIsNotBoardLock(file, id);
    if !a.Spawn? {
      assert ProcOk(file, s, p);
      HoldsBefore(file, s, p, a, id);
    }
  }

  lemma MoverDoc(file: string, initial: Board, s: State, p: Pid, a: Action)
    requires file != "" && Inv(file, initial, s) && Enabled(file, s, p, a)
    ensures var after := Step(file, s, p, a); p in after.alive ==> DocCurrent(after, PcOf(after, p))
  {
    if !a.Spawn? {
      assert ProcOk(file, s, p);
    }
  }

  /** The process that moved is still consistent with what it saw. */
  lemma MoverOk(file: string, initial: Board, s: State, p: Pid, a: Action)
    requires file != "" && Inv(file, initial, s) && Enabled(file, s, p, a)
    ensures var after := Step(file, s, p, a); p in after.alive ==> ProcOk(file, after, p)
  {
    MoverSection(file, initial, s, p, a);
    MoverDoc(file, initial, s, p, a);
    forall id
      ensures var after := Step(file, s, p, a);
              p in after.alive && Holds(PcOf(after, p), id) ==>
                LeaseLock(file, id) in after.locks && after.locks[LeaseLock(file, id)] == p
    {
      MoverHolds(file, initial, s, p, a, id);
    }
  }

  /** Nobody else's section or lease is disturbed. */
  lemma OthersOk(file: string, initial: Board, s: State, p: Pid, a: Action, q: Pid)
    requires file != "" && Inv(file, initial, s) && Enabled(file, s, p, a)
    requires q != p && q in s.alive
    ensures var after := Step(file, s, p, a); q in after.alive && PcOf(after, q) == PcOf(s, q) && ProcOk(file, after, q)
  {
    var pc, after := PcOf(s, q), Step(file, s, p, a);
    assert ProcOk(file, s, q);
    if InSection(pc) {
      LockLeaves(file, initial, s, p, a, BoardLock(file));
    }
    forall id | Holds(pc, id)
      ensures LeaseLock(file, id) in after.locks && after.locks[LeaseLock(file, id)] == q
    {
      LockLeaves(file, initial, s, p, a, LeaseLock(file, id));
    }
    if pc.Dropping? {
      LockLeaves(file, initial, s, p, a, LeaseFile(file, pc.id));
    }
    if a.Save? {
      assert ProcOk(file, s, p);
    }
  }

  lemma LogGrows(initial: Board, log: seq<Effect>, e: Effect)
    requires LogOk(initial, log) && StartsUnblocked(e, Replay(initial, log))
    ensures LogOk(initial, log + [e]) && Replay(initial, log + [e]) == Apply(e, Replay(initial, log))
  {
    var longer := log + [e];
    assert longer[..|log|] == log;
    forall k | 0 <= k < |longer|
      ensures StartsUnblocked(longer[k], Replay(initial, longer[..k]))
    {
      assert k < |log| ==> longer[..k] == log[..k];
    }
  }

  lemma LogStays(file: string, initial: Board, s: State, p: Pid, a: Action)
    requires Inv(file, initial, s) && Enabled(file, s, p, a)
    ensures var after := Step(file, s, p, a); after.board == Replay(initial, after.log) && LogOk(initial, after.log)
  {
    if a.Save? {
      assert ProcOk(file, s, p);
      LogGrows(initial, s.log, PcOf(s, p).effect);
    }
  }

  lemma StepKeepsInv(file: string, initial: Board, s: State, p: Pid, a: Action)
    requires file != "" && Inv(file, initial, s) && Enabled(file, s, p, a)
    ensures Inv(file, initial, Step(file, s, p, a))
  {
    var after := Step(file, s, p, a);
    LogStays(file, initial, s, p, a);
    forall q | q in after.alive
      ensures ProcOk(file, after, q)
    {
      if q != p { OthersOk(file, initial, s, p, a, q); } else { MoverOk(file, initial, s, p, a); }
    }
  }

  lemma {:induction false} RunKeepsInv(file: string, board: Board, sch: Schedule)
    requires file != "" && Runs(file, board, sch)
    ensures Inv(file, board, After(file, board, sch))
  {
    if sch != [] {
      var n := |sch| - 1;
      RunKeepsInv(file, board, sch[..n]);
      StepKeepsInv(file, board, After(file, board, sch[..n]), sch[n].0, sch[n].1);
    }
  }

  /** Two live processes are never both inside a board section. */
  lemma MutualExclusion(file: string, board: Board, sch: Schedule, p: Pid, q: Pid)
    requires file != "" && Runs(file, board, sch)
    requires var s := After(file, board, sch);
             p in s.alive && q in s.alive && InSection(PcOf(s, p)) && InSection(PcOf(s, q))
    ensures p == q
  {
    RunKeepsInv(file, board, sch);
    assert ProcOk(file, After(file, board, sch), p) && ProcOk(file, After(file, board, sch), q);
  }

  /** Two live processes never hold tasks whose leases share a file; in particular, never the same task. */
  lemma TaskExclusivity(file: string, board: Board, sch: Schedule, p: Pid, q: Pid, a: string, b: string)
    requires file != "" && Runs(file, board, sch)
    requires var s := After(file, board, sch);
             p in s.alive && q in s.alive && Holds(PcOf(s, p), a) && Holds(PcOf(s, q), b)
    requires LeaseLock(file, a) == LeaseLock(file, b)
    ensures p == q
  {
    RunKeepsInv(file, board, sch);
    assert ProcOk(file, After(file, board, sch), p) && ProcOk(file, After(file, board, sch), q);
  }

  /** A lock file that this step may remove: stolen from the dead, or the mover's own section or lease. */
  ghost predicate MayGo(file: string, s: State, p: Pid, a: Action, lock: string)
    requires lock in s.locks && Enabled(file, s, p, a)
  {
    if a.Steal? then s.locks[lock] !in s.alive
    else
      && s.locks[lock] == p
      && ((a.Unlock? && lock == BoardLock(file)) || (a.Drop? && lock == LeaseFile(file, PcOf(s, p).id)))
  }

  lemma StepRemoves(file: string, initial: Board, s: State, p: Pid, a: Action, lock: string)
    requires file != "" && Inv(file, initial, s) && Enabled(file, s, p, a)
    requires lock in s.locks && lock !in Step(file, s, p, a).locks
    ensures MayGo(file, s, p, a, lock)
  {
    if !a.Spawn? { assert ProcOk(file, s, p); }
  }

  /**
   A live holder's lease survives every step of everyone else, crashes included. The only lock files that go are those
   of the dead, the mover's board lock when it leaves its section, and the mover's own lease when it has finished.
   */
  lemma LeaseNeverStolen(file: string, board: Board, sch: Schedule, p: Pid, a: Action)
    requires file != "" && Runs(file, board, sch) && Enabled(file, After(file, board, sch), p, a)
    ensures var s := After(file, board, sch);
            var after := Step(file, s, p, a);
            && (forall q, id :: q != p && q in s.alive && Holds(PcOf(s, q), id) ==>
                  && q in after.alive && Holds(PcOf(after, q), id)
                  && Live(after, LeaseLock(file, id)) && after.locks[LeaseLock(file, id)] == q)
            && (forall lock :: lock in s.locks && lock !in after.locks ==> MayGo(file, s, p, a, lock))
  {
    var s := After(file, board, sch);
    var after := Step(file, s, p, a);
    RunKeepsInv(file, board, sch);
    forall q, id | q != p && q in s.alive && Holds(PcOf(s, q), id)
      ensures q in after.alive && Holds(PcOf(after, q), id)
      ensures Live(after, LeaseLock(file, id)) && after.locks[LeaseLock(file, id)] == q
    {
      OthersOk(file, board, s, p, a, q);
      assert ProcOk(file, after, q);
    }
    forall lock | lock in s.locks && lock !in after.locks
      ensures MayGo(file, s, p, a, lock)
    {
      StepRemoves(file, board, s, p, a, lock);
    }
  }

  /**
   Concurrent mutations are linearizable: the board is always the completed sections applied
   one after another in lock order, and a save applies its effect to the board it overwrites,
   so no completed update is ever lost, whoever crashes where.
   */
  lemma Linearizable(file: string, board: Board, sch: Schedule, p: Pid, a: Action)
    requires file != "" && Runs(file, board, sch) && Enabled(file, After(file, board, sch), p, a)
    ensures var s := After(file, board, sch);
            var after := Step(file, s, p, a);
            && s.board == Replay(board, s.log)
            && if a.Save?
               then after.log == s.log + [PcOf(s, p).effect] && after.board == Apply(PcOf(s, p).effect, s.board)
               else after.log == s.log && after.board == s.board
  {
    RunKeepsInv(file, board, sch);
    if a.Save? {
      assert ProcOk(file, After(file, board, sch), p);
    }
  }

  /** The row that a mark of this id is written to, the first with it, is in Backlog with every known blocker Done. */
  predicate FirstStartable(rows: seq<Row>, id: string) {
    Known(rows, id) && IsCandidate(rows[FindRow(rows, id)], rows)
  }

  /**
   Whatever the interleaving, when the queue marks a Backlog task, a row with its id is in Backlog with all its known
   blockers Done, on the board the mark is written to; and if that is the only row with the id, it is the one written.
   */
  lemma QueueStartsUnblocked(file: string, board: Board, sch: Schedule, k: nat)
    requires file != "" && Runs(file, board, sch) && k < |After(file, board, sch).log|
    ensures var log := After(file, board, sch).log;
            log[k].Marked? && log[k].queued ==>
              var rows, id := Replay(board, log[..k]).rows, log[k].id;
              && Startable(rows, id)
              && (OnlyRow(rows, FindRow(rows, id)) ==> FirstStartable(rows, id))
  {
    RunKeepsInv(file, board, sch);
  }
}
