/**
 Many compose processes on one board: the board lock with its stale-lock steal, the per-task
 leases, and the read-modify-write sections of claim, finish and every other board mutation.

 A lease is created where the lock of its path lies, but it is read and removed beside the board,
 which is the same file unless the id has a slash.

 Two steps are taken as atomic: creating a lock file exclusively together with its content,
 and reading a dead holder's lock file and unlinking it. Everything else interleaves freely,
 and a process may crash between any two steps.
 */
module BoardProtocol {
  import opened Kanban
  import opened LockNames

  type Pid = nat

  /** What a process asks `mutateBoard` to do. */
  datatype Op =
    | Claim                                           // the queue: resume or next unblocked task
    | ClaimId(id: string)                             // one named task
    | Finish(done: string, status: string, planCell: string)
    | Mutate(f: Board -> Board)                       // any other board operation

  /** What a finished section writes. */
  datatype Effect =
    | Marked(id: string, queued: bool)
    | Finished(id: string, status: string, planCell: string)
    | Mutated(f: Board -> Board)

  /** What follows the release of the board lock. */
  datatype Next = ToIdle | ToWork(id: string) | ToFree(id: string)

  datatype Pc =
    | Idle
    | Waiting(op: Op)                                 // acquireLock on the board
    | Locked(op: Op)                                  // lock file is ours, board not read yet
    | Loaded(op: Op, doc: Board)
    | Probed(doc: Board, id: string, queued: bool, mark: bool)  // no live lease seen; acquireLock on the lease
    | Leased(doc: Board, id: string, queued: bool, mark: bool)
    | Writing(effect: Effect, doc: Board, next: Next) // new document computed, not saved
    | Unlocking(next: Next)
    | Working(id: string)                             // claim returned the task; composing it
    | Freeing(id: string)                             // releaseLease, before reading the lease
    | Dropping(id: string)                            // the lease names us; about to unlink it

  datatype State = State(
    procs: map<Pid, Pc>,
    alive: set<Pid>,
    locks: map<string, Pid>,
    board: Board,
    log: seq<Effect>
  )

  datatype Action =
    | Spawn
    | Crash
    | Begin(op: Op)
    | BeginFinish(status: string, planCell: string)
    | Create
    | Steal
    | GiveUp
    | Load
    | Choose(row: nat)
    | NoChange
    | Compute
    | Mark
    | Save
    | Unlock
    | Inspect
    | Drop

  // ---------- sections on one document ----------

  function Apply(e: Effect, doc: Board): Board {
    match e
    case Marked(id, _) => SetStatus(doc, id, IN_PROGRESS)
    case Finished(id, status, planCell) => FinishDoc(doc, id, status, planCell)
    case Mutated(f) => f(doc)
  }

  function Replay(initial: Board, log: seq<Effect>): Board {
    if log == [] then initial else Apply(log[|log| - 1], Replay(initial, log[..|log| - 1]))
  }

  /** Rows the queue may hand out: a task left In Progress, or an unblocked Backlog task. */
  predicate Claimable(row: Row, rows: seq<Row>) {
    row.status == IN_PROGRESS || IsCandidate(row, rows)
  }

  /** opClaim may settle on this row of the document. */
  predicate CanHandOut(op: Op, doc: Board, i: nat) {
    && i < |doc.rows| && IN_PROGRESS in doc.statuses && "Status" in doc.headers
    && ((op.Claim? && Claimable(doc.rows[i], doc.rows)) || (op.ClaimId? && i == FindRow(doc.rows, op.id)))
  }

  // ---------- one step ----------

  /** The lock file the process is trying to create. */
  function Wanted(file: string, pc: Pc): string
    requires pc.Waiting? || pc.Probed?
  {
    if pc.Waiting? then BoardLock(file) else LeaseLock(file, pc.id)
  }

  predicate Live(s: State, lock: string) {
    lock in s.locks && s.locks[lock] in s.alive
  }

  predicate Enabled(file: string, s: State, p: Pid, a: Action) {
    if a.Spawn? then p !in s.procs && p !in s.alive
    else
      && p in s.alive
      && var pc := PcOf(s, p);
         match a
         case Spawn => false
         case Crash => true
         case Begin(op) => pc.Idle? && !op.Finish?
         case BeginFinish(_, _) => pc.Working?
         case Create => (pc.Waiting? || pc.Probed?) && Wanted(file, pc) !in s.locks
         case Steal => (pc.Waiting? || pc.Probed?) && Wanted(file, pc) in s.locks && !Live(s, Wanted(file, pc))
         case GiveUp => (pc.Waiting? || pc.Probed?) && Live(s, Wanted(file, pc))
         case Load => pc.Locked?
         case Choose(i) =>
           pc.Loaded? && CanHandOut(pc.op, pc.doc, i)
         case NoChange => pc.Loaded? && !pc.op.Finish?
         case Compute => pc.Loaded? && (pc.op.Finish? || pc.op.Mutate?)
         case Mark => pc.Leased?
         case Save => pc.Writing?
         case Unlock => pc.Unlocking?
         case Inspect => pc.Freeing?
         case Drop => pc.Dropping?
  }

  function PcOf(s: State, p: Pid): Pc {
    if p in s.procs then s.procs[p] else Idle
  }

  function At(s: State, p: Pid, pc: Pc): State {
    s.(procs := s.procs[p := pc])
  }

  function Step(file: string, s: State, p: Pid, a: Action): State
    requires Enabled(file, s, p, a)
  {
    if a.Spawn? then State(s.procs[p := Idle], s.alive + {p}, s.locks, s.board, s.log)
    else
      var pc := PcOf(s, p);
      match a
      case Crash => s.(alive := s.alive - {p})
      case Begin(op) => At(s, p, Waiting(op))
      case BeginFinish(status, planCell) => At(s, p, Waiting(Finish(pc.id, status, planCell)))
      case Create =>
        At(s, p, if pc.Waiting? then Locked(pc.op) else Leased(pc.doc, pc.id, pc.queued, pc.mark))
          .(locks := s.locks[Wanted(file, pc) := p])
      case Steal => s.(locks := s.locks - {Wanted(file, pc)})
      case GiveUp =>
        At(s, p, if pc.Probed? then Unlocking(ToIdle) else if pc.op.Finish? then Freeing(pc.op.done) else Idle)
      case Load => At(s, p, Loaded(pc.op, s.board))
      case Choose(i) =>
        var id := pc.doc.rows[i].id;
        At(s, p, if Live(s, LeaseFile(file, id)) then Unlocking(ToIdle)
                 else Probed(pc.doc, id, pc.op.Claim?, pc.doc.rows[i].status != IN_PROGRESS))
      case NoChange => At(s, p, Unlocking(ToIdle))
      case Compute =>
        if pc.op.Mutate? then At(s, p, Writing(Mutated(pc.op.f), pc.op.f(pc.doc), ToIdle))
        else
          var id, status, planCell := pc.op.done, pc.op.status, pc.op.planCell;
          At(s, p, if status in pc.doc.statuses && Known(pc.doc.rows, id)
                   then Writing(Finished(id, status, planCell), FinishDoc(pc.doc, id, status, planCell), ToFree(id))
                   else Unlocking(ToFree(id)))
      case Mark =>
        At(s, p, if pc.mark
                 then Writing(Marked(pc.id, pc.queued), SetStatus(pc.doc, pc.id, IN_PROGRESS), ToWork(pc.id))
                 else Unlocking(ToWork(pc.id)))
      case Save => At(s, p, Unlocking(pc.next)).(board := pc.doc, log := s.log + [pc.effect])
      case Unlock =>
        At(s, p, if pc.next.ToIdle? then Idle else if pc.next.ToWork? then Working(pc.next.id) else Freeing(pc.next.id))
          .(locks := s.locks - {BoardLock(file)})
      case Inspect =>
        var lease := LeaseFile(file, pc.id);
        At(s, p, if lease in s.locks && s.locks[lease] == p then Dropping(pc.id) else Idle)
      case Drop => At(s, p, Idle).(locks := s.locks - {LeaseFile(file, pc.id)})
      case Spawn => s
  }

  // ---------- whole runs ----------

  /** A schedule: who moves, and how. */
  type Schedule = seq<(Pid, Action)>

  function Start(board: Board): State {
    State(map[], {}, map[], board, [])
  }

  /** The schedule can run to its end from an empty system. */
  predicate Runs(file: string, board: Board, sch: Schedule)
    decreases |sch|, 0
  {
    sch == [] ||
    var n := |sch| - 1;
    Runs(file, board, sch[..n]) && Enabled(file, After(file, board, sch[..n]), sch[n].0, sch[n].1)
  }

  function After(file: string, board: Board, sch: Schedule): State
    requires Runs(file, board, sch)
    decreases |sch|, 1
  {
    if sch == [] then Start(board)
    else
      var n := |sch| - 1;
      Step(file, After(file, board, sch[..n]), sch[n].0, sch[n].1)
  }
}
